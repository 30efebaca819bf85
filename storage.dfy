/** The file system as the pipelines see it: files by path, each a sequence of lines (a pickled
    artifact is an opaque sequence too), and the header-once, append-only log writer that
    log_errors, display_and_save_metrics and the ingestion script each spell out. */
module Storage {

  import opened Common

  /** A file's content as os.path.exists / os.path.getsize see it: absent, or present (maybe empty). */
  function Lookup(files: map<string, seq<string>>, path: string): (log: Option<seq<string>>)
    ensures log.Some? <==> path in files
  {
    if path in files then Some(files[path]) else None
  }

  /** The content after one logger call: the header is written when the file is absent or
      zero-length, then one line is appended. */
  function Appended(log: Option<seq<string>>, header: string, line: string): (r: seq<string>)
    ensures log.None? || log.value == [] ==> r == [header, line]
    ensures log.Some? && log.value != [] ==> r == log.value + [line]
  {
    var base := if log.None? || log.value == [] then [header] else log.value;
    base + [line]
  }

  /** The content after one logger call per line, in order. */
  function AppendedAll(log: Option<seq<string>>, header: string, lines: seq<string>): (r: seq<string>)
    ensures |lines| <= |r|
    ensures lines != [] ==> r[|r| - 1] == lines[|lines| - 1]
    decreases |lines|
  {
    if lines == [] then (if log.Some? then log.value else [])
    else Appended(Some(AppendedAll(log, header, lines[..|lines| - 1])), header, lines[|lines| - 1])
  }

  /** Logging into a non-empty file never rewrites what is there: n calls append exactly n lines. */
  lemma {:induction false} AppendedAllExtends(content: seq<string>, header: string, lines: seq<string>)
    requires content != []
    ensures AppendedAll(Some(content), header, lines) == content + lines
  {
    if lines != [] {
      var init := lines[..|lines| - 1];
      AppendedAllExtends(content, header, init);
      assert content + init + [lines[|lines| - 1]] == content + lines;
    }
  }

  /** Starting from no file (or an empty one), n calls leave the header exactly once, first,
      followed by the n lines in call order. */
  lemma {:induction false} AppendedAllFromNothing(log: Option<seq<string>>, header: string, lines: seq<string>)
    requires lines != []
    requires log.None? || log.value == []
    ensures AppendedAll(log, header, lines) == [header] + lines
  {
    if |lines| == 1 {
      assert AppendedAll(log, header, []) == [];
    } else {
      var init := lines[..|lines| - 1];
      AppendedAllFromNothing(log, header, init);
      assert [header] + init + [lines[|lines| - 1]] == [header] + lines;
    }
  }

  /** The file system. `unwritable` maps the paths whose open() raises to the OSError's text
      (missing directory, permission denied); it is the environment, not something the
      pipelines change. A write that fails after the open succeeded is not represented. */
  class FileStore {
    var files: map<string, seq<string>>
    const unwritable: map<string, string>

    constructor (files0: map<string, seq<string>>, unwritable0: map<string, string>)
      ensures files == files0 && unwritable == unwritable0
    {
      files := files0;
      unwritable := unwritable0;
    }

    /** open(path, "w"/"wb") followed by one write of the whole content. */
    method Write(path: string, content: seq<string>) returns (r: Outcome<Error>)
      modifies this
      ensures (r, files) == WriteEffect(old(files), unwritable, path, content)
    {
      if path in unwritable {
        r := Fail(OsError(unwritable[path]));
      } else {
        files := files[path := content];
        r := Pass;
      }
    }

    /** The header-once logger: header if the file is absent or empty, then one appended line. */
    method AppendLine(path: string, header: string, line: string) returns (r: Outcome<Error>)
      modifies this
      ensures (r, files) == AppendEffect(old(files), unwritable, path, header, line)
    {
      if path in unwritable {
        r := Fail(OsError(unwritable[path]));
        return;
      }
      ghost var before := files;
      if path !in files || files[path] == [] {
        files := files[path := [header]];
      }
      files := files[path := files[path] + [line]];
      assert files == before[path := Appended(Lookup(before, path), header, line)];
      r := Pass;
    }
  }

  /** What Write does to the files, and whether it raises. */
  function WriteEffect(files: map<string, seq<string>>, unwritable: map<string, string>, path: string,
                       content: seq<string>): (out: (Outcome<Error>, map<string, seq<string>>))
    ensures path in unwritable ==> out == (Fail(OsError(unwritable[path])), files)
    ensures path !in unwritable ==> out.0 == Pass && out.1.Keys == files.Keys + {path} && out.1[path] == content
    ensures forall p :: p != path && p in files ==> p in out.1 && out.1[p] == files[p]
  {
    if path in unwritable then (Fail(OsError(unwritable[path])), files)
    else (Pass, files[path := content])
  }

  /** What AppendLine does to the files, and whether it raises. */
  function AppendEffect(files: map<string, seq<string>>, unwritable: map<string, string>, path: string,
                        header: string, line: string): (out: (Outcome<Error>, map<string, seq<string>>))
    ensures path in unwritable ==> out == (Fail(OsError(unwritable[path])), files)
    ensures path !in unwritable ==> out.0 == Pass && out.1.Keys == files.Keys + {path}
    ensures path !in unwritable ==> out.1[path] == Appended(Lookup(files, path), header, line)
    ensures forall p :: p != path && p in files ==> p in out.1 && out.1[p] == files[p]
  {
    if path in unwritable then (Fail(OsError(unwritable[path])), files)
    else (Pass, files[path := Appended(Lookup(files, path), header, line)])
  }
}
