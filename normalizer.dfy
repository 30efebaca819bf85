/** The ingestion script (preprocessed.py): every ".csv" file of the raw directory, in listing
    order, has its timestamps coerced and is sorted newest first; the tables are concatenated,
    rows repeating on (timestamp, model, sales) are dropped keeping the first, the result is
    written under a stamped name and one line is appended to the ingestion log. */
module Normalizer {

  import opened Common
  import opened Text
  import opened Stamp
  import opened Listing
  import opened Storage

  /** A CSV row as read: the timestamp still text, the model None for an empty cell (NaN).
      `extra` holds any other columns. */
  datatype RawRow = RawRow(timestamp: string, model: Option<string>, sales: int, extra: seq<string>)

  /** A directory entry of the raw-data directory with what reading it gives: the rows, or the
      exception the loop body raises for it (pd.read_csv's own error, or the KeyError of a
      file without a "timestamp" column). */
  datatype RawFile = RawFile(name: string, read: Result<seq<RawRow>, Error>)

  /** A row after pd.to_datetime(..., errors="coerce"): None is NaT. */
  datatype Row = Row(timestamp: Option<int>, model: Option<string>, sales: int, extra: seq<string>)

  /** The subset drop_duplicates compares. NaT equals NaT and NaN equals NaN there, so
      structural equality is right. */
  type Key = (Option<int>, Option<string>, int)

  function KeyOf(r: Row): Key
  {
    (r.timestamp, r.model, r.sales)
  }

  const ProcessedDir: string := "../data/processed/"
  const IngestLogPath: string := "../logs/preprocessed.logs"
  const IngestLogHeader: string := "timestamp;nr_of_files;nr_of_rows;processed_files"

  function FileName(f: RawFile): string
  {
    f.name
  }

  /** The files the loop reads: the ".csv" ones, in listing order. */
  function CsvFiles(listing: seq<RawFile>): (r: seq<RawFile>)
    ensures |r| == |CsvNames(Names(listing, FileName))|
    ensures forall k :: 0 <= k < |r| ==> r[k].name == CsvNames(Names(listing, FileName))[k]
    ensures forall k :: 0 <= k < |r| ==> r[k] == listing[CsvPositions(Names(listing, FileName))[k]]
  {
    var idx := CsvPositions(Names(listing, FileName));
    seq(|idx|, k requires 0 <= k < |idx| => listing[idx[k]])
  }

  /** Timestamp coercion: each text goes through the ISO-8601 parser; what it cannot read
      becomes None instead of raising. Nothing else in the row changes. */
  function Coerce(raw: seq<RawRow>, parse: string -> Option<int>): (rows: seq<Row>)
    ensures |rows| == |raw|
    ensures forall i :: 0 <= i < |raw| ==>
              && rows[i].timestamp == parse(raw[i].timestamp)
              && rows[i].model == raw[i].model && rows[i].sales == raw[i].sales && rows[i].extra == raw[i].extra
  {
    seq(|raw|, i requires 0 <= i < |raw| => Row(parse(raw[i].timestamp), raw[i].model, raw[i].sales, raw[i].extra))
  }

  /** a may stand before b in sort_values(ascending=False): larger first, NaT last. */
  predicate NewerOrEqual(a: Option<int>, b: Option<int>)
  {
    b.None? || (a.Some? && a.value >= b.value)
  }

  predicate NewestFirst(rows: seq<Row>)
  {
    forall i, j :: 0 <= i < j < |rows| ==> NewerOrEqual(rows[i].timestamp, rows[j].timestamp)
  }

  /** df.sort_values(by="timestamp", ascending=False, inplace=True). pandas' default sort is not
      stable, so all that is promised is the order and that the rows are the same rows. */
  method SortNewestFirst(a: array<Row>)
    modifies a
    ensures NewestFirst(a[..])
    ensures multiset(a[..]) == multiset(old(a[..]))
  {
    var i := 0;
    while i < a.Length
      invariant 0 <= i <= a.Length
      invariant forall p, q :: 0 <= p < q < i ==> NewerOrEqual(a[p].timestamp, a[q].timestamp)
      invariant multiset(a[..]) == multiset(old(a[..]))
    {
      var j := i;
      while j > 0 && !NewerOrEqual(a[j - 1].timestamp, a[j].timestamp)
        invariant 0 <= j <= i
        invariant forall p, q :: 0 <= p < q <= i && q != j ==> NewerOrEqual(a[p].timestamp, a[q].timestamp)
        invariant multiset(a[..]) == multiset(old(a[..]))
      {
        a[j - 1], a[j] := a[j], a[j - 1];
        j := j - 1;
      }
      i := i + 1;
    }
  }

  /** The position of the first file whose reading raises, or |files| when every file reads. */
  function FirstFailedRead(files: seq<RawFile>): (k: nat)
    ensures k <= |files|
    ensures forall j :: 0 <= j < k ==> files[j].read.Success?
    ensures k < |files| ==> files[k].read.Failure?
  {
    if files == [] || files[0].read.Failure? then 0 else 1 + FirstFailedRead(files[1..])
  }

  /** The module-level loop: for each ".csv" file, read it, coerce its timestamps, sort it in
      place and append it to the list of tables; the first file that cannot be read ends the
      loop with its exception. */
  method ReadAndSort(files: seq<RawFile>, parse: string -> Option<int>) returns (r: Result<seq<seq<Row>>, Error>)
    ensures r.Failure? <==> FirstFailedRead(files) < |files|
    ensures r.Failure? ==> r.error == files[FirstFailedRead(files)].read.error
    ensures r.Success? ==> |r.value| == |files|
    ensures r.Success? ==> forall i :: 0 <= i < |files| ==>
              && files[i].read.Success?
              && NewestFirst(r.value[i])
              && multiset(r.value[i]) == multiset(Coerce(files[i].read.value, parse))
  {
    var blocks := [];
    for i := 0 to |files|
      invariant |blocks| == i
      invariant forall k :: 0 <= k < i ==>
                  && files[k].read.Success?
                  && NewestFirst(blocks[k])
                  && multiset(blocks[k]) == multiset(Coerce(files[k].read.value, parse))
    {
      if files[i].read.Failure? {
        return Failure(files[i].read.error);
      }
      var rows := Coerce(files[i].read.value, parse);
      var a := new Row[|rows|](k requires 0 <= k < |rows| => rows[k]);
      assert a[..] == rows;
      SortNewestFirst(a);
      blocks := blocks + [a[..]];
    }
    r := Success(blocks);
  }

  /** pd.concat(tables, ignore_index=True) for a non-empty list. It keeps every row: its
      length is the sum of the block lengths. */
  function Concat(blocks: seq<seq<Row>>): (r: seq<Row>)
    ensures |r| == Offset(blocks, |blocks|)
  {
    if blocks == [] then []
    else
      OffsetPrefix(blocks, |blocks| - 1);
      Concat(blocks[..|blocks| - 1]) + blocks[|blocks| - 1]
  }

  /** Where block i starts in the concatenation: the total length of the blocks before it. */
  function Offset(blocks: seq<seq<Row>>, i: nat): nat
    requires i <= |blocks|
  {
    if i == 0 then 0 else Offset(blocks, i - 1) + |blocks[i - 1]|
  }

  /** Block i sits unchanged at its offset in the concatenation, so file order is kept. */
  lemma {:induction false} ConcatBlockAt(blocks: seq<seq<Row>>, i: nat)
    requires i < |blocks|
    ensures Offset(blocks, i) + |blocks[i]| <= |Concat(blocks)|
    ensures Concat(blocks)[Offset(blocks, i)..Offset(blocks, i) + |blocks[i]|] == blocks[i]
  {
    var n := |blocks| - 1;
    var init := blocks[..n];
    OffsetPrefix(blocks, i);
    if i < n {
      ConcatBlockAt(init, i);
      assert blocks[i] == init[i];
      OffsetPrefix(blocks, n);
      assert Offset(blocks, i + 1) <= Offset(blocks, n) by {
        OffsetMonotone(blocks, i + 1, n);
      }
    }
  }

  lemma {:induction false} OffsetMonotone(blocks: seq<seq<Row>>, i: nat, j: nat)
    requires i <= j <= |blocks|
    ensures Offset(blocks, i) <= Offset(blocks, j)
    decreases j - i
  {
    if i < j {
      OffsetMonotone(blocks, i, j - 1);
    }
  }

  /** Offsets depend only on the blocks before the position. */
  lemma {:induction false} OffsetPrefix(blocks: seq<seq<Row>>, i: nat)
    requires i < |blocks|
    ensures Offset(blocks[..|blocks| - 1], i) == Offset(blocks, i)
  {
    if i > 0 {
      OffsetPrefix(blocks, i - 1);
    }
  }

  /** Within each file's block of the combined table the rows are newest first. */
  lemma ConcatKeepsBlockOrder(blocks: seq<seq<Row>>, i: nat)
    requires i < |blocks| && NewestFirst(blocks[i])
    ensures var lo := Offset(blocks, i);
            lo + |blocks[i]| <= |Concat(blocks)| && NewestFirst(Concat(blocks)[lo..lo + |blocks[i]|])
  {
    ConcatBlockAt(blocks, i);
  }

  /** The keys occurring in a table. */
  function Keys(rows: seq<Row>): (ks: set<Key>)
    ensures forall i :: 0 <= i < |rows| ==> KeyOf(rows[i]) in ks
  {
    if rows == [] then {} else Keys(rows[..|rows| - 1]) + {KeyOf(rows[|rows| - 1])}
  }

  /** Every key of a table comes from one of its rows. */
  lemma {:induction false} KeyWitness(rows: seq<Row>, k: Key) returns (i: nat)
    requires k in Keys(rows)
    ensures i < |rows| && KeyOf(rows[i]) == k
  {
    var init := rows[..|rows| - 1];
    if k == KeyOf(rows[|rows| - 1]) {
      i := |rows| - 1;
    } else {
      i := KeyWitness(init, k);
    }
  }

  /** drop_duplicates(subset=["timestamp", "model", "sales"], keep="first"): a row survives when
      no earlier row has its key. */
  function KeepFirst(rows: seq<Row>): (r: seq<Row>)
    ensures |r| <= |rows|
    ensures forall x :: x in r ==> x in rows
  {
    if rows == [] then []
    else
      var init := rows[..|rows| - 1];
      var last := rows[|rows| - 1];
      if KeyOf(last) in Keys(init) then KeepFirst(init) else KeepFirst(init) + [last]
  }

  /** The row at i is the first with its key. */
  predicate FirstOccurrence(rows: seq<Row>, i: int)
    requires 0 <= i < |rows|
  {
    forall j :: 0 <= j < i ==> KeyOf(rows[j]) != KeyOf(rows[i])
  }

  /** The positions of the rows whose key has not occurred before them, in order. */
  function FirstPositions(rows: seq<Row>): (ps: seq<nat>)
    ensures forall k :: 0 <= k < |ps| ==> ps[k] < |rows|
  {
    if rows == [] then []
    else
      var init := rows[..|rows| - 1];
      var ps := FirstPositions(init);
      if KeyOf(rows[|rows| - 1]) in Keys(init) then ps else ps + [|rows| - 1]
  }

  /** ps lists exactly the first occurrences in rows, increasing. */
  predicate ListsFirsts(rows: seq<Row>, ps: seq<nat>)
  {
    && (forall k :: 0 <= k < |ps| ==> ps[k] < |rows| && FirstOccurrence(rows, ps[k]))
    && (forall k, l :: 0 <= k < l < |ps| ==> ps[k] < ps[l])
    && (forall i :: 0 <= i < |rows| && FirstOccurrence(rows, i) ==> i in ps)
  }

  lemma {:induction false} FirstPositionsSpec(rows: seq<Row>)
    ensures ListsFirsts(rows, FirstPositions(rows))
  {
    if rows != [] {
      var n := |rows| - 1;
      var init := rows[..n];
      FirstPositionsSpec(init);
      var ps0 := FirstPositions(init);
      var ps := FirstPositions(rows);
      forall k | 0 <= k < |ps0| ensures FirstOccurrence(rows, ps0[k]) {
        assert FirstOccurrence(init, ps0[k]);
        forall j | 0 <= j < ps0[k] ensures KeyOf(rows[j]) != KeyOf(rows[ps0[k]]) {
          assert rows[j] == init[j] && rows[ps0[k]] == init[ps0[k]];
        }
      }
      forall i | 0 <= i < n && FirstOccurrence(rows, i) ensures i in ps0 {
        assert FirstOccurrence(init, i) by {
          forall j | 0 <= j < i ensures KeyOf(init[j]) != KeyOf(init[i]) {
            assert rows[j] == init[j];
          }
        }
      }
      if KeyOf(rows[n]) in Keys(init) {
        var w := KeyWitness(init, KeyOf(rows[n]));
        assert ps == ps0;
        assert !FirstOccurrence(rows, n) by {
          assert rows[w] == init[w];
        }
      } else {
        assert ps == ps0 + [n];
        forall j | 0 <= j < n ensures KeyOf(rows[j]) != KeyOf(rows[n]) {
          assert KeyOf(init[j]) in Keys(init);
        }
        assert FirstOccurrence(rows, n);
      }
    }
  }

  /** Dedupe keeps the first row of each key and nothing else, in table order: the output is the
      subsequence of the input at the first-occurrence positions. */
  lemma {:induction false} KeepFirstSelects(rows: seq<Row>)
    ensures var ps := FirstPositions(rows);
            |KeepFirst(rows)| == |ps| && forall k :: 0 <= k < |ps| ==> KeepFirst(rows)[k] == rows[ps[k]]
  {
    if rows != [] {
      var init := rows[..|rows| - 1];
      KeepFirstSelects(init);
    }
  }

  /** Dedupe loses no key and adds none. */
  lemma {:induction false} KeepFirstKeys(rows: seq<Row>)
    ensures Keys(KeepFirst(rows)) == Keys(rows)
  {
    if rows != [] {
      var init := rows[..|rows| - 1];
      KeepFirstKeys(init);
      var out := KeepFirst(rows);
      if KeyOf(rows[|rows| - 1]) !in Keys(init) {
        assert out[..|out| - 1] == KeepFirst(init);
      }
    }
  }

  predicate DistinctKeys(rows: seq<Row>)
  {
    forall i, j :: 0 <= i < j < |rows| ==> KeyOf(rows[i]) != KeyOf(rows[j])
  }

  /** After dedupe no two rows share a key. */
  lemma {:induction false} KeepFirstDistinct(rows: seq<Row>)
    ensures DistinctKeys(KeepFirst(rows))
  {
    if rows != [] {
      var init := rows[..|rows| - 1];
      KeepFirstDistinct(init);
      KeepFirstKeys(init);
      var out0 := KeepFirst(init);
      var last := rows[|rows| - 1];
      if KeyOf(last) !in Keys(init) {
        var out := out0 + [last];
        assert KeepFirst(rows) == out;
        forall i, j | 0 <= i < j < |out| ensures KeyOf(out[i]) != KeyOf(out[j]) {
          if j == |out0| {
            assert KeyOf(out0[i]) in Keys(out0);
          } else {
            assert out[i] == out0[i] && out[j] == out0[j];
          }
        }
      }
    }
  }

  /** One row per distinct key, so never more rows than the input. */
  lemma {:induction false} KeepFirstLength(rows: seq<Row>)
    ensures |KeepFirst(rows)| == |Keys(rows)| <= |rows|
  {
    if rows != [] {
      var init := rows[..|rows| - 1];
      KeepFirstLength(init);
      var last := KeyOf(rows[|rows| - 1]);
      assert Keys(rows) == Keys(init) + {last};
      if last !in Keys(init) {
        assert KeepFirst(rows) == KeepFirst(init) + [rows[|rows| - 1]];
        assert |Keys(init) + {last}| == |Keys(init)| + 1;
      } else {
        assert KeepFirst(rows) == KeepFirst(init);
        assert Keys(rows) == Keys(init);
      }
    }
  }

  /** A table without repeated keys is left as it is, so dedupe is idempotent. */
  lemma {:induction false} KeepFirstOfDistinct(rows: seq<Row>)
    requires DistinctKeys(rows)
    ensures KeepFirst(rows) == rows
  {
    if rows != [] {
      var init := rows[..|rows| - 1];
      KeepFirstOfDistinct(init);
      if KeyOf(rows[|rows| - 1]) in Keys(init) {
        var w := KeyWitness(init, KeyOf(rows[|rows| - 1]));
        assert false;
      }
    }
  }

  lemma KeepFirstIdempotent(rows: seq<Row>)
    ensures KeepFirst(KeepFirst(rows)) == KeepFirst(rows)
  {
    KeepFirstDistinct(rows);
    KeepFirstOfDistinct(KeepFirst(rows));
  }

  /** "sales_processed_" + stamp + ".csv" */
  function ProcessedName(stamp: string): string
  {
    "sales_processed_" + stamp + ".csv"
  }

  /** The output lands in the processed directory under the stamped name, and it is a ".csv"
      file, so the training pipeline's locator will consider it. */
  function ProcessedPath(stamp: string): (p: string)
    ensures p == "../data/processed/sales_processed_" + stamp + ".csv"
    ensures IsCsv(ProcessedName(stamp))
  {
    var name := ProcessedName(stamp);
    assert name[|name| - 4..] == ".csv";
    JoinPath(ProcessedDir, name)
  }

  /** "<stamp>;<number of csv files>;<output row count>;<csv names joined by commas>" */
  function IngestLine(stamp: string, csvNames: seq<string>, rowCount: nat): (line: string)
    ensures stamp + ";" <= line
  {
    JoinWith(";", [stamp, Decimal(|csvNames|), Decimal(rowCount), JoinWith(",", csvNames)])
  }

  /** The ingestion line reads back into its four fields as long as no file name holds ';',
      and the two counts parse back to the numbers written. */
  lemma IngestLineFields(now: Clock, csvNames: seq<string>, rowCount: nat)
    requires ValidClock(now)
    requires forall k :: 0 <= k < |csvNames| ==> ';' !in csvNames[k]
    ensures var fields := Split(';', IngestLine(Format(now), csvNames, rowCount));
            && fields == [Format(now), Decimal(|csvNames|), Decimal(rowCount), JoinWith(",", csvNames)]
            && AllDigits(fields[1]) && Value(fields[1]) == |csvNames|
            && AllDigits(fields[2]) && Value(fields[2]) == rowCount
  {
    var fields := [Format(now), Decimal(|csvNames|), Decimal(rowCount), JoinWith(",", csvNames)];
    NoSeparatorInJoin(',', ';', csvNames);
    assert forall k :: 0 <= k < 4 ==> ';' !in fields[k];
    SplitJoin(';', fields);
    DecimalValue(|csvNames|);
    DecimalValue(rowCount);
  }

  /** Joining fields with another separator adds no `sep`. */
  lemma {:induction false} NoSeparatorInJoin(joiner: char, sep: char, parts: seq<string>)
    requires joiner != sep
    requires forall k :: 0 <= k < |parts| ==> sep !in parts[k]
    ensures sep !in JoinWith([joiner], parts)
  {
    if |parts| > 1 {
      NoSeparatorInJoin(joiner, sep, parts[..|parts| - 1]);
    }
  }

  /** What one ingestion run leaves behind. */
  datatype Report = Report(csvNames: seq<string>, blocks: seq<seq<Row>>, table: seq<Row>, path: string)

  /** Writing the processed CSV, then the log line; the first failure stops the run. */
  function PublishEffect(files: map<string, seq<string>>, unwritable: map<string, string>,
                         path: string, content: seq<string>, line: string)
    : (out: (Outcome<Error>, map<string, seq<string>>))
    ensures path in unwritable ==> out == (Fail(OsError(unwritable[path])), files)
    ensures path !in unwritable && IngestLogPath in unwritable ==>
              out == (Fail(OsError(unwritable[IngestLogPath])), files[path := content])
    ensures path !in unwritable && IngestLogPath !in unwritable && path != IngestLogPath ==>
              && out.0 == Pass
              && out.1 == files[path := content][IngestLogPath := Appended(Lookup(files, IngestLogPath), IngestLogHeader, line)]
  {
    var (written, files1) := WriteEffect(files, unwritable, path, content);
    if written.Fail? then (written, files1)
    else AppendEffect(files1, unwritable, IngestLogPath, IngestLogHeader, line)
  }

  /** The whole ingestion run. `listing` is os.listdir of the raw directory with what reading
      each file gives, `parse` the ISO-8601 parser, `render` what to_csv writes for a table,
      `now` the UTC clock reading taken once for the output name and the log line. */
  method Preprocess(fs: FileStore, listing: seq<RawFile>, parse: string -> Option<int>,
                    render: seq<Row> -> seq<string>, now: Clock)
    returns (report: Report, outcome: Outcome<Error>)
    requires ValidClock(now)
    modifies fs
    ensures report.csvNames == CsvNames(Names(listing, FileName))
    ensures report.path == ProcessedPath(Format(now))
    ensures report.table == KeepFirst(Concat(report.blocks))
    ensures var files := CsvFiles(listing);
            FirstFailedRead(files) < |files| ==>
              outcome == Fail(files[FirstFailedRead(files)].read.error) && fs.files == old(fs.files)
    ensures var files := CsvFiles(listing);
            FirstFailedRead(files) == |files| ==>
              && |report.blocks| == |report.csvNames|
              && forall i :: 0 <= i < |report.blocks| ==>
                   && files[i].read.Success?
                   && NewestFirst(report.blocks[i])
                   && multiset(report.blocks[i]) == multiset(Coerce(files[i].read.value, parse))
    ensures report.csvNames == [] ==> outcome == Fail(NothingToConcat) && fs.files == old(fs.files)
    ensures FirstFailedRead(CsvFiles(listing)) == |report.csvNames| && report.csvNames != [] ==>
              (outcome, fs.files) == PublishEffect(old(fs.files), fs.unwritable, report.path, render(report.table),
                                                   IngestLine(Format(now), report.csvNames, |report.table|))
  {
    var csvNames := CsvNames(Names(listing, FileName));
    var stamp := Format(now);
    var path := ProcessedPath(stamp);
    var read := ReadAndSort(CsvFiles(listing), parse);
    if read.Failure? {
      report := Report(csvNames, [], [], path);
      outcome := Fail(read.error);
      return;
    }
    var blocks := read.value;
    if blocks == [] {
      report := Report(csvNames, blocks, [], path);
      outcome := Fail(NothingToConcat);
      return;
    }
    var table := KeepFirst(Concat(blocks));
    report := Report(csvNames, blocks, table, path);
    outcome := fs.Write(path, render(table));
    if outcome.Fail? {
      return;
    }
    outcome := fs.AppendLine(IngestLogPath, IngestLogHeader, IngestLine(stamp, csvNames, |table|));
  }
}
