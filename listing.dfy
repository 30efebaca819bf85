/** Directory listings: the ".csv" filter both pipelines apply to os.listdir, and the
    newest-file locator of the training pipeline (get_latest_processed_file). */
module Listing {

  import opened Common
  import opened Text

  /** A directory entry as os.listdir names it, with the modification time os.path.getmtime reports. */
  datatype Entry = Entry(name: string, mtime: int)

  predicate IsCsv(name: string)
  {
    EndsWith(name, ".csv")
  }

  /** Positions, in listing order, of the names that end in ".csv". */
  function CsvPositions(names: seq<string>): (idx: seq<nat>)
    ensures forall k :: 0 <= k < |idx| ==> idx[k] < |names| && IsCsv(names[idx[k]])
    ensures forall k, l :: 0 <= k < l < |idx| ==> idx[k] < idx[l]
    ensures forall i :: 0 <= i < |names| && IsCsv(names[i]) ==> i in idx
  {
    if names == [] then []
    else
      var init := CsvPositions(names[..|names| - 1]);
      if IsCsv(names[|names| - 1]) then init + [|names| - 1] else init
  }

  /** [x for x in names if x.endswith(".csv")] */
  function CsvNames(names: seq<string>): (r: seq<string>)
    ensures |r| == |CsvPositions(names)|
    ensures forall k :: 0 <= k < |r| ==> r[k] == names[CsvPositions(names)[k]]
    ensures forall k :: 0 <= k < |r| ==> IsCsv(r[k])
    ensures forall n :: n in r ==> n in names
  {
    var idx := CsvPositions(names);
    seq(|idx|, k requires 0 <= k < |idx| => names[idx[k]])
  }

  /** The filter keeps exactly the ".csv" names, in listing order, each once. */
  lemma CsvNamesFilter(names: seq<string>)
    ensures forall k :: 0 <= k < |CsvNames(names)| ==> IsCsv(CsvNames(names)[k])
    ensures forall i :: 0 <= i < |names| && IsCsv(names[i]) ==> names[i] in CsvNames(names)
    ensures forall n :: n in CsvNames(names) ==> n in names
    ensures |CsvNames(names)| <= |names|
  {
    var idx := CsvPositions(names);
    var r := CsvNames(names);
    forall i | 0 <= i < |names| && IsCsv(names[i]) ensures names[i] in r {
      var k :| 0 <= k < |idx| && idx[k] == i;
      assert r[k] == names[i];
    }
    StrictlyIncreasingBound(idx, |names|);
  }

  /** A strictly increasing sequence of positions below n has at most n members. */
  lemma {:induction false} StrictlyIncreasingBound(idx: seq<nat>, n: nat)
    requires forall k :: 0 <= k < |idx| ==> idx[k] < n
    requires forall k, l :: 0 <= k < l < |idx| ==> idx[k] < idx[l]
    ensures |idx| <= n
  {
    if idx != [] {
      var last := idx[|idx| - 1];
      StrictlyIncreasingBound(idx[..|idx| - 1], last);
    }
  }

  function EntryName(e: Entry): string
  {
    e.name
  }

  /** The names of a listing's items, in listing order. */
  function Names<T>(xs: seq<T>, name: T -> string): (r: seq<string>)
    ensures |r| == |xs| && forall i :: 0 <= i < |xs| ==> r[i] == name(xs[i])
  {
    seq(|xs|, i requires 0 <= i < |xs| => name(xs[i]))
  }

  /** Python's max(xs, key=mtime): the scan replaces its pick only on a strictly larger key,
      so the first of several equal maxima wins. */
  function MaxByMtime(xs: seq<Entry>): (k: nat)
    requires |xs| > 0
    ensures k < |xs|
    ensures forall j :: 0 <= j < |xs| ==> xs[j].mtime <= xs[k].mtime
    ensures forall j :: 0 <= j < k ==> xs[j].mtime < xs[k].mtime
  {
    if |xs| == 1 then 0
    else
      var k := MaxByMtime(xs[..|xs| - 1]);
      if xs[|xs| - 1].mtime > xs[k].mtime then |xs| - 1 else k
  }

  /** Entry i of the listing is the one the locator must pick: a ".csv" file at least as new as
      every other ".csv" file and strictly newer than every ".csv" file listed before it. */
  predicate NewestCsvAt(entries: seq<Entry>, i: int)
  {
    && 0 <= i < |entries|
    && IsCsv(entries[i].name)
    && (forall j :: 0 <= j < |entries| && IsCsv(entries[j].name) ==> entries[j].mtime <= entries[i].mtime)
    && (forall j :: 0 <= j < i && IsCsv(entries[j].name) ==> entries[j].mtime < entries[i].mtime)
  }

  /** The ".csv" entries in listing order. The locator joins each name to the directory
      before taking the maximum; the mtime of the joined path is the entry's, so picking the
      entry first and joining its name after gives the same path. */
  function CsvEntries(entries: seq<Entry>): (csv: seq<Entry>)
    ensures var idx := CsvPositions(Names(entries, EntryName));
            |csv| == |idx| && forall k :: 0 <= k < |idx| ==> csv[k] == entries[idx[k]]
  {
    var idx := CsvPositions(Names(entries, EntryName));
    seq(|idx|, k requires 0 <= k < |idx| => entries[idx[k]])
  }

  /** The maximum of the ".csv" entries lies at the position of the newest ".csv" entry. */
  lemma MaxOfCsvIsNewest(entries: seq<Entry>, idx: seq<nat>, csv: seq<Entry>, k: nat)
    requires forall l :: 0 <= l < |idx| ==> idx[l] < |entries| && IsCsv(entries[idx[l]].name)
    requires forall l, m :: 0 <= l < m < |idx| ==> idx[l] < idx[m]
    requires forall i :: 0 <= i < |entries| && IsCsv(entries[i].name) ==> i in idx
    requires |csv| == |idx| && forall l :: 0 <= l < |idx| ==> csv[l] == entries[idx[l]]
    requires k < |csv|
    requires forall l :: 0 <= l < |csv| ==> csv[l].mtime <= csv[k].mtime
    requires forall l :: 0 <= l < k ==> csv[l].mtime < csv[k].mtime
    ensures NewestCsvAt(entries, idx[k])
  {
    var i := idx[k];
    forall j | 0 <= j < |entries| && IsCsv(entries[j].name)
      ensures entries[j].mtime <= entries[i].mtime && (j < i ==> entries[j].mtime < entries[i].mtime)
    {
      var l :| 0 <= l < |idx| && idx[l] == j;
      assert csv[l] == entries[j];
      if j < i {
        assert l < k;
      }
    }
  }

  /** The filter's positions, read on the entries themselves. */
  lemma CsvEntryPositions(entries: seq<Entry>)
    ensures var idx := CsvPositions(Names(entries, EntryName));
            && (forall l :: 0 <= l < |idx| ==> idx[l] < |entries| && IsCsv(entries[idx[l]].name))
            && (forall l, m :: 0 <= l < m < |idx| ==> idx[l] < idx[m])
            && (forall i :: 0 <= i < |entries| && IsCsv(entries[i].name) ==> i in idx)
  {
    var names := Names(entries, EntryName);
    var idx := CsvPositions(names);
    forall i | 0 <= i < |entries| && IsCsv(entries[i].name) ensures i in idx {
      assert names[i] == entries[i].name;
    }
  }

  /** There are no ".csv" entries exactly when no entry is a ".csv" file. */
  lemma CsvEntriesEmpty(entries: seq<Entry>)
    ensures |CsvEntries(entries)| == 0 <==> forall i :: 0 <= i < |entries| ==> !IsCsv(entries[i].name)
  {
    CsvEntryPositions(entries);
    var idx := CsvPositions(Names(entries, EntryName));
    if |idx| > 0 {
      assert IsCsv(entries[idx[0]].name);
    }
  }

  /** max(key=mtime) over the ".csv" entries picks the newest ".csv" entry. */
  lemma CsvEntriesMax(entries: seq<Entry>)
    requires |CsvEntries(entries)| > 0
    ensures var csv := CsvEntries(entries);
            var idx := CsvPositions(Names(entries, EntryName));
            var k := MaxByMtime(csv);
            NewestCsvAt(entries, idx[k]) && csv[k] == entries[idx[k]]
  {
    var csv := CsvEntries(entries);
    var idx := CsvPositions(Names(entries, EntryName));
    CsvEntryPositions(entries);
    MaxOfCsvIsNewest(entries, idx, csv, MaxByMtime(csv));
  }

  /** get_latest_processed_file(dir): the ".csv" entries joined to dir, then max by mtime. */
  function LatestFile(dir: string, entries: seq<Entry>): (r: Result<string, Error>)
    ensures r.Failure? <==> forall i :: 0 <= i < |entries| ==> !IsCsv(entries[i].name)
    ensures r.Failure? ==> r.error == EmptyArgMax
    ensures r.Success? ==> exists i :: NewestCsvAt(entries, i) && r.value == JoinPath(dir, entries[i].name)
  {
    CsvEntriesEmpty(entries);
    var csv := CsvEntries(entries);
    if |csv| == 0 then Failure(EmptyArgMax)
    else
      CsvEntriesMax(entries);
      var k := MaxByMtime(csv);
      assert NewestCsvAt(entries, CsvPositions(Names(entries, EntryName))[k]);
      Success(JoinPath(dir, csv[k].name))
  }

  /** With distinct modification times, the locator returns the newest ".csv" file whatever
      the names and their order. */
  lemma LatestFileIsNewest(dir: string, entries: seq<Entry>, i: int)
    requires 0 <= i < |entries| && IsCsv(entries[i].name)
    requires forall j :: 0 <= j < |entries| && j != i && IsCsv(entries[j].name) ==> entries[j].mtime < entries[i].mtime
    ensures LatestFile(dir, entries) == Success(JoinPath(dir, entries[i].name))
  {
    var r := LatestFile(dir, entries);
    var w :| NewestCsvAt(entries, w) && r.value == JoinPath(dir, entries[w].name);
    assert NewestCsvAt(entries, i);
  }
}
