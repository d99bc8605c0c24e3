/** printResults: the summary, then one row per extension in sorted order, then
    the TOTAL row. The rows are modelled as values; their layout on the terminal
    (column widths, rules, headings) is not. */
module Report {
  import opened Text
  import opened Classifier
  import opened Aggregate

  /** One printed row of the breakdown table: a name, a file count and the
      line counts. */
  datatype Row = Row(name: string, files: nat, stats: FileStats)

  /** The order sort.Strings leaves behind: no element is below an earlier one. */
  predicate Sorted(s: seq<string>) {
    forall i, j :: 0 <= i < j < |s| ==> !Below(s[j], s[i])
  }

  predicate StrictlySorted(s: seq<string>) {
    forall i, j :: 0 <= i < j < |s| ==> Below(s[i], s[j])
  }

  /** `x` inserted into `s` in front of the first element that is not below it. */
  function Insert(s: seq<string>, x: string): (r: seq<string>)
    ensures multiset(r) == multiset(s) + multiset{x}
    decreases |s|
  {
    if s == [] || !Below(s[0], x) then [x] + s
    else
      assert s == [s[0]] + s[1..];
      [s[0]] + Insert(s[1..], x)
  }

  /** Inserting into a sorted sequence keeps it sorted. */
  lemma {:induction false} InsertSorted(s: seq<string>, x: string)
    requires Sorted(s)
    ensures Sorted(Insert(s, x))
    decreases |s|
  {
    var r := Insert(s, x);
    if s == [] || !Below(s[0], x) {
      forall j | 1 <= j < |r|
        ensures !Below(r[j], x)
      {
        if Below(r[j], x) {
          assert !Below(s[j - 1], s[0]);
          if s[j - 1] == s[0] {
          } else {
            BelowTotal(s[j - 1], s[0]);
            BelowTransitive(s[0], s[j - 1], x);
          }
        }
      }
    } else {
      var t := Insert(s[1..], x);
      InsertSorted(s[1..], x);
      assert r == [s[0]] + t;
      assert multiset(t) == multiset(s[1..]) + multiset{x};
      forall j | 0 <= j < |t|
        ensures !Below(t[j], s[0])
      {
        assert t[j] in multiset(t);
        if t[j] == x {
          BelowAsymmetric(s[0], x);
        } else {
          assert t[j] in multiset(s[1..]);
          var k :| 0 <= k < |s[1..]| && s[1..][k] == t[j];
          assert s[k + 1] == t[j];
        }
      }
    }
  }

  /** With no repeated element, sorted is strictly sorted. */
  lemma SortedDistinct(s: seq<string>)
    requires Sorted(s) && Distinct(s)
    ensures StrictlySorted(s)
  {
    forall i, j | 0 <= i < j < |s|
      ensures Below(s[i], s[j])
    {
      BelowTotal(s[i], s[j]);
    }
  }

  /** A strictly sorted list of given elements is unique: the report order of a
      set of extensions does not depend on the order the map handed them out. */
  lemma {:induction false} StrictlySortedUnique(a: seq<string>, b: seq<string>)
    requires StrictlySorted(a) && StrictlySorted(b)
    requires Elems(a) == Elems(b)
    ensures a == b
    decreases |a|
  {
    if a != [] {
      assert a[0] in Elems(a);
    }
    if b != [] {
      assert b[0] in Elems(b);
    }
    if a != [] && b != [] {
      assert a[0] in Elems(b) && a[0] in b;
      assert b[0] in Elems(a) && b[0] in a;
      var i :| 0 <= i < |b| && b[i] == a[0];
      var j :| 0 <= j < |a| && a[j] == b[0];
      if i > 0 && j > 0 {
        BelowAsymmetric(a[0], b[0]);
      }
      assert a[0] == b[0];
      BelowIrreflexive(a[0]);
      forall x
        ensures x in a[1..] <==> x in b[1..]
      {
        if x in a[1..] {
          var k :| 1 <= k < |a| && a[k] == x;
          assert x in Elems(a) && x in Elems(b) && x in b;
          var m :| 0 <= m < |b| && b[m] == x;
          assert m != 0;
          assert b[1..][m - 1] == x;
        }
        if x in b[1..] {
          var k :| 1 <= k < |b| && b[k] == x;
          assert x in Elems(b) && x in Elems(a) && x in a;
          var m :| 0 <= m < |a| && a[m] == x;
          assert m != 0;
          assert a[1..][m - 1] == x;
        }
      }
      assert Elems(a[1..]) == Elems(b[1..]);
      StrictlySortedUnique(a[1..], b[1..]);
    }
  }

  /** The loop collecting the keys of FilesByExt, in whatever order the map
      yields them. */
  method CollectKeys(m: map<string, nat>) returns (keys: seq<string>)
    ensures Distinct(keys)
    ensures Elems(keys) == m.Keys
  {
    keys := [];
    var rest := m.Keys;
    while rest != {}
      invariant Distinct(keys)
      invariant Elems(keys) + rest == m.Keys
      invariant forall k :: k in keys ==> k !in rest
      decreases rest
    {
      var k :| k in rest;
      keys := keys + [k];
      rest := rest - {k};
    }
  }

  /** sort.Strings on the collected keys: an insertion sort whose result is
      sorted and a permutation of its input. */
  method SortStrings(a: seq<string>) returns (s: seq<string>)
    ensures Sorted(s)
    ensures multiset(s) == multiset(a)
  {
    s := [];
    var i := 0;
    while i < |a|
      invariant 0 <= i <= |a|
      invariant Sorted(s)
      invariant multiset(s) == multiset(a[..i])
    {
      InsertSorted(s, a[i]);
      s := Insert(s, a[i]);
      assert a[..i + 1] == a[..i] + [a[i]];
      i := i + 1;
    }
    assert a[..|a|] == a;
  }

  /** The extensions of printResults: every key of FilesByExt exactly once, in
      increasing order. */
  method SortedExtensions(m: map<string, nat>) returns (exts: seq<string>)
    ensures StrictlySorted(exts)
    ensures Elems(exts) == m.Keys
  {
    var keys := CollectKeys(m);
    exts := SortStrings(keys);
    forall e
      ensures e in exts <==> e in keys
    {
      assert e in exts <==> e in multiset(exts);
    }
    assert Elems(exts) == Elems(keys);
    DistinctByMultiset(keys, exts);
    SortedDistinct(exts);
  }

  /** A permutation of a sequence without repetitions has none either. */
  lemma DistinctByMultiset(a: seq<string>, b: seq<string>)
    requires Distinct(a) && multiset(a) == multiset(b)
    ensures Distinct(b)
  {
    forall x
      ensures multiset(b)[x] <= 1
    {
      MultiplicityInDistinct(a, x);
    }
    forall i, j | 0 <= i < j < |b|
      ensures b[i] != b[j]
    {
      RepeatedTwice(b, i, j);
    }
  }

  /** Two positions holding the same element make it occur at least twice. */
  lemma RepeatedTwice(b: seq<string>, i: nat, j: nat)
    requires i < j < |b|
    ensures b[i] == b[j] ==> multiset(b)[b[i]] >= 2
  {
    assert b == b[..j] + b[j..];
    assert b[i] == b[..j][i] && b[j] == b[j..][0];
    assert multiset(b) == multiset(b[..j]) + multiset(b[j..]);
  }

  lemma {:induction false} MultiplicityInDistinct(a: seq<string>, x: string)
    requires Distinct(a)
    ensures multiset(a)[x] <= 1
    decreases |a|
  {
    if a != [] {
      var init := a[..|a| - 1];
      assert a == init + [a[|a| - 1]];
      assert Distinct(init);
      MultiplicityInDistinct(init, x);
      if a[|a| - 1] == x {
        assert x !in init;
      }
    }
  }

  /** Sums over rows, as a reader adds up the printed columns. */
  function SumFiles(rows: seq<Row>): nat
    decreases |rows|
  {
    if rows == [] then 0 else SumFiles(rows[..|rows| - 1]) + rows[|rows| - 1].files
  }

  function SumStats(rows: seq<Row>): FileStats
    decreases |rows|
  {
    if rows == [] then Zero else SumStats(rows[..|rows| - 1]).Plus(rows[|rows| - 1].stats)
  }

  /** The loop of printResults over the sorted extensions: one row per
      extension, with its entries in the two maps. */
  method ExtensionRows(files: map<string, nat>, stats: map<string, FileStats>, exts: seq<string>)
    returns (rows: seq<Row>)
    requires forall k :: 0 <= k < |exts| ==> exts[k] in files && exts[k] in stats
    ensures |rows| == |exts|
    ensures forall k :: 0 <= k < |exts| ==> rows[k] == Row(exts[k], files[exts[k]], stats[exts[k]])
  {
    rows := [];
    var i := 0;
    while i < |exts|
      invariant 0 <= i <= |exts|
      invariant |rows| == i
      invariant forall k :: 0 <= k < i ==> rows[k] == Row(exts[k], files[exts[k]], stats[exts[k]])
    {
      var ext := exts[i];
      rows := rows + [Row(ext, files[ext], stats[ext])];
      i := i + 1;
    }
  }

  /** Rows that carry the summaries of `items` for `keys` add up to the sums
      over those keys. */
  lemma {:induction false} RowsSumOver(rows: seq<Row>, keys: seq<string>, items: seq<Tally>)
    requires |rows| == |keys|
    requires forall k :: 0 <= k < |rows| ==>
      rows[k].files == FilesOf(items, keys[k]) && rows[k].stats == StatsOf(items, keys[k])
    ensures SumFiles(rows) == FilesOver(items, keys)
    ensures SumStats(rows) == StatsOver(items, keys)
    decreases |rows|
  {
    if rows != [] {
      var n := |rows| - 1;
      assert forall k :: 0 <= k < n ==> rows[..n][k] == rows[k] && keys[..n][k] == keys[k];
      RowsSumOver(rows[..n], keys[..n], items);
    }
  }

  /** `rows` is a breakdown of the two maps: one row per key, in strictly
      increasing order of keys, each carrying that key's entries. */
  predicate Describes(rows: seq<Row>, files: map<string, nat>, stats: map<string, FileStats>) {
    && (forall i, j :: 0 <= i < j < |rows| ==> Below(rows[i].name, rows[j].name))
    && (forall i :: 0 <= i < |rows| ==>
          && rows[i].name in files && rows[i].name in stats
          && rows[i].files == files[rows[i].name] && rows[i].stats == stats[rows[i].name])
    && (forall e :: e in files ==> exists i :: 0 <= i < |rows| && rows[i].name == e)
  }

  /** The rows of printResults for the given aggregate, and its TOTAL row: the
      breakdown has one row per extension, sorted, and adds up to the totals. */
  method BuildReport(files: map<string, nat>, stats: map<string, FileStats>,
                     totalFiles: nat, totalStats: FileStats, ghost items: seq<Tally>)
    returns (rows: seq<Row>, total: Row)
    requires Summarizes(files, stats, totalStats, totalFiles, items)
    ensures Describes(rows, files, stats)
    ensures |rows| == |files.Keys|
    ensures total == Row("TOTAL", totalFiles, totalStats)
    ensures SumFiles(rows) == total.files && SumStats(rows) == total.stats
  {
    var exts := SortedExtensions(files);
    SortedKeysInMaps(exts, files, stats, totalStats, totalFiles, items);
    rows := ExtensionRows(files, stats, exts);
    total := Row("TOTAL", totalFiles, totalStats);
    RowsDescribe(rows, exts, files, stats);
    RowsAddUp(rows, exts, files, stats, totalStats, totalFiles, items);
  }

  lemma SortedKeysInMaps(exts: seq<string>, files: map<string, nat>, stats: map<string, FileStats>,
                         totalStats: FileStats, totalFiles: nat, items: seq<Tally>)
    requires Summarizes(files, stats, totalStats, totalFiles, items)
    requires Elems(exts) == files.Keys
    ensures forall k :: 0 <= k < |exts| ==> exts[k] in files && exts[k] in stats
  {
    forall k | 0 <= k < |exts|
      ensures exts[k] in files && exts[k] in stats
    {
      assert exts[k] in Elems(exts);
    }
  }

  /** One row per sorted key, carrying the key's entries, is a breakdown of the
      maps with as many rows as keys. */
  lemma RowsDescribe(rows: seq<Row>, exts: seq<string>, files: map<string, nat>, stats: map<string, FileStats>)
    requires StrictlySorted(exts) && Elems(exts) == files.Keys
    requires forall k :: 0 <= k < |exts| ==> exts[k] in files && exts[k] in stats
    requires |rows| == |exts|
    requires forall k :: 0 <= k < |exts| ==> rows[k] == Row(exts[k], files[exts[k]], stats[exts[k]])
    ensures Describes(rows, files, stats)
    ensures |rows| == |files.Keys|
  {
    forall e | e in files
      ensures exists i :: 0 <= i < |rows| && rows[i].name == e
    {
      assert e in Elems(exts);
      var k :| 0 <= k < |exts| && exts[k] == e;
      assert rows[k].name == e;
    }
    ExtsStrictlyDistinct(exts);
    DistinctCardinality(exts);
  }

  /** The rows of all keys add up to the totals of the aggregate. */
  lemma RowsAddUp(rows: seq<Row>, exts: seq<string>, files: map<string, nat>, stats: map<string, FileStats>,
                  totalStats: FileStats, totalFiles: nat, items: seq<Tally>)
    requires Summarizes(files, stats, totalStats, totalFiles, items)
    requires StrictlySorted(exts) && Elems(exts) == files.Keys
    requires forall k :: 0 <= k < |exts| ==> exts[k] in files && exts[k] in stats
    requires |rows| == |exts|
    requires forall k :: 0 <= k < |exts| ==> rows[k] == Row(exts[k], files[exts[k]], stats[exts[k]])
    ensures SumFiles(rows) == totalFiles && SumStats(rows) == totalStats
  {
    ExtsStrictlyDistinct(exts);
    RowsSumToTotals(items, exts);
    RowsSumOver(rows, exts, items);
  }

  /** printResults on a valid aggregate. */
  method PrintResults(ps: ProjectStats) returns (rows: seq<Row>, total: Row)
    requires ps.Valid()
    ensures Describes(rows, ps.FilesByExt, ps.StatsByExt)
    ensures total == Row("TOTAL", ps.TotalFiles, ps.TotalStats)
    ensures SumFiles(rows) == ps.TotalFiles && SumStats(rows) == ps.TotalStats
    ensures Breakdown(rows, ps.Recorded)
  {
    rows, total := BuildReport(ps.FilesByExt, ps.StatsByExt, ps.TotalFiles, ps.TotalStats, ps.Recorded);
    DescribesBreakdown(rows, ps.FilesByExt, ps.StatsByExt, ps.TotalStats, ps.TotalFiles, ps.Recorded);
  }

  /** The first column of the breakdown. */
  function Names(rows: seq<Row>): seq<string> {
    seq(|rows|, i requires 0 <= i < |rows| => rows[i].name)
  }

  /** The breakdown is determined by the maps alone: the order in which the map
      hands out its keys leaves no trace in the report. */
  lemma ReportUnique(r1: seq<Row>, r2: seq<Row>, files: map<string, nat>, stats: map<string, FileStats>)
    requires Describes(r1, files, stats) && Describes(r2, files, stats)
    ensures r1 == r2
  {
    DescribedNames(r1, files, stats);
    DescribedNames(r2, files, stats);
    StrictlySortedUnique(Names(r1), Names(r2));
    assert forall i :: 0 <= i < |r1| ==> r1[i].name == Names(r1)[i] == Names(r2)[i] == r2[i].name;
  }

  /** The first column of a breakdown lists the keys of the maps, strictly
      increasing. */
  lemma DescribedNames(rows: seq<Row>, files: map<string, nat>, stats: map<string, FileStats>)
    requires Describes(rows, files, stats)
    ensures StrictlySorted(Names(rows))
    ensures Elems(Names(rows)) == files.Keys
  {
    var names := Names(rows);
    forall x
      ensures x in names <==> x in files
    {
      if x in names {
        var k :| 0 <= k < |names| && names[k] == x;
      }
      if x in files {
        var m :| 0 <= m < |rows| && rows[m].name == x;
        assert names[m] == x;
      }
    }
  }

  /** The breakdown of the recorded files `items`: one row per extension seen,
      in strictly increasing order, each with that extension's file count and
      line counts. */
  predicate Breakdown(rows: seq<Row>, items: seq<Tally>) {
    && StrictlySorted(Names(rows))
    && Elems(Names(rows)) == ExtsOf(items)
    && (forall i :: 0 <= i < |rows| ==>
          rows[i] == Row(rows[i].name, FilesOf(items, rows[i].name), StatsOf(items, rows[i].name)))
  }

  /** A breakdown of maps that summarize the recorded files is the breakdown of
      those files. */
  lemma DescribesBreakdown(rows: seq<Row>, files: map<string, nat>, stats: map<string, FileStats>,
                           total: FileStats, n: nat, items: seq<Tally>)
    requires Describes(rows, files, stats) && Summarizes(files, stats, total, n, items)
    ensures Breakdown(rows, items)
  {
    DescribedNames(rows, files, stats);
  }

  /** A list without repetitions is as long as the set of its elements. */
  lemma {:induction false} DistinctCardinality(s: seq<string>)
    requires Distinct(s)
    ensures |Elems(s)| == |s|
    decreases |s|
  {
    if s != [] {
      var init := s[..|s| - 1];
      var last := s[|s| - 1];
      assert Distinct(init);
      assert Elems(s) == Elems(init) + {last};
      assert last !in Elems(init);
      DistinctCardinality(init);
    }
  }

  /** A strictly increasing list has no repetitions. */
  lemma ExtsStrictlyDistinct(s: seq<string>)
    requires StrictlySorted(s)
    ensures Distinct(s)
  {
    forall i, j | 0 <= i < j < |s|
      ensures s[i] != s[j]
    {
      BelowIrreflexive(s[i]);
    }
  }
}
