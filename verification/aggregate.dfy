/** The project-wide aggregator: every file that is counted adds one to the file
    count of its extension and to the total file count, and adds its line counts
    to the counts of its extension and to the project totals. The maps and
    totals are defined as functions of the sequence of files recorded so far, so
    that their invariants (sums, order independence) are lemmas about those
    functions. */
module Aggregate {
  import opened Text
  import opened Classifier

  /** One counted file: its lower-cased extension and its counts. */
  datatype Tally = Tally(ext: string, stats: FileStats)

  /** Number of recorded files with extension `ext`. */
  function FilesOf(items: seq<Tally>, ext: string): (n: nat)
    ensures n <= |items|
    decreases |items|
  {
    if items == [] then 0
    else FilesOf(items[..|items| - 1], ext) + (if items[|items| - 1].ext == ext then 1 else 0)
  }

  /** Sum of the counts of the recorded files with extension `ext`. */
  function StatsOf(items: seq<Tally>, ext: string): FileStats
    decreases |items|
  {
    if items == [] then Zero
    else
      var s := StatsOf(items[..|items| - 1], ext);
      if items[|items| - 1].ext == ext then s.Plus(items[|items| - 1].stats) else s
  }

  /** Sum of the counts of all recorded files. */
  function TotalOf(items: seq<Tally>): FileStats
    decreases |items|
  {
    if items == [] then Zero else TotalOf(items[..|items| - 1]).Plus(items[|items| - 1].stats)
  }

  /** The extensions of the recorded files. */
  function ExtsOf(items: seq<Tally>): set<string>
    decreases |items|
  {
    if items == [] then {} else ExtsOf(items[..|items| - 1]) + {items[|items| - 1].ext}
  }

  /** An extension is seen exactly when some recorded file has it. */
  lemma {:induction false} ExtsOfMembers(items: seq<Tally>, ext: string)
    ensures ext in ExtsOf(items) <==> exists t :: t in items && t.ext == ext
    decreases |items|
  {
    if items != [] {
      var init := items[..|items| - 1];
      ExtsOfMembers(init, ext);
      assert items == init + [items[|items| - 1]];
    }
  }

  /** A Go map read: the stored value, or the zero value for a missing key. */
  function CountAt(m: map<string, nat>, ext: string): nat {
    if ext in m then m[ext] else 0
  }

  function StatsAt(m: map<string, FileStats>, ext: string): FileStats {
    if ext in m then m[ext] else Zero
  }

  /** The maps and totals summarize `items`: the maps have a key exactly for
      each extension with a counted file, hold that extension's file count and
      counts, and the totals are those of all files. */
  ghost predicate Summarizes(files: map<string, nat>, stats: map<string, FileStats>,
                             total: FileStats, n: nat, items: seq<Tally>)
  {
    && files.Keys == ExtsOf(items)
    && stats.Keys == ExtsOf(items)
    && (forall e :: e in files ==> files[e] == FilesOf(items, e))
    && (forall e :: e in stats ==> stats[e] == StatsOf(items, e))
    && total == TotalOf(items)
    && n == |items|
  }

  /** One update of the callback keeps the summary exact. */
  lemma SummarizesSnoc(files: map<string, nat>, stats: map<string, FileStats>,
                       total: FileStats, n: nat, items: seq<Tally>, t: Tally,
                       files': map<string, nat>, stats': map<string, FileStats>, total': FileStats)
    requires Summarizes(files, stats, total, n, items)
    requires files' == files[t.ext := CountAt(files, t.ext) + 1]
    requires stats' == stats[t.ext := StatsAt(stats, t.ext).Plus(t.stats)]
    requires total' == total.Plus(t.stats)
    ensures Summarizes(files', stats', total', n + 1, items + [t])
  {
    SummariesSnoc(items, t);
    forall e | e in files'
      ensures files'[e] == FilesOf(items + [t], e) && stats'[e] == StatsOf(items + [t], e)
    {
      SummariesSnocAt(items, t, e);
      if e == t.ext && e !in files {
        ExtsHaveFiles(items, e);
        PlusZero(t.stats);
        assert StatsOf(items, e) == Zero by {
          NoFilesNoStats(items, e);
        }
      }
    }
  }

  /** An extension without files has zero counts. */
  lemma {:induction false} NoFilesNoStats(items: seq<Tally>, ext: string)
    requires FilesOf(items, ext) == 0
    ensures StatsOf(items, ext) == Zero
    decreases |items|
  {
    if items != [] {
      NoFilesNoStats(items[..|items| - 1], ext);
    }
  }

  /** ProjectStats: the per-extension maps and the project totals, updated in
      place as files are counted. */
  class ProjectStats {
    var FilesByExt: map<string, nat>
    var StatsByExt: map<string, FileStats>
    var TotalStats: FileStats
    var TotalFiles: nat

    /** The files recorded so far, in the order they were counted. */
    ghost var Recorded: seq<Tally>

    /** Each field is the corresponding summary of the recorded files. */
    ghost predicate Valid()
      reads this
    {
      Summarizes(FilesByExt, StatsByExt, TotalStats, TotalFiles, Recorded)
    }

    /** The empty aggregate of countProjectLines: empty maps, zero totals. */
    constructor ()
      ensures Valid() && Recorded == []
      ensures FilesByExt == map[] && StatsByExt == map[]
      ensures TotalStats == Zero && TotalFiles == 0
    {
      FilesByExt := map[];
      StatsByExt := map[];
      TotalStats := Zero;
      TotalFiles := 0;
      Recorded := [];
    }

    /** The update of the walk callback for one counted file: one more file of
        its extension and in total, its counts added to its extension's counts
        (starting from zero for a new extension) and to the totals; no other
        key changes. */
    method Record(ext: string, fs: FileStats)
      requires Valid()
      modifies this
      ensures Valid()
      ensures Recorded == old(Recorded) + [Tally(ext, fs)]
      ensures FilesByExt == old(FilesByExt)[ext := CountAt(old(FilesByExt), ext) + 1]
      ensures StatsByExt == old(StatsByExt)[ext := StatsAt(old(StatsByExt), ext).Plus(fs)]
      ensures TotalFiles == old(TotalFiles) + 1
      ensures TotalStats == old(TotalStats).Plus(fs)
    {
      var files := FilesByExt[ext := CountAt(FilesByExt, ext) + 1];
      var extStats := StatsAt(StatsByExt, ext);
      extStats := AddCounts(extStats, fs);
      var byExt := StatsByExt[ext := extStats];
      var total := AddCounts(TotalStats, fs);
      SummarizesSnoc(FilesByExt, StatsByExt, TotalStats, TotalFiles, Recorded, Tally(ext, fs), files, byExt, total);

      FilesByExt, StatsByExt, TotalStats, TotalFiles := files, byExt, total, TotalFiles + 1;
      Recorded := Recorded + [Tally(ext, fs)];
    }
  }

  /** The four field-by-field additions the callback applies to an extension's
      counts and to the totals. */
  method AddCounts(acc: FileStats, fs: FileStats) returns (r: FileStats)
    ensures r == acc.Plus(fs)
  {
    r := acc;
    r := r.(TotalLines := r.TotalLines + fs.TotalLines);
    r := r.(CodeLines := r.CodeLines + fs.CodeLines);
    r := r.(BlankLines := r.BlankLines + fs.BlankLines);
    r := r.(CommentLines := r.CommentLines + fs.CommentLines);
  }

  /** An extension has a key in the maps exactly when at least one file with it
      was counted. */
  lemma {:induction false} ExtsHaveFiles(items: seq<Tally>, ext: string)
    ensures ext in ExtsOf(items) <==> FilesOf(items, ext) > 0
    decreases |items|
  {
    if items != [] {
      var init := items[..|items| - 1];
      ExtsHaveFiles(init, ext);
      assert items == init + [items[|items| - 1]];
      assert ExtsOf(items) == ExtsOf(init) + {items[|items| - 1].ext};
    }
  }

  /** Recording one more file adds its extension to the extensions seen and its
      counts to the totals. */
  lemma SummariesSnoc(items: seq<Tally>, t: Tally)
    ensures ExtsOf(items + [t]) == ExtsOf(items) + {t.ext}
    ensures TotalOf(items + [t]) == TotalOf(items).Plus(t.stats)
  {
    assert (items + [t])[..|items|] == items;
  }

  /** Recording one more file changes the summaries of its own extension only. */
  lemma SummariesSnocAt(items: seq<Tally>, t: Tally, ext: string)
    ensures FilesOf(items + [t], ext) == FilesOf(items, ext) + (if t.ext == ext then 1 else 0)
    ensures StatsOf(items + [t], ext) == (if t.ext == ext then StatsOf(items, ext).Plus(t.stats) else StatsOf(items, ext))
  {
    assert (items + [t])[..|items|] == items;
  }

  /** The file count of a concatenation is the sum of the file counts. */
  lemma {:induction false} FilesAppend(a: seq<Tally>, b: seq<Tally>, ext: string)
    ensures FilesOf(a + b, ext) == FilesOf(a, ext) + FilesOf(b, ext)
    decreases |b|
  {
    if b == [] {
      assert a + b == a;
    } else {
      var b' := b[..|b| - 1];
      assert (a + b)[..|a + b| - 1] == a + b';
      FilesAppend(a, b', ext);
    }
  }

  /** The counts of an extension over a concatenation are the sums of its counts. */
  lemma {:induction false} StatsAppend(a: seq<Tally>, b: seq<Tally>, ext: string)
    ensures StatsOf(a + b, ext) == StatsOf(a, ext).Plus(StatsOf(b, ext))
    decreases |b|
  {
    if b == [] {
      assert a + b == a;
      PlusZero(StatsOf(a, ext));
    } else {
      var b' := b[..|b| - 1];
      assert (a + b)[..|a + b| - 1] == a + b';
      StatsAppend(a, b', ext);
      var last := b[|b| - 1];
      if last.ext == ext {
        PlusAssociative(StatsOf(a, ext), StatsOf(b', ext), last.stats);
      }
    }
  }

  /** The totals of a concatenation are the sums of the totals. */
  lemma {:induction false} TotalAppend(a: seq<Tally>, b: seq<Tally>)
    ensures TotalOf(a + b) == TotalOf(a).Plus(TotalOf(b))
    decreases |b|
  {
    if b == [] {
      assert a + b == a;
      PlusZero(TotalOf(a));
    } else {
      var b' := b[..|b| - 1];
      assert (a + b)[..|a + b| - 1] == a + b';
      TotalAppend(a, b');
      PlusAssociative(TotalOf(a), TotalOf(b'), b[|b| - 1].stats);
    }
  }

  /** A permutation of a non-empty sequence holds its last element at some index
      `i`, and the rest of it is a permutation of what the sequence holds before
      its last element. */
  lemma PermutationSplit(a: seq<Tally>, b: seq<Tally>) returns (i: nat)
    requires a != [] && multiset(a) == multiset(b)
    ensures i < |b| && b[i] == a[|a| - 1]
    ensures b == b[..i] + [b[i]] + b[i + 1..]
    ensures multiset(a[..|a| - 1]) == multiset(b[..i] + b[i + 1..])
  {
    var a' := a[..|a| - 1];
    var x := a[|a| - 1];
    assert a == a' + [x];
    assert x in multiset(b);
    i :| 0 <= i < |b| && b[i] == x;
    RemoveAt(b, i);
    assert multiset(a) == multiset(a') + multiset{x};
    MultisetCancel(multiset(a'), multiset(b[..i] + b[i + 1..]), x);
  }

  lemma MultisetCancel(m: multiset<Tally>, n: multiset<Tally>, x: Tally)
    requires m + multiset{x} == n + multiset{x}
    ensures m == n
  {
    forall y
      ensures m[y] == n[y]
    {
      assert (m + multiset{x})[y] == m[y] + multiset{x}[y];
      assert (n + multiset{x})[y] == n[y] + multiset{x}[y];
    }
  }

  /** Taking out the element at `i` takes one occurrence of it out of the multiset. */
  lemma RemoveAt(b: seq<Tally>, i: nat)
    requires i < |b|
    ensures b == b[..i] + [b[i]] + b[i + 1..]
    ensures multiset(b) == multiset(b[..i] + b[i + 1..]) + multiset{b[i]}
  {
    var b1, b2 := b[..i], b[i + 1..];
    assert b == b1 + [b[i]] + b2;
    assert multiset(b1 + b2) == multiset(b1) + multiset(b2);
  }

  /** The extensions seen do not depend on the order of the files. */
  lemma ExtsOrderIndependent(a: seq<Tally>, b: seq<Tally>)
    requires multiset(a) == multiset(b)
    ensures ExtsOf(a) == ExtsOf(b)
  {
    forall t
      ensures t in a <==> t in b
    {
      assert t in a <==> t in multiset(a);
      assert t in b <==> t in multiset(b);
    }
    forall e
      ensures e in ExtsOf(a) <==> e in ExtsOf(b)
    {
      ExtsOfMembers(a, e);
      ExtsOfMembers(b, e);
    }
  }

  /** The file count of an extension does not depend on the order of the files. */
  lemma {:induction false} FilesOrderIndependent(a: seq<Tally>, b: seq<Tally>, ext: string)
    requires multiset(a) == multiset(b)
    ensures FilesOf(a, ext) == FilesOf(b, ext)
    decreases |a|
  {
    if a == [] {
      assert |b| == |multiset(b)| == 0;
    } else {
      var i := PermutationSplit(a, b);
      var x, b1, b2 := b[i], b[..i], b[i + 1..];
      FilesOrderIndependent(a[..|a| - 1], b1 + b2, ext);
      FilesAppend(b1, b2, ext);
      FilesAppend(b1 + [x], b2, ext);
      SummariesSnocAt(b1, x, ext);
    }
  }

  /** The counts of an extension do not depend on the order of the files. */
  lemma {:induction false} StatsOrderIndependent(a: seq<Tally>, b: seq<Tally>, ext: string)
    requires multiset(a) == multiset(b)
    ensures StatsOf(a, ext) == StatsOf(b, ext)
    decreases |a|
  {
    if a == [] {
      assert |b| == |multiset(b)| == 0;
    } else {
      var i := PermutationSplit(a, b);
      var x, b1, b2 := b[i], b[..i], b[i + 1..];
      StatsOrderIndependent(a[..|a| - 1], b1 + b2, ext);
      StatsAppend(b1, b2, ext);
      StatsAppend(b1 + [x], b2, ext);
      SummariesSnocAt(b1, x, ext);
    }
  }

  /** The project totals do not depend on the order of the files. */
  lemma {:induction false} TotalOrderIndependent(a: seq<Tally>, b: seq<Tally>)
    requires multiset(a) == multiset(b)
    ensures TotalOf(a) == TotalOf(b)
    decreases |a|
  {
    if a == [] {
      assert |b| == |multiset(b)| == 0;
    } else {
      var i := PermutationSplit(a, b);
      var x, b1, b2 := b[i], b[..i], b[i + 1..];
      TotalOrderIndependent(a[..|a| - 1], b1 + b2);
      TotalAppend(b1, b2);
      TotalAppend(b1 + [x], b2);
      SummariesSnoc(b1, x);
    }
  }

  /** Two aggregates that recorded the same files, in whatever order, hold the
      same maps and totals. */
  lemma SameFilesSameAggregate(p: ProjectStats, q: ProjectStats)
    requires p.Valid() && q.Valid()
    requires multiset(p.Recorded) == multiset(q.Recorded)
    ensures p.FilesByExt == q.FilesByExt && p.StatsByExt == q.StatsByExt
    ensures p.TotalFiles == q.TotalFiles && p.TotalStats == q.TotalStats
  {
    ExtsOrderIndependent(p.Recorded, q.Recorded);
    TotalOrderIndependent(p.Recorded, q.Recorded);
    forall e | e in p.FilesByExt
      ensures p.FilesByExt[e] == q.FilesByExt[e] && p.StatsByExt[e] == q.StatsByExt[e]
    {
      FilesOrderIndependent(p.Recorded, q.Recorded, e);
      StatsOrderIndependent(p.Recorded, q.Recorded, e);
    }
    assert |p.Recorded| == |multiset(p.Recorded)|;
    assert |q.Recorded| == |multiset(q.Recorded)|;
  }

  /** If every counted file is balanced (total = code + blank + comment), so are
      the totals and the counts of every extension. */
  lemma {:induction false} SummariesBalanced(items: seq<Tally>, ext: string)
    requires forall k :: 0 <= k < |items| ==> items[k].stats.Balanced()
    ensures TotalOf(items).Balanced()
    ensures StatsOf(items, ext).Balanced()
    decreases |items|
  {
    if items != [] {
      var init := items[..|items| - 1];
      assert forall k :: 0 <= k < |init| ==> init[k] == items[k];
      SummariesBalanced(init, ext);
    }
  }

  /** Sum of the per-extension file counts over the keys `keys`. */
  function FilesOver(items: seq<Tally>, keys: seq<string>): nat
    decreases |keys|
  {
    if keys == [] then 0 else FilesOver(items, keys[..|keys| - 1]) + FilesOf(items, keys[|keys| - 1])
  }

  /** Sum of the per-extension counts over the keys `keys`. */
  function StatsOver(items: seq<Tally>, keys: seq<string>): FileStats
    decreases |keys|
  {
    if keys == [] then Zero else StatsOver(items, keys[..|keys| - 1]).Plus(StatsOf(items, keys[|keys| - 1]))
  }

  predicate Distinct(keys: seq<string>) {
    forall i, j :: 0 <= i < j < |keys| ==> keys[i] != keys[j]
  }

  /** One more file adds itself to the sums over the keys exactly once per
      occurrence of its extension among the keys. */
  lemma {:induction false} OverSnoc(items: seq<Tally>, t: Tally, keys: seq<string>)
    requires Distinct(keys)
    ensures t.ext in keys ==> FilesOver(items + [t], keys) == FilesOver(items, keys) + 1
    ensures t.ext in keys ==> StatsOver(items + [t], keys) == StatsOver(items, keys).Plus(t.stats)
    ensures t.ext !in keys ==> FilesOver(items + [t], keys) == FilesOver(items, keys)
    ensures t.ext !in keys ==> StatsOver(items + [t], keys) == StatsOver(items, keys)
    decreases |keys|
  {
    var items' := items + [t];
    assert items'[..|items'| - 1] == items;
    if keys != [] {
      var init := keys[..|keys| - 1];
      var last := keys[|keys| - 1];
      assert keys == init + [last];
      assert Distinct(init);
      assert last !in init;
      OverSnoc(items, t, init);
    }
  }

  /** The per-extension rows of the report add up to the totals: over any list
      of distinct keys that covers every counted extension, the file counts sum
      to the number of files and the counts sum to the project totals. */
  lemma {:induction false} RowsSumToTotals(items: seq<Tally>, keys: seq<string>)
    requires Distinct(keys)
    requires ExtsOf(items) <= Elems(keys)
    ensures FilesOver(items, keys) == |items|
    ensures StatsOver(items, keys) == TotalOf(items)
    decreases |items|
  {
    if items == [] {
      NothingOver(keys);
    } else {
      var init := items[..|items| - 1];
      var t := items[|items| - 1];
      assert items == init + [t];
      assert ExtsOf(init) <= ExtsOf(items);
      assert t.ext in ExtsOf(items);
      RowsSumToTotals(init, keys);
      OverSnoc(init, t, keys);
    }
  }

  /** With no files, every sum over keys is zero. */
  lemma {:induction false} NothingOver(keys: seq<string>)
    ensures FilesOver([], keys) == 0 && StatsOver([], keys) == Zero
    decreases |keys|
  {
    if keys != [] {
      NothingOver(keys[..|keys| - 1]);
    }
  }

  /** The running totals of a valid aggregate are the sums of its per-extension
      entries, listed in any order without repetition. */
  lemma TotalsAreSumsOfEntries(p: ProjectStats, keys: seq<string>)
    requires p.Valid()
    requires Distinct(keys) && Elems(keys) == p.FilesByExt.Keys
    ensures FilesOver(p.Recorded, keys) == p.TotalFiles
    ensures StatsOver(p.Recorded, keys) == p.TotalStats
  {
    RowsSumToTotals(p.Recorded, keys);
  }
}
