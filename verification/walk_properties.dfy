/** What the walk records, stated against an independent description of the
    tree: the files outside ignored directories, in depth-first order, and
    whether any node on the way cannot be read. */
module WalkProperties {
  import opened Text
  import opened Tables
  import opened Classifier
  import opened Aggregate
  import opened Walk

  /** A regular file handed to the callback, with the path it was found at. */
  datatype FileAt = FileAt(path: string, content: Content)

  /** The regular files of the subtree `node` at `path` that lie outside every
      ignored directory, depth first, children in order. */
  function Files(path: string, node: Node): seq<FileAt>
    decreases node
  {
    match node
    case Inaccessible(_) => []
    case File(_, content) => [FileAt(path, content)]
    case Dir(name, children) => if ShouldIgnoreDir(name) then [] else FilesIn(path, children)
  }

  function FilesIn(path: string, children: seq<Node>): seq<FileAt>
    decreases children
  {
    if children == [] then []
    else
      var last := children[|children| - 1];
      FilesIn(path, children[..|children| - 1]) + Files(Join(path, last.name), last)
  }

  /** No node of the subtree that the walk reaches is unreadable. */
  predicate Readable(node: Node)
    decreases node
  {
    match node
    case Inaccessible(_) => false
    case File(_, _) => true
    case Dir(name, children) => ShouldIgnoreDir(name) || AllReadable(children)
  }

  predicate AllReadable(children: seq<Node>)
    decreases children
  {
    children == [] || (AllReadable(children[..|children| - 1]) && Readable(children[|children| - 1]))
  }

  /** What the callback records for a list of files, in order. */
  function Tallies(files: seq<FileAt>): seq<Tally>
    decreases |files|
  {
    if files == [] then []
    else
      var last := files[|files| - 1];
      Tallies(files[..|files| - 1]) + Contribution(last.path, last.content)
  }

  lemma {:induction false} TalliesAppend(a: seq<FileAt>, b: seq<FileAt>)
    ensures Tallies(a + b) == Tallies(a) + Tallies(b)
    decreases |b|
  {
    if b == [] {
      assert a + b == a;
    } else {
      var init := b[..|b| - 1];
      var last := b[|b| - 1];
      assert (a + b)[..|a + b| - 1] == a + init;
      assert (a + b)[|a + b| - 1] == last;
      TalliesAppend(a, init);
      calc {
        Tallies(a + b);
        Tallies(a + init) + Contribution(last.path, last.content);
        Tallies(a) + (Tallies(init) + Contribution(last.path, last.content));
      }
    }
  }

  /** The walk of a subtree fails exactly when some node it reaches cannot be
      read, and a subtree is skipped exactly when it is an ignored directory. */
  lemma {:induction false} WalkFailsIffUnreadable(path: string, node: Node)
    ensures WalkTree(path, node).status == Failed <==> !Readable(node)
    ensures WalkTree(path, node).status == Skipped <==> node.Dir? && ShouldIgnoreDir(node.name)
    decreases node, 0
  {
    match node
    case Inaccessible(_) =>
    case File(_, _) =>
    case Dir(name, children) =>
      if !ShouldIgnoreDir(name) {
        WalkChildrenFailsIffUnreadable(path, children);
      }
  }

  lemma {:induction false} WalkChildrenFailsIffUnreadable(path: string, children: seq<Node>)
    ensures WalkChildren(path, children).status == Failed <==> !AllReadable(children)
    ensures WalkChildren(path, children).status != Skipped
    decreases children, 1
  {
    if children != [] {
      var last := children[|children| - 1];
      WalkChildrenFailsIffUnreadable(path, children[..|children| - 1]);
      WalkFailsIffUnreadable(Join(path, last.name), last);
    }
  }

  /** When every node it reaches can be read, the walk records exactly the
      contributions of the files outside ignored directories, in depth-first
      order. */
  lemma {:induction false} WalkRecordsEveryFile(path: string, node: Node)
    requires Readable(node)
    ensures WalkTree(path, node).items == Tallies(Files(path, node))
    decreases node, 0
  {
    match node
    case File(_, content) =>
      assert Files(path, node) == [FileAt(path, content)];
      assert Tallies(Files(path, node)) == Tallies([]) + Contribution(path, content);
    case Dir(name, children) =>
      if !ShouldIgnoreDir(name) {
        WalkChildrenRecordsEveryFile(path, children);
      }
  }

  lemma {:induction false} WalkChildrenRecordsEveryFile(path: string, children: seq<Node>)
    requires AllReadable(children)
    ensures WalkChildren(path, children).items == Tallies(FilesIn(path, children))
    decreases children, 1
  {
    if children != [] {
      var init := children[..|children| - 1];
      var last := children[|children| - 1];
      var child := Join(path, last.name);
      WalkChildrenRecordsEveryFile(path, init);
      WalkChildrenFailsIffUnreadable(path, init);
      WalkRecordsEveryFile(child, last);
      TalliesAppend(FilesIn(path, init), Files(child, last));
    }
  }

  /** Every recorded file has a counted extension and balanced counts. */
  predicate Counted(items: seq<Tally>) {
    forall k :: 0 <= k < |items| ==> items[k].ext in CodeExtensions && items[k].stats.Balanced()
  }

  lemma CountedAppend(a: seq<Tally>, b: seq<Tally>)
    requires Counted(a) && Counted(b)
    ensures Counted(a + b)
  {
    assert forall k :: |a| <= k < |a + b| ==> (a + b)[k] == b[k - |a|];
  }

  /** The walk only ever records files with a counted extension, each with
      balanced counts (total = code + blank + comment). */
  lemma {:induction false} WalkRecordsCounted(path: string, node: Node)
    ensures Counted(WalkTree(path, node).items)
    decreases node, 0
  {
    match node
    case Inaccessible(_) =>
    case File(_, content) =>
    case Dir(name, children) =>
      if !ShouldIgnoreDir(name) {
        WalkChildrenRecordsCounted(path, children);
      }
  }

  lemma {:induction false} WalkChildrenRecordsCounted(path: string, children: seq<Node>)
    ensures Counted(WalkChildren(path, children).items)
    decreases children, 1
  {
    if children != [] {
      var init := children[..|children| - 1];
      var last := children[|children| - 1];
      WalkChildrenRecordsCounted(path, init);
      WalkRecordsCounted(Join(path, last.name), last);
      CountedAppend(WalkChildren(path, init).items, WalkTree(Join(path, last.name), last).items);
    }
  }

  /** Recorded files with counted extensions only ever add counted keys. */
  lemma CountedExts(items: seq<Tally>)
    requires Counted(items)
    ensures ExtsOf(items) <= CodeExtensions
  {
    forall e | e in ExtsOf(items)
      ensures e in CodeExtensions
    {
      ExtsOfMembers(items, e);
      var t :| t in items && t.ext == e;
      var k :| 0 <= k < |items| && items[k] == t;
    }
  }

  /** After countProjectLines, the project totals and the counts of every
      extension are balanced, and only counted extensions appear as keys. */
  lemma ProjectCountsBalanced(rootPath: string, root: Node, stats: ProjectStats, ext: string)
    requires stats.Valid() && stats.Recorded == WalkTree(rootPath, root).items
    ensures stats.TotalStats.Balanced()
    ensures ext in stats.StatsByExt ==> stats.StatsByExt[ext].Balanced()
    ensures stats.FilesByExt.Keys <= CodeExtensions
  {
    WalkRecordsCounted(rootPath, root);
    SummariesBalanced(stats.Recorded, ext);
    CountedExts(stats.Recorded);
  }

  /** The extension that decides whether a file is counted is that of its own
      name: the directories above it play no part. */
  lemma ContributionByName(dir: string, name: string, content: Content)
    requires '/' !in name
    ensures Contribution(Join(dir, name), content) == Contribution(name, content)
  {
    ExtOfChild(dir, name);
  }
}
