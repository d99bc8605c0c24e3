/** The project walk: filepath.Walk over the directory tree rooted at the given
    path, with the callback of countProjectLines. A directory tree is a value;
    the walk visits it depth first, children in the order given, lets the callback
    skip ignored directories, and stops at the first error. */
module Walk {
  import opened Text
  import opened Tables
  import opened Classifier
  import opened Aggregate

  /** A node of the tree as the walk finds it. `Inaccessible` is a node whose
      metadata or directory listing cannot be read: the walk passes the error to
      the callback instead of the node. */
  datatype Node =
    | File(name: string, content: Content)
    | Dir(name: string, children: seq<Node>)
    | Inaccessible(name: string)

  /** What the callback is handed for one path: a directory (by its name), a
      regular file (with what reading it yields), or an error. */
  datatype Entry = DirEntry(name: string) | FileEntry(content: Content) | ErrEntry

  /** What the callback returns: nil, filepath.SkipDir, or the error it was
      handed. */
  datatype Outcome = Continue | SkipDir | Abort

  /** How the walk of a subtree ended: normally, by skipping it, or with an
      error that ends the whole walk. */
  datatype Status = Completed | Skipped | Failed

  /** The files a subtree contributes, in visiting order, and how its walk ended. */
  datatype Trace = Trace(items: seq<Tally>, status: Status)

  /** filepath.Join of a directory path and a child name. */
  function Join(dir: string, name: string): string {
    dir + "/" + name
  }

  /** What the callback records for a file at `path`: one tally when the file's
      extension is a code extension and it reads fully, nothing otherwise. */
  function Contribution(path: string, content: Content): (items: seq<Tally>)
    ensures |items| <= 1
    ensures items != [] <==> ToLower(Ext(path)) in CodeExtensions && content.Lines?
  {
    var ext := ToLower(Ext(path));
    if ext !in CodeExtensions || !content.Lines? then []
    else [Tally(ext, Classify(ext, content.lines))]
  }

  /** The walk of the subtree `node` found at `path`. */
  function WalkTree(path: string, node: Node): Trace
    decreases node
  {
    match node
    case Inaccessible(_) => Trace([], Failed)
    case File(_, content) => Trace(Contribution(path, content), Completed)
    case Dir(name, children) =>
      if ShouldIgnoreDir(name) then Trace([], Skipped) else WalkChildren(path, children)
  }

  /** The walk of the children of the directory at `path`, in order, up to the
      first one whose walk fails; a skipped child does not stop its siblings. */
  function WalkChildren(path: string, children: seq<Node>): Trace
    decreases children
  {
    if children == [] then Trace([], Completed)
    else
      var before := WalkChildren(path, children[..|children| - 1]);
      if before.status == Failed then before
      else
        var last := children[|children| - 1];
        var t := WalkTree(Join(path, last.name), last);
        Trace(before.items + t.items, if t.status == Failed then Failed else Completed)
  }

  /** The callback of countProjectLines for one path. An error ends the walk;
      a directory is skipped when its name is ignored; a regular file is handed
      to VisitFile. Only a file can change the aggregate. */
  method Visit(stats: ProjectStats, path: string, entry: Entry) returns (r: Outcome)
    requires stats.Valid()
    modifies stats
    ensures stats.Valid()
    ensures entry.ErrEntry? ==> r == Abort
    ensures entry.DirEntry? ==> r == (if ShouldIgnoreDir(entry.name) then SkipDir else Continue)
    ensures entry.FileEntry? ==> r == Continue
    ensures !entry.FileEntry? ==> unchanged(stats)
    ensures entry.FileEntry? ==> stats.Recorded == old(stats.Recorded) + Contribution(path, entry.content)
  {
    match entry {
    case ErrEntry =>
      return Abort;
    case DirEntry(name) =>
      if ShouldIgnoreDir(name) {
        return SkipDir;
      }
      return Continue;
    case FileEntry(content) =>
      VisitFile(stats, path, content);
      return Continue;
    }
  }

  /** The callback on a regular file: a file with a code extension is counted
      and recorded, unless reading it fails (then a warning is printed and the
      walk goes on); any other file changes nothing. */
  method VisitFile(stats: ProjectStats, path: string, content: Content)
    requires stats.Valid()
    modifies stats
    ensures stats.Valid()
    ensures stats.Recorded == old(stats.Recorded) + Contribution(path, content)
    ensures Contribution(path, content) == [] ==> unchanged(stats)
  {
    var ext := ToLower(Ext(path));
    if ext !in CodeExtensions {
      return;
    }
    CountCodeFile(stats, path, ext, content);
  }

  /** The callback on a file with a code extension: its lines are counted and
      recorded when the file reads fully; a read failure changes nothing. */
  method CountCodeFile(stats: ProjectStats, path: string, ext: string, content: Content)
    requires stats.Valid()
    requires ext == ToLower(Ext(path)) && ext in CodeExtensions
    modifies stats
    ensures stats.Valid()
    ensures stats.Recorded == old(stats.Recorded) + Contribution(path, content)
    ensures !content.Lines? ==> unchanged(stats)
  {
    var fileStats, failed := CountLinesInFile(path, content);
    if failed {
      // the warning is printed here
      return;
    }
    stats.Record(ext, fileStats);
  }

  /** filepath.Walk's recursive walk of the subtree `node` at `path`: records
      exactly the files the specification WalkTree lists and ends as it says. */
  method WalkNode(stats: ProjectStats, path: string, node: Node) returns (status: Status)
    requires stats.Valid()
    modifies stats
    ensures stats.Valid()
    ensures stats.Recorded == old(stats.Recorded) + WalkTree(path, node).items
    ensures status == WalkTree(path, node).status
    decreases node, 1
  {
    match node {
    case Inaccessible(_) =>
      var _ := Visit(stats, path, ErrEntry);
      return Failed;
    case File(_, content) =>
      var _ := Visit(stats, path, FileEntry(content));
      return Completed;
    case Dir(name, children) =>
      var r := Visit(stats, path, DirEntry(name));
      if r == SkipDir {
        return Skipped;
      }
      status := WalkDir(stats, path, children);
    }
  }

  /** filepath.Walk's walk of the children of a directory that was not skipped:
      each child is walked in turn and the first failure ends the walk. The
      children are taken from the back so that the walk of all but the last
      child is the same walk, done first. */
  method WalkDir(stats: ProjectStats, path: string, children: seq<Node>) returns (status: Status)
    requires stats.Valid()
    modifies stats
    ensures stats.Valid()
    ensures stats.Recorded == old(stats.Recorded) + WalkChildren(path, children).items
    ensures status == WalkChildren(path, children).status
    decreases children, 0
  {
    if children == [] {
      return Completed;
    }
    var init := children[..|children| - 1];
    var last := children[|children| - 1];
    ghost var start := stats.Recorded;
    status := WalkDir(stats, path, init);
    if status == Failed {
      return;
    }
    var lastStatus := WalkNode(stats, Join(path, last.name), last);
    WalkChildrenLast(path, children);
    AppendAssociative(start, WalkChildren(path, init).items, WalkTree(Join(path, last.name), last).items);
    status := if lastStatus == Failed then Failed else Completed;
  }

  /** The walk of a non-empty list of children that gets past all but the last
      child goes on with the walk of the last one. */
  lemma WalkChildrenLast(path: string, children: seq<Node>)
    requires children != []
    requires WalkChildren(path, children[..|children| - 1]).status != Failed
    ensures WalkChildren(path, children).items ==
      WalkChildren(path, children[..|children| - 1]).items
        + WalkTree(Join(path, children[|children| - 1].name), children[|children| - 1]).items
  {
  }

  /** Regrouping a concatenation, stated apart so that the proof of WalkDir does
      not have to look into the walk's definitions to find it. */
  lemma AppendAssociative(a: seq<Tally>, b: seq<Tally>, c: seq<Tally>)
    ensures a + (b + c) == (a + b) + c
  {
  }

  /** countProjectLines: walks the tree from the root, starting from an empty
      aggregate. The result is an error exactly when some node of the walked part
      of the tree could not be read; a skipped root is not an error. */
  method CountProjectLines(rootPath: string, root: Node) returns (stats: ProjectStats, failed: bool)
    ensures stats.Valid()
    ensures stats.Recorded == WalkTree(rootPath, root).items
    ensures failed <==> WalkTree(rootPath, root).status == Failed
  {
    stats := new ProjectStats();
    var status := WalkNode(stats, rootPath, root);
    failed := status == Failed;
  }
}
