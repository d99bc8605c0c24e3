/** The command: the project path comes from the first argument (default "."),
    the tree found there is walked, and either the report is printed or, when
    the walk failed, the error is printed and the process exits with status 1. */
module Program {
  import opened Text
  import opened Classifier
  import opened Aggregate
  import opened Walk
  import opened Report

  /** How a run of the command ends: the report it printed, or the exit status. */
  datatype Ending = Printed(rows: seq<Row>, total: Row) | Exited(status: int)

  /** The path the command counts: the first argument after the program name,
      or the current directory. */
  function ProjectPath(args: seq<string>): string {
    if |args| > 1 then args[1] else "."
  }

  /** main, for the tree `root` found at the project path: a failed walk ends
      with status 1 and prints no report; otherwise the report of the files the
      walk recorded is printed: one row per extension, sorted by extension,
      each with that extension's counts, adding up to the TOTAL row. */
  method CountAndPrint(args: seq<string>, root: Node) returns (ending: Ending)
    ensures ending.Exited? <==> WalkTree(ProjectPath(args), root).status == Failed
    ensures ending.Exited? ==> ending.status == 1
    ensures ending.Printed? ==>
      && SumFiles(ending.rows) == ending.total.files == |WalkTree(ProjectPath(args), root).items|
      && SumStats(ending.rows) == ending.total.stats == TotalOf(WalkTree(ProjectPath(args), root).items)
    ensures ending.Printed? ==>
      var items := WalkTree(ProjectPath(args), root).items;
      && StrictlySorted(Names(ending.rows))
      && Elems(Names(ending.rows)) == ExtsOf(items)
      && (forall i :: 0 <= i < |ending.rows| ==>
            var e := ending.rows[i].name;
            ending.rows[i] == Row(e, FilesOf(items, e), StatsOf(items, e)))
  {
    var projectPath := ProjectPath(args);
    var stats, failed := CountProjectLines(projectPath, root);
    if failed {
      return Exited(1);
    }
    var rows, total := PrintResults(stats);
    return Printed(rows, total);
  }
}
