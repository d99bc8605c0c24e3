/** The per-file line classifier: every line of a file is trimmed and counted as
    blank, comment or code, with one "inside a block comment" flag carried from
    line to line. The pure functions below give the meaning of one pass;
    CountLinesInFile is the loop itself, proved to compute that meaning. */
module Classifier {
  import opened Text
  import opened Tables

  /** The counts of one file, or of several added up. */
  datatype FileStats = FileStats(TotalLines: nat, CodeLines: nat, BlankLines: nat, CommentLines: nat)
  {
    /** Every line is exactly one of blank, comment or code. */
    predicate Balanced() {
      TotalLines == CodeLines + BlankLines + CommentLines
    }

    /** Element-wise sum, as the aggregator adds a file into a running total. */
    function Plus(other: FileStats): FileStats {
      FileStats(TotalLines + other.TotalLines, CodeLines + other.CodeLines,
                BlankLines + other.BlankLines, CommentLines + other.CommentLines)
    }
  }

  const Zero := FileStats(0, 0, 0, 0)

  /** Adding counts is associative and has Zero as its unit. */
  lemma PlusAssociative(x: FileStats, y: FileStats, z: FileStats)
    ensures x.Plus(y).Plus(z) == x.Plus(y.Plus(z))
  {
  }

  lemma PlusZero(x: FileStats)
    ensures x.Plus(Zero) == x && Zero.Plus(x) == x
  {
  }

  datatype LineKind = Blank | Comment | Code

  /** What one line is, and the block-comment flag after it. */
  datatype Verdict = Verdict(kind: LineKind, inBlockComment: bool)

  /** The state carried across lines: the counts so far and the flag. */
  datatype Scan = Scan(stats: FileStats, inBlockComment: bool)

  /** The state at the start of every file: nothing counted, no open block. */
  const Start := Scan(Zero, false)

  /** What a file read yields: all of its lines, nothing (it could not be opened),
      or the lines read before the scanner failed. */
  datatype Content =
    | Lines(lines: seq<string>)
    | OpenFailed
    | ScanFailed(lines: seq<string>)

  /** Tokens that open and close a block comment in the two block families. */
  function BlockOpen(f: Family): string
    requires f == CLike || f == Markup
  {
    if f == CLike then "/*" else "<!--"
  }

  function BlockClose(f: Family): string
    requires f == CLike || f == Markup
  {
    if f == CLike then "*/" else "-->"
  }

  /** One iteration of the classification loop on one raw line. */
  function ClassifyLine(f: Family, inBlockComment: bool, raw: string): Verdict {
    ClassifyTrimmed(f, inBlockComment, TrimSpace(raw))
  }

  /** The switch of the classification loop on a line already trimmed. */
  function ClassifyTrimmed(f: Family, inBlockComment: bool, line: string): Verdict {
    if line == [] then Verdict(Blank, inBlockComment)
    else match f
      case CLike =>
        if inBlockComment then
          Verdict(Comment, if Contains(line, "*/") then false else inBlockComment)
        else if HasPrefix(line, "//") || HasPrefix(line, "--") then
          Verdict(Comment, inBlockComment)
        else if HasPrefix(line, "/*") then
          Verdict(Comment, if !Contains(line, "*/") then true else inBlockComment)
        else if HasPrefix(line, "*") then
          Verdict(Comment, inBlockComment)
        else
          Verdict(Code, inBlockComment)
      case Hash =>
        if HasPrefix(line, "#") then Verdict(Comment, inBlockComment) else Verdict(Code, inBlockComment)
      case Markup =>
        if inBlockComment then
          Verdict(Comment, if Contains(line, "-->") then false else inBlockComment)
        else if HasPrefix(line, "<!--") then
          Verdict(Comment, if !Contains(line, "-->") then true else inBlockComment)
        else
          Verdict(Code, inBlockComment)
      case Plain =>
        Verdict(Code, inBlockComment)
  }

  /** Counts one more line of the given kind. */
  function Tick(s: FileStats, kind: LineKind): (r: FileStats)
    ensures s.Balanced() ==> r.Balanced()
    ensures r.TotalLines == s.TotalLines + 1
  {
    match kind
    case Blank => s.(TotalLines := s.TotalLines + 1, BlankLines := s.BlankLines + 1)
    case Comment => s.(TotalLines := s.TotalLines + 1, CommentLines := s.CommentLines + 1)
    case Code => s.(TotalLines := s.TotalLines + 1, CodeLines := s.CodeLines + 1)
  }

  function Step(f: Family, s: Scan, raw: string): Scan {
    var v := ClassifyLine(f, s.inBlockComment, raw);
    Scan(Tick(s.stats, v.kind), v.inBlockComment)
  }

  /** The state after feeding `lines`, in order, to the loop started in state `s`. */
  function Run(f: Family, s: Scan, lines: seq<string>): Scan
    decreases |lines|
  {
    if lines == [] then s
    else Step(f, Run(f, s, lines[..|lines| - 1]), lines[|lines| - 1])
  }

  /** Every line fed to the loop is counted once in the total and once in exactly
      one of the blank, comment and code counts. */
  lemma {:induction false} RunCounts(f: Family, s: Scan, lines: seq<string>)
    ensures Run(f, s, lines).stats.TotalLines == s.stats.TotalLines + |lines|
    ensures s.stats.Balanced() ==> Run(f, s, lines).stats.Balanced()
    decreases |lines|
  {
    if lines != [] {
      RunCounts(f, s, lines[..|lines| - 1]);
    }
  }

  /** Feeding one more line is one more Step. */
  lemma RunSnoc(f: Family, s: Scan, lines: seq<string>, i: nat)
    requires i < |lines|
    ensures Run(f, s, lines[..i + 1]) == Step(f, Run(f, s, lines[..i]), lines[i])
  {
    assert lines[..i + 1][..i] == lines[..i];
  }

  /** countLinesInFile on a file that reads fully: the counts for its lines, under
      the family its extension selects. */
  function Classify(ext: string, lines: seq<string>): (stats: FileStats)
    ensures stats.Balanced()
    ensures stats.TotalLines == |lines|
  {
    RunCounts(FamilyOf(ext), Start, lines);
    Run(FamilyOf(ext), Start, lines).stats
  }

  /** One pass of the loop body of countLinesInFile: counts the line `raw` and
      updates the block-comment flag, exactly as one Step of the specification. */
  method CountLine(family: Family, stats0: FileStats, inBlockComment0: bool, raw: string)
    returns (stats: FileStats, inBlockComment: bool)
    ensures Scan(stats, inBlockComment) == Step(family, Scan(stats0, inBlockComment0), raw)
  {
    stats, inBlockComment := stats0, inBlockComment0;
    var line := TrimSpace(raw);
    stats := stats.(TotalLines := stats.TotalLines + 1);

    if line == "" {
      stats := stats.(BlankLines := stats.BlankLines + 1);
      return;
    }

    match family {
    case CLike =>
      if inBlockComment {
        stats := stats.(CommentLines := stats.CommentLines + 1);
        if Contains(line, "*/") {
          inBlockComment := false;
        }
        return;
      }
      if HasPrefix(line, "//") || HasPrefix(line, "--") {
        stats := stats.(CommentLines := stats.CommentLines + 1);
        return;
      }
      if HasPrefix(line, "/*") {
        stats := stats.(CommentLines := stats.CommentLines + 1);
        if !Contains(line, "*/") {
          inBlockComment := true;
        }
        return;
      }
      if HasPrefix(line, "*") {
        stats := stats.(CommentLines := stats.CommentLines + 1);
        return;
      }
    case Hash =>
      if HasPrefix(line, "#") {
        stats := stats.(CommentLines := stats.CommentLines + 1);
        return;
      }
    case Markup =>
      if inBlockComment {
        stats := stats.(CommentLines := stats.CommentLines + 1);
        if Contains(line, "-->") {
          inBlockComment := false;
        }
        return;
      }
      if HasPrefix(line, "<!--") {
        stats := stats.(CommentLines := stats.CommentLines + 1);
        if !Contains(line, "-->") {
          inBlockComment := true;
        }
        return;
      }
    case Plain =>
      // every non-blank line is code
    }

    stats := stats.(CodeLines := stats.CodeLines + 1);
  }

  /** The loop of countLinesInFile over the lines of one file, for the comment
      family its extension selects: the counts are those of the specification
      function Run, so every line is counted once and only once more. */
  method CountLines(family: Family, lines: seq<string>) returns (stats: FileStats)
    ensures Run(family, Start, lines).stats == stats
  {
    stats := Zero;
    var inBlockComment := false;
    var i := 0;
    while i < |lines|
      invariant 0 <= i <= |lines|
      invariant Run(family, Start, lines[..i]) == Scan(stats, inBlockComment)
    {
      RunSnoc(family, Start, lines, i);
      stats, inBlockComment := CountLine(family, stats, inBlockComment, lines[i]);
      i := i + 1;
    }
    assert lines[..|lines|] == lines;
  }

  /** countLinesInFile: a file that cannot be opened yields zero counts and an
      error; otherwise the lines the scanner yields are classified under the
      family of the file's lower-cased extension, and a scanner failure is
      reported as an error after the lines read before it. */
  method CountLinesInFile(path: string, content: Content) returns (stats: FileStats, failed: bool)
    ensures failed <==> !content.Lines?
    ensures content.OpenFailed? ==> stats == Zero
    ensures !content.OpenFailed? ==> stats == Classify(ToLower(Ext(path)), content.lines)
    ensures stats.Balanced()
    ensures content.Lines? ==> stats.TotalLines == |content.lines|
  {
    if content.OpenFailed? {
      return Zero, true;
    }
    var ext := ToLower(Ext(path));
    stats := CountLines(FamilyOf(ext), content.lines);
    failed := content.ScanFailed?;
  }
}
