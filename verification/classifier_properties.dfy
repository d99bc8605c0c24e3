/** What the classification loop guarantees, stated on its specification Run:
    every line is counted once, blank lines are transparent, block comments span
    exactly from their opening to their first closing line, and the hash and
    plain families count what their conventions say. */
module ClassifierProperties {
  import opened Text
  import opened Tables
  import opened Classifier

  /** The number of lines that trim to nothing. */
  function Blanks(lines: seq<string>): (n: nat)
    ensures n <= |lines|
    decreases |lines|
  {
    if lines == [] then 0
    else Blanks(lines[..|lines| - 1]) + (if TrimSpace(lines[|lines| - 1]) == [] then 1 else 0)
  }

  /** The number of lines that, trimmed, start with '#'. */
  function HashLines(lines: seq<string>): (n: nat)
    ensures n <= |lines|
    decreases |lines|
  {
    if lines == [] then 0
    else HashLines(lines[..|lines| - 1]) + (if HasPrefix(TrimSpace(lines[|lines| - 1]), "#") then 1 else 0)
  }

  /** Counts of a run of lines that are all comment lines except the blank ones. */
  function CommentSpan(lines: seq<string>): FileStats {
    FileStats(|lines|, 0, Blanks(lines), |lines| - Blanks(lines))
  }

  const OneBlank := FileStats(1, 0, 1, 0)

  predicate BlockFamily(f: Family) {
    f == CLike || f == Markup
  }

  /** Feeding two runs of lines one after the other is feeding their concatenation. */
  lemma {:induction false} RunAppend(f: Family, s: Scan, a: seq<string>, b: seq<string>)
    ensures Run(f, s, a + b) == Run(f, Run(f, s, a), b)
    decreases |b|
  {
    if b == [] {
      assert a + b == a;
    } else {
      var b' := b[..|b| - 1];
      assert (a + b)[..|a + b| - 1] == a + b';
      RunAppend(f, s, a, b');
    }
  }

  /** Counts already made never influence later lines: starting from larger
      counts only adds them to the result. */
  lemma {:induction false} RunShift(f: Family, base: FileStats, d: FileStats, flag: bool, lines: seq<string>)
    ensures var r := Run(f, Scan(base, flag), lines);
      Run(f, Scan(d.Plus(base), flag), lines) == Scan(d.Plus(r.stats), r.inBlockComment)
    decreases |lines|
  {
    if lines != [] {
      RunShift(f, base, d, flag, lines[..|lines| - 1]);
    }
  }

  /** A line is blank exactly when it trims to nothing, in every family and
      inside or outside a block comment; a blank line leaves the flag alone. */
  lemma BlankLine(f: Family, inBlockComment: bool, raw: string)
    ensures (ClassifyLine(f, inBlockComment, raw).kind == Blank) <==> TrimSpace(raw) == []
    ensures TrimSpace(raw) == [] ==> ClassifyLine(f, inBlockComment, raw).inBlockComment == inBlockComment
  {
  }

  /** The blank count of a file is the number of its lines that trim to nothing. */
  lemma {:induction false} RunBlanks(f: Family, s: Scan, lines: seq<string>)
    ensures Run(f, s, lines).stats.BlankLines == s.stats.BlankLines + Blanks(lines)
    decreases |lines|
  {
    if lines != [] {
      RunBlanks(f, s, lines[..|lines| - 1]);
    }
  }

  /** Inserting a blank line anywhere, even inside a block comment, adds one to
      the total and the blank count and changes nothing else: not the flag, not
      how any later line is classified. */
  lemma BlankLineTransparent(f: Family, s: Scan, a: seq<string>, b: string, c: seq<string>)
    requires TrimSpace(b) == []
    ensures var r := Run(f, s, a + c);
      Run(f, s, a + [b] + c) == Scan(OneBlank.Plus(r.stats), r.inBlockComment)
  {
    var mid := Run(f, s, a);
    RunAppend(f, s, a + [b], c);
    assert (a + [b])[..|a + [b]| - 1] == a;
    assert Run(f, s, a + [b]) == Scan(OneBlank.Plus(mid.stats), mid.inBlockComment);
    RunShift(f, mid.stats, OneBlank, mid.inBlockComment, c);
    RunAppend(f, s, a, c);
  }

  // Outside a block, a C-like line is a comment exactly when it starts with a
  // line-comment token, the block opener or a '*', and it opens a block exactly
  // when it starts with the block opener and does not also hold the closer. This
  // holds for every C-like extension, .go, .sql and .css included.
  lemma CLikeOutsideBlock(raw: string)
    ensures var line := TrimSpace(raw);
      var v := ClassifyLine(CLike, false, raw);
      && (v.kind == Comment <==>
            HasPrefix(line, "//") || HasPrefix(line, "--") || HasPrefix(line, "/*") || HasPrefix(line, "*"))
      && (v.inBlockComment <==> HasPrefix(line, "/*") && !Contains(line, "*/"))
  {
    var line := TrimSpace(raw);
    if HasPrefix(line, "/*") {
      assert line[..2] == "/*";
      assert !HasPrefix(line, "//") && !HasPrefix(line, "--") by {
        assert line[1] == '*';
      }
    }
  }

  /** Inside a block, every non-blank line is a comment, and the block closes
      exactly on a line that contains the closing token. */
  lemma InsideBlockLine(f: Family, raw: string)
    requires BlockFamily(f)
    requires TrimSpace(raw) != []
    ensures ClassifyLine(f, true, raw) == Verdict(Comment, !Contains(TrimSpace(raw), BlockClose(f)))
  {
  }

  /** One line inside a block that does not close it: counted as a comment, or as
      a blank when it trims to nothing, and the block stays open. */
  lemma StepInsideBlock(f: Family, stats: FileStats, raw: string)
    requires BlockFamily(f)
    requires !Contains(TrimSpace(raw), BlockClose(f))
    ensures Step(f, Scan(stats, true), raw) ==
      Scan(Tick(stats, if TrimSpace(raw) == [] then Blank else Comment), true)
  {
  }

  /** No line of `body` contains the closing token of the family's block. */
  predicate NoneCloses(f: Family, body: seq<string>)
    requires BlockFamily(f)
    decreases |body|
  {
    body == [] || (NoneCloses(f, body[..|body| - 1]) && !Contains(TrimSpace(body[|body| - 1]), BlockClose(f)))
  }

  lemma {:induction false} NoneClosesAll(f: Family, body: seq<string>)
    requires BlockFamily(f)
    requires forall k :: 0 <= k < |body| ==> !Contains(TrimSpace(body[k]), BlockClose(f))
    ensures NoneCloses(f, body)
    decreases |body|
  {
    if body != [] {
      var init := body[..|body| - 1];
      assert forall k :: 0 <= k < |init| ==> init[k] == body[k];
      NoneClosesAll(f, init);
    }
  }

  /** Lines none of which contains the closing token keep a block open, and all
      of them but the blank ones are comments. */
  lemma {:induction false} InsideBlock(f: Family, s: Scan, body: seq<string>)
    requires BlockFamily(f) && s.inBlockComment
    requires NoneCloses(f, body)
    ensures Run(f, s, body) == Scan(s.stats.Plus(CommentSpan(body)), true)
    decreases |body|
  {
    if body != [] {
      var init := body[..|body| - 1];
      var last := body[|body| - 1];
      InsideBlock(f, s, init);
      StepInsideBlock(f, Run(f, s, init).stats, last);
    }
  }

  /** Feeding a single line is one Step. */
  lemma RunOne(f: Family, s: Scan, raw: string)
    ensures Run(f, s, [raw]) == Step(f, s, raw)
  {
    assert [raw][..0] == [];
  }

  /** Outside a block, a line that starts with the opening token and lacks the
      closing one is a comment and opens the block. */
  lemma StepOpensBlock(f: Family, stats: FileStats, raw: string)
    requires BlockFamily(f)
    requires HasPrefix(TrimSpace(raw), BlockOpen(f)) && !Contains(TrimSpace(raw), BlockClose(f))
    ensures Step(f, Scan(stats, false), raw) == Scan(Tick(stats, Comment), true)
  {
    if f == CLike {
      CLikeOutsideBlock(raw);
    }
  }

  /** Inside a block, a line that contains the closing token is a comment and
      closes the block. */
  lemma StepClosesBlock(f: Family, stats: FileStats, raw: string)
    requires BlockFamily(f)
    requires Contains(TrimSpace(raw), BlockClose(f))
    ensures Step(f, Scan(stats, true), raw) == Scan(Tick(stats, Comment), false)
  {
    InsideBlockLine(f, raw);
  }

  /** Counts of a block comment spanning `body` plus its opening and closing lines. */
  function BlockSpan(body: seq<string>): FileStats {
    FileStats(|body| + 2, 0, Blanks(body), |body| + 2 - Blanks(body))
  }

  /** A block comment: a line that starts with the opening token and lacks the
      closing one opens it; every following line is a comment (blank ones stay
      blank) up to and including the first line that contains the closing token;
      after that line the flag is clear again. */
  lemma BlockComment(f: Family, s: Scan, open: string, body: seq<string>, close: string)
    requires BlockFamily(f) && !s.inBlockComment
    requires HasPrefix(TrimSpace(open), BlockOpen(f)) && !Contains(TrimSpace(open), BlockClose(f))
    requires forall k :: 0 <= k < |body| ==> !Contains(TrimSpace(body[k]), BlockClose(f))
    requires Contains(TrimSpace(close), BlockClose(f))
    ensures Run(f, s, [open] + body + [close]) == Scan(s.stats.Plus(BlockSpan(body)), false)
  {
    StepOpensBlock(f, s.stats, open);
    StepClosesBlock(f, Tick(s.stats, Comment).Plus(CommentSpan(body)), close);
    NoneClosesAll(f, body);
    BlockRun(f, s, open, body, close);
  }

  lemma BlockRun(f: Family, s: Scan, open: string, body: seq<string>, close: string)
    requires BlockFamily(f) && !s.inBlockComment
    requires Step(f, s, open) == Scan(Tick(s.stats, Comment), true)
    requires NoneCloses(f, body)
    requires Step(f, Scan(Tick(s.stats, Comment).Plus(CommentSpan(body)), true), close) ==
      Scan(Tick(Tick(s.stats, Comment).Plus(CommentSpan(body)), Comment), false)
    ensures Run(f, s, [open] + body + [close]) == Scan(s.stats.Plus(BlockSpan(body)), false)
  {
    var afterOpen := Scan(Tick(s.stats, Comment), true);
    RunOne(f, s, open);
    InsideBlock(f, afterOpen, body);
    RunAppend(f, s, [open], body);
    var inside := afterOpen.stats.Plus(CommentSpan(body));
    RunAppend(f, s, [open] + body, [close]);
    RunOne(f, Scan(inside, true), close);
  }

  /** A line that opens and closes a block comment is one comment line and leaves
      no block open. */
  lemma OneLineBlock(f: Family, s: Scan, raw: string)
    requires BlockFamily(f) && !s.inBlockComment
    requires HasPrefix(TrimSpace(raw), BlockOpen(f)) && Contains(TrimSpace(raw), BlockClose(f))
    ensures Step(f, s, raw) == Scan(Tick(s.stats, Comment), false)
  {
    if f == CLike {
      CLikeOutsideBlock(raw);
    }
  }

  /** No line is both blank and a '#' line, so the two kinds together are at
      most the number of lines. */
  lemma {:induction false} BlanksAndHashLines(lines: seq<string>)
    ensures forall k :: 0 <= k < |lines| ==>
      !(TrimSpace(lines[k]) == [] && HasPrefix(TrimSpace(lines[k]), "#"))
    ensures Blanks(lines) + HashLines(lines) <= |lines|
    decreases |lines|
  {
    if lines != [] {
      BlanksAndHashLines(lines[..|lines| - 1]);
    }
  }

  /** Counts of a hash-family file: comments are the '#' lines, blanks the empty
      ones, and code everything else. */
  function HashCounts(lines: seq<string>): FileStats {
    BlanksAndHashLines(lines);
    FileStats(|lines|, |lines| - Blanks(lines) - HashLines(lines), Blanks(lines), HashLines(lines))
  }

  /** In the hash family a non-blank line is a comment exactly when it starts
      with '#', and the block flag is never touched. */
  lemma {:induction false} RunHash(s: Scan, lines: seq<string>)
    ensures Run(Hash, s, lines) == Scan(s.stats.Plus(HashCounts(lines)), s.inBlockComment)
    decreases |lines|
  {
    if lines != [] {
      RunHash(s, lines[..|lines| - 1]);
    }
  }

  /** The counts of a hash-family file (.py, .sh, .bash, .rb, .yaml, .yml,
      .toml). */
  lemma HashFile(ext: string, lines: seq<string>)
    requires ext in HashExtensions
    ensures Classify(ext, lines) == HashCounts(lines)
  {
    FamilyOfTable(ext);
    RunHash(Start, lines);
  }

  /** Counts of a file without comments: every non-blank line is code. */
  function PlainCounts(lines: seq<string>): FileStats {
    FileStats(|lines|, |lines| - Blanks(lines), Blanks(lines), 0)
  }

  /** In a file outside every comment family no line is ever a comment, and the
      block flag is never touched. */
  lemma {:induction false} RunPlain(s: Scan, lines: seq<string>)
    ensures Run(Plain, s, lines) == Scan(s.stats.Plus(PlainCounts(lines)), s.inBlockComment)
    decreases |lines|
  {
    if lines != [] {
      RunPlain(s, lines[..|lines| - 1]);
    }
  }

  /** The counts of a file whose extension has no comment convention (.json, or
      any extension outside the tables). */
  lemma PlainFile(ext: string, lines: seq<string>)
    requires FamilyOf(ext) == Plain
    ensures Classify(ext, lines) == PlainCounts(lines)
  {
    RunPlain(Start, lines);
  }

  /** A `.py` file with a comment, a blank line and a statement. */
  lemma PythonExample()
    ensures Classify(".py", ["# comment", "", "x = 1"]) == FileStats(3, 1, 1, 1)
  {
    var lines := ["# comment", "", "x = 1"];
    TrimSpaceKeeps("# comment");
    TrimSpaceKeeps("x = 1");
    assert lines[..2][..1] == ["# comment"] && lines[..2] == ["# comment", ""];
    assert Blanks(lines) == 1;
    assert HashLines(lines) == 1;
    HashFile(".py", lines);
  }

  /** A `.go` file whose block comment closes on its second line. */
  lemma GoExample()
    ensures Classify(".go", ["/* start", "still in comment */", "code()"]) == FileStats(3, 1, 0, 2)
  {
    GoExampleOpen();
    GoExampleClose();
    GoExampleCode();
    FamilyOfTable(".go");
    ThreeLineBlock("/* start", "still in comment */", "code()");
  }

  /** A C-like block on two lines followed by a line of code. */
  lemma ThreeLineBlock(first: string, second: string, third: string)
    requires TrimSpace(first) == first && HasPrefix(first, "/*") && !Contains(first, "*/")
    requires TrimSpace(second) == second && Contains(second, "*/")
    requires TrimSpace(third) == third && third != []
    requires !HasPrefix(third, "//") && !HasPrefix(third, "--") && !HasPrefix(third, "/*") && !HasPrefix(third, "*")
    ensures Run(CLike, Start, [first, second, third]) == Scan(FileStats(3, 1, 0, 2), false)
  {
    TwoLineBlock(first, second);
    var afterBlock := Scan(FileStats(2, 0, 0, 2), false);
    RunAppend(CLike, Start, [first, second], [third]);
    assert [first, second] + [third] == [first, second, third];
    RunOne(CLike, afterBlock, third);
    CLikeOutsideBlock(third);
  }

  /** A C-like block opened on one line and closed on the next. */
  lemma TwoLineBlock(first: string, second: string)
    requires TrimSpace(first) == first && HasPrefix(first, "/*") && !Contains(first, "*/")
    requires TrimSpace(second) == second && Contains(second, "*/")
    ensures Run(CLike, Start, [first, second]) == Scan(FileStats(2, 0, 0, 2), false)
  {
    CLikeOpeningLine(first);
    CLikeClosingLine(second);
    RunAppend(CLike, Start, [first], [second]);
    assert [first] + [second] == [first, second];
  }

  /** The first line of a C-like file that opens a block without closing it. */
  lemma CLikeOpeningLine(first: string)
    requires TrimSpace(first) == first && HasPrefix(first, "/*") && !Contains(first, "*/")
    ensures Run(CLike, Start, [first]) == Scan(FileStats(1, 0, 0, 1), true)
  {
    StepOpensBlock(CLike, Zero, first);
    RunOne(CLike, Start, first);
  }

  /** A line that closes the block the first line opened. */
  lemma CLikeClosingLine(second: string)
    requires TrimSpace(second) == second && Contains(second, "*/")
    ensures Run(CLike, Scan(FileStats(1, 0, 0, 1), true), [second]) == Scan(FileStats(2, 0, 0, 2), false)
  {
    StepClosesBlock(CLike, FileStats(1, 0, 0, 1), second);
    RunOne(CLike, Scan(FileStats(1, 0, 0, 1), true), second);
  }

  /** The first line of GoExample opens a C-like block and does not close it. */
  lemma GoExampleOpen()
    ensures TrimSpace("/* start") == "/* start" && HasPrefix("/* start", "/*")
    ensures !Contains("/* start", "*/")
  {
    var first := "/* start";
    TrimSpaceKeeps(first);
    NoPairNoContains(first, '*', '/');
  }

  /** The second line of GoExample closes the block. */
  lemma GoExampleClose()
    ensures TrimSpace("still in comment */") == "still in comment */"
    ensures Contains("still in comment */", "*/")
  {
    var second := "still in comment */";
    TrimSpaceKeeps(second);
    assert HasPrefix(second[17..], "*/");
    ContainsAt(second, "*/", 17);
  }

  /** The third line of GoExample is code. */
  lemma GoExampleCode()
    ensures TrimSpace("code()") == "code()" && "code()" != []
    ensures !HasPrefix("code()", "//") && !HasPrefix("code()", "--")
    ensures !HasPrefix("code()", "/*") && !HasPrefix("code()", "*")
  {
    TrimSpaceKeeps("code()");
  }
}
