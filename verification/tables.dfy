/** The line counter's fixed, compiled-in tables: the extensions it counts, the
    directory names it never descends into, and the comment convention each
    extension follows. */
module Tables {
  import opened Text

  /** Extensions (lower-cased, with the leading '.') of the files that are counted. */
  const CodeExtensions: set<string> := {
    ".go", ".js", ".ts", ".jsx", ".tsx", ".java", ".c", ".cpp", ".cc", ".h",
    ".hpp", ".cs", ".php", ".rb", ".py", ".rs", ".swift", ".kt", ".scala",
    ".sql", ".html", ".css", ".scss", ".json", ".yaml", ".yml", ".toml",
    ".xml", ".sh", ".bash"
  }

  /** Directory names whose whole subtree is skipped. */
  const IgnoreDirs: set<string> := {
    ".git", ".svn", "node_modules", "vendor", "build", "dist", "target", "bin",
    "obj", ".idea", ".vscode", "coverage", ".next", "__pycache__"
  }

  /** The comment conventions the classifier knows. */
  datatype Family =
    | CLike   // `//` and `--` line comments, `/* ... */` blocks, `*` continuation lines
    | Hash    // `#` line comments
    | Markup  // `<!-- ... -->` blocks
    | Plain   // no comments at all

  const CLikeExtensions: set<string> := {
    ".go", ".js", ".ts", ".jsx", ".tsx", ".java", ".c", ".cpp", ".cc", ".h",
    ".hpp", ".cs", ".php", ".rs", ".swift", ".kt", ".scala", ".css", ".scss", ".sql"
  }
  const HashExtensions: set<string> := {".py", ".sh", ".bash", ".rb", ".yaml", ".yml", ".toml"}
  const MarkupExtensions: set<string> := {".html", ".xml"}

  /** The case of the classifier's switch that an extension selects. */
  function FamilyOf(ext: string): Family {
    if ext in CLikeExtensions then CLike
    else if ext in HashExtensions then Hash
    else if ext in MarkupExtensions then Markup
    else Plain
  }

  /** Every extension with a comment convention is a counted one, and ".json" is
      the only counted extension without one. */
  lemma FamiliesCoverCodeExtensions()
    ensures CLikeExtensions + HashExtensions + MarkupExtensions + {".json"} == CodeExtensions
    ensures forall ext :: ext in CodeExtensions && FamilyOf(ext) == Plain <==> ext == ".json"
  {
    CommentTablesCounted();
    CountedHaveFamilies();
    forall ext
      ensures ext in CodeExtensions && FamilyOf(ext) == Plain <==> ext == ".json"
    {
      FamilyOfTable(ext);
    }
  }

  lemma CommentTablesCounted()
    ensures CLikeExtensions <= CodeExtensions
    ensures HashExtensions <= CodeExtensions
    ensures MarkupExtensions <= CodeExtensions
  {
  }

  lemma CountedHaveFamilies()
    ensures CodeExtensions <= CLikeExtensions + HashExtensions + MarkupExtensions + {".json"}
    ensures ".json" !in CLikeExtensions + HashExtensions + MarkupExtensions
  {
  }

  /** The three comment tables are disjoint, so each of their extensions selects
      its own family, and every other extension is plain. */
  lemma FamilyOfTable(ext: string)
    ensures ext in CLikeExtensions <==> FamilyOf(ext) == CLike
    ensures ext in HashExtensions <==> FamilyOf(ext) == Hash
    ensures ext in MarkupExtensions <==> FamilyOf(ext) == Markup
  {
  }

  /** A hidden name: it starts with '.' and is neither "." nor "..". */
  predicate IsHidden(name: string) {
    name != "." && name != ".." && HasPrefix(name, ".")
  }

  /** shouldIgnoreDir: the directory is listed in IgnoreDirs or hidden. "." and ".."
      are never skipped, so the default root "." is always walked. */
  function ShouldIgnoreDir(name: string): (r: bool)
    ensures r ==> name != "." && name != ".."
    ensures name in IgnoreDirs ==> r
    ensures IsHidden(name) ==> r
    ensures r ==> name in IgnoreDirs || HasPrefix(name, ".")
  {
    name in IgnoreDirs || IsHidden(name)
  }

  /** The listed names that start with '.' are redundant: the hidden rule already
      covers them, so only nine names are skipped for being listed. */
  lemma IgnoreDirsByName(name: string)
    ensures ShouldIgnoreDir(name) <==>
      name in {"node_modules", "vendor", "build", "dist", "target", "bin", "obj", "coverage", "__pycache__"}
      || IsHidden(name)
  {
    if name in IgnoreDirs && !(name in {"node_modules", "vendor", "build", "dist", "target", "bin", "obj", "coverage", "__pycache__"}) {
      assert name in {".git", ".svn", ".idea", ".vscode", ".next"};
      assert IsHidden(name);
    }
  }
}
