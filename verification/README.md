# line-counter, modelled in Dafny

`line-counter` is a small Go command (`main.go`). It walks a directory tree and skips
ignored and hidden directories. It counts every file whose lower-cased extension is
in a fixed table. Each counted line is classified as blank, comment or code under the
comment convention of the file's extension. The counts are added up per extension and
in total. The command prints a breakdown sorted by extension, followed by a TOTAL row.

The model follows the program's structure:

| file | module | what it holds |
|---|---|---|
| `text.dfy` | `Text` | `strings.TrimSpace`, `strings.HasPrefix`, `strings.Contains`, `strings.ToLower`, `filepath.Ext`, and the byte order `sort.Strings` uses, each with its properties |
| `tables.dfy` | `Tables` | `CodeExtensions`, `IgnoreDirs`, the four comment families of the classifier's switch, `shouldIgnoreDir` |
| `classifier.dfy` | `Classifier` | `FileStats`; the specification of one pass of the classification loop (`ClassifyLine`, `Step`, `Run`, `Classify`); the loop itself as the methods `CountLine`, `CountLines` and `CountLinesInFile`, proved to compute `Run` |
| `classifier_properties.dfy` | `ClassifierProperties` | what the classifier promises: blank lines, block comments, hash and plain files, two worked examples |
| `aggregate.dfy` | `Aggregate` | `ProjectStats` as a class whose maps and totals are updated in place by `Record`. A ghost history `Recorded` lists the files counted so far. `Valid` ties every field to a function of that history. This gives the sum invariants and order independence. |
| `walk.dfy` | `Walk` | the directory tree as a value; `filepath.Walk` with the callback of `countProjectLines` (`Visit`, `VisitFile`, `WalkNode`, `WalkDir`), proved against the specification functions `WalkTree`/`WalkChildren` |
| `walk_properties.dfy` | `WalkProperties` | the walk compared with an independent listing of the files outside ignored directories |
| `report.dfy` | `Report` | `printResults`: collecting the keys, sorting them, the rows and the TOTAL row |
| `program.dfy` | `Program` | `main`: the project path argument, exit status 1 on a failed walk, the report otherwise |

Strings are `seq<char>`, and the walk's tree, the lines of a file and a failed read
are inputs. A file read yields one of three `Content` values:
- `Lines` — all of its lines;
- `OpenFailed` — it could not be opened;
- `ScanFailed` — the lines read before the scanner failed.

Three behaviours of the code are easy to miss; the model follows the code:
- The callback returns the error it is handed. Any unreadable node the walk reaches
  therefore ends the whole walk with an error, not only an unreadable root
  (`main.go:107-109`). This holds even for a directory whose name is ignored,
  because `filepath.Walk` reports a failed directory listing with the directory itself.
- The root directory goes through `shouldIgnoreDir` like any other directory. A root
  named `vendor`, for example, is skipped, and the walk ends without error and with
  nothing counted.
- A scanner failure in the middle of a file (for example a line longer than the
  scanner's token limit) is a read failure. The file contributes nothing, even though
  some of its lines were already classified.

## Model

| member | source | states |
|---|---|---|
| Text.TrimSpace | main.go:176 | `strings.TrimSpace`: drops the white space at the start of the line, then the white space at its end. |
| Text.TrimSpaceSpec | main.go:176 | A line trims to nothing exactly when all its characters are white space. A trimmed non-empty line starts and ends with a non-space. The trimmed line is a contiguous slice of the raw line, and every character dropped before it and after it is white space. |
| Text.TrimSpaceKeeps | main.go:176 | A line without surrounding white space is its own trim. |
| Text.HasPrefix | main.go:194 | `strings.HasPrefix`: the line is at least as long as the token and begins with it. |
| Text.Contains | main.go:189 | `strings.Contains`: the token is a prefix of the line or of one of its tails. |
| Text.ContainsAt | main.go:189 | An occurrence of the token at any position makes `Contains` true. |
| Text.ContainsOnlyAt | main.go:189 | `Contains` true means the token occurs at some position (the converse of ContainsAt). |
| Text.NoPairNoContains | main.go:200 | A line without any adjacent pair `a b` does not contain the two-character token `ab`. |
| Text.ToLower | main.go:120 | `strings.ToLower` on ASCII: each capital becomes its small letter; every other character is kept. |
| Text.ToLowerSpec | main.go:120 | Lower-casing keeps the length, leaves no ASCII capital, changes only ASCII capitals, and maps each of them 32 code points up. |
| Text.ToLowerIdempotent | main.go:171 | Lower-casing twice is lower-casing once. |
| Text.Ext | main.go:120 | `filepath.Ext`: the suffix of the path from the last '.' of its last element, or nothing when that element has no '.'. |
| Text.ExtSpec | main.go:120 | `filepath.Ext` is a suffix of the path. It is empty or starts with '.', and holds no further '.' and no '/'. It is empty exactly when the last element of the path has no '.'. |
| Text.ExtSuffix | main.go:120 | A non-empty extension is a suffix of the path. It starts with its only '.' and holds no '/'. |
| Text.ExtEmpty | main.go:120 | When the extension is empty, every '.' of the path is followed somewhere by a '/'. |
| Text.ExtOfChild | main.go:120 | The extension of `dir/name` is the extension of `name` when `name` holds no '/'. |
| Text.Below | main.go:259 | Go's `<` on strings: lexicographic on characters, a proper prefix first. |
| Text.BelowIrreflexive | main.go:259 | The order of `sort.Strings` is irreflexive. |
| Text.BelowTransitive | main.go:259 | The order of `sort.Strings` is transitive. |
| Text.BelowTotal | main.go:259 | Two different strings are ordered one way or the other. |
| Text.BelowAsymmetric | main.go:259 | Two strings are never ordered both ways. |
| Tables.FamiliesCoverCodeExtensions | main.go:185-231 | The C-like, hash and markup cases of the switch, plus ".json", are exactly the counted extensions. ".json" is the only counted extension that falls to the default case. |
| Tables.CommentTablesCounted | main.go:185-231 | Every extension in the C-like, hash and markup cases of the switch is a counted extension. |
| Tables.CountedHaveFamilies | main.go:185-231 | Every counted extension is in one of the three comment cases or is ".json", which is in none of them. |
| Tables.FamilyOf | main.go:185-231 | The case of the switch an extension selects: C-like, hash, markup, or the default case. |
| Tables.FamilyOfTable | main.go:185-231 | An extension selects the C-like, hash or markup case exactly when it is listed in that case. |
| Tables.ShouldIgnoreDir | main.go:154-160 | A directory is skipped when it is listed in IgnoreDirs, or when it is hidden (starts with '.' and is neither "." nor ".."). Only then is it skipped. "." and ".." are never skipped. |
| Tables.IgnoreDirsByName | main.go:47-62 | The listed names that start with '.' are covered by the hidden rule. Skipping is equivalent to being one of the nine other listed names or being hidden. |
| Classifier.PlusAssociative | main.go:137-146 | Adding counts field by field is associative. |
| Classifier.PlusZero | main.go:136 | The zero counts of a missing map entry are the unit of addition. |
| Classifier.ClassifyTrimmed | main.go:179-233 | The verdict on one trimmed line, and the block flag after it. An empty line is blank. C-like: inside a block every line is a comment, and "*/" closes the block; outside, a line starting with "//", "--", "/*" or "*" is a comment, and "/*" without "*/" opens a block. Hash: a line starting with "#" is a comment. Markup: the same block rule with "<!--" and "-->". Any other line is code. |
| Classifier.ClassifyLine | main.go:176-233 | The verdict on a raw line is that on its trimmed form. |
| Classifier.Step | main.go:175-234 | One iteration of the loop: classify the line with the current flag, count it once, and carry the new flag. |
| Classifier.Run | main.go:175-234 | The loop: the lines are fed to Step in order, from the given state. |
| Classifier.Tick | main.go:177-233 | Counting a line adds one to the total and keeps total = code + blank + comment. |
| Classifier.RunCounts | main.go:175-234 | After any sequence of lines, the total has grown by the number of lines, and a balanced start stays balanced. |
| Classifier.RunSnoc | main.go:175-234 | Feeding one more line is one more iteration of the loop body. |
| Classifier.Classify | main.go:162-237 | The counts of a file are balanced and their total is its number of lines. |
| Classifier.CountLine | main.go:176-233 | One pass of the loop body computes exactly the counts and flag of one `Step` of the specification. |
| Classifier.CountLines | main.go:169-234 | The loop over the lines of a file computes the counts of the specification `Run` from the empty start. |
| Classifier.CountLinesInFile | main.go:162-237 | A file that cannot be opened yields zero counts and an error. Otherwise the lines read are classified under the family of the lower-cased extension. A scanner failure is an error. The counts are balanced. |
| ClassifierProperties.RunAppend | main.go:175-234 | Feeding two runs of lines in turn is feeding their concatenation. |
| ClassifierProperties.RunShift | main.go:175-234 | Counts already made never influence later lines; they are only added to. |
| ClassifierProperties.BlankLine | main.go:179-182 | A line is blank exactly when it trims to nothing, in every family and state. A blank line never changes the block flag. |
| ClassifierProperties.RunBlanks | main.go:179-182 | The blank count of a file is the number of its lines that trim to nothing. |
| ClassifierProperties.BlankLineTransparent | main.go:179-182 | Inserting a blank line anywhere, even inside a block, adds one blank and changes nothing else. |
| ClassifierProperties.CLikeOutsideBlock | main.go:194-208 | Outside a block, a C-like line is a comment exactly when it starts with `//`, `--`, `/*` or `*`. It opens a block exactly when it starts with the opening token and lacks the closing one. |
| ClassifierProperties.InsideBlockLine | main.go:187-193 | Inside a C-like or markup block, every non-blank line is a comment. The block closes exactly on a line containing the closing token. |
| ClassifierProperties.StepInsideBlock | main.go:187-193 | A line inside a block that does not close it is a comment (or blank) and keeps the block open. |
| ClassifierProperties.NoneClosesAll | main.go:189 | A body none of whose lines contains the closing token satisfies the recursive form of that condition. |
| ClassifierProperties.InsideBlock | main.go:187-193 | Lines none of which closes the block keep it open and are all comments except the blank ones. |
| ClassifierProperties.RunOne | main.go:175-234 | A single line is one iteration. |
| ClassifierProperties.StepOpensBlock | main.go:198-203 | Outside a block, a line starting with the opening token and lacking the closing one is a comment and opens the block. |
| ClassifierProperties.StepClosesBlock | main.go:187-192 | Inside a block, a line containing the closing token is a comment and closes it. |
| ClassifierProperties.BlockComment | main.go:187-204 | Take an opening line, a body none of whose lines closes the block, and a closing line. Together they count as comments, except blank body lines, and the flag is clear afterwards. This holds for C-like and markup alike. |
| ClassifierProperties.BlockRun | main.go:187-204 | The counts of an open / body / close block, given the verdicts on its first and last line. |
| ClassifierProperties.OneLineBlock | main.go:198-203 | A line that opens and closes a block is one comment and opens no block. |
| ClassifierProperties.BlanksAndHashLines | main.go:179-213 | No line is both blank and a '#' line, so the blank lines and the '#' lines together are at most the number of lines. |
| ClassifierProperties.RunHash | main.go:209-213 | In the hash family a non-blank line is a comment exactly when it starts with '#', and the block flag is never set. |
| ClassifierProperties.HashFile | main.go:209-213 | The counts of a .py, .sh, .bash, .rb, .yaml, .yml or .toml file: '#' lines are comments, empty lines blank, the rest code. |
| ClassifierProperties.RunPlain | main.go:229-233 | Outside every comment family, every non-blank line is code and the flag is never set. |
| ClassifierProperties.PlainFile | main.go:229-233 | A file of an extension without a comment case (.json, or any other) has no comment lines. |
| ClassifierProperties.PythonExample | main.go:209-213 | A .py file with a comment, a blank line and a statement counts 3 lines: 1 code, 1 blank, 1 comment. |
| ClassifierProperties.GoExample | main.go:186-208 | A .go file whose block comment closes on its second line counts 3 lines: 1 code, 2 comment. |
| ClassifierProperties.ThreeLineBlock | main.go:186-208 | A two-line C-like block followed by a line of code counts 1 code and 2 comment lines and leaves no block open. |
| ClassifierProperties.TwoLineBlock | main.go:186-204 | A C-like block opened on one line and closed on the next counts 2 comment lines and leaves no block open. |
| ClassifierProperties.CLikeOpeningLine | main.go:198-203 | A C-like line that opens a block without closing it counts as one comment line and leaves the block open. |
| ClassifierProperties.CLikeClosingLine | main.go:187-192 | Inside an open block, a line holding "*/" counts as a comment line and closes the block. |
| Aggregate.CountAt | main.go:133 | A read of the file-count map: the stored count, or Go's zero value 0 for a missing key. |
| Aggregate.StatsAt | main.go:136 | A read of the per-extension map: the stored counts, or the zero `FileStats` for a missing key. |
| Aggregate.ExtsOfMembers | main.go:133 | An extension is a key exactly when some counted file has it. |
| Aggregate.SummarizesSnoc | main.go:133-146 | The callback's update of the maps and totals for one more file keeps them the exact summaries of the files counted. |
| Aggregate.NoFilesNoStats | main.go:136 | An extension with no counted file has zero counts, which matches the zero value a missing key reads as. |
| Aggregate.ProjectStats.constructor | main.go:101-104 | The aggregate starts with empty maps and zero totals, and summarizes no files. |
| Aggregate.ProjectStats.Record | main.go:133-146 | Recording a file adds one to its extension's file count and to the total file count. It adds its counts to its extension's counts, starting from zero for a new key, and to the totals. No other key changes, and the aggregate stays valid. |
| Aggregate.AddCounts | main.go:137-146 | The four field updates add the file's counts to an accumulator. |
| Aggregate.ExtsHaveFiles | main.go:133 | An extension is a key exactly when its file count is positive. |
| Aggregate.SummariesSnoc | main.go:133-146 | One more file adds its extension to the keys and its counts to the totals. |
| Aggregate.SummariesSnocAt | main.go:133-141 | One more file changes only its own extension's file count and counts. |
| Aggregate.FilesAppend | main.go:133 | File counts of two runs of files add up. |
| Aggregate.StatsAppend | main.go:136-141 | Per-extension counts of two runs of files add up. |
| Aggregate.TotalAppend | main.go:143-146 | Totals of two runs of files add up. |
| Aggregate.PermutationSplit | main.go:106-149 | The last file of one visiting order sits somewhere in any other order of the same files. |
| Aggregate.ExtsOrderIndependent | main.go:106-149 | The set of keys does not depend on the order the files were visited in. |
| Aggregate.FilesOrderIndependent | main.go:133 | The file count of an extension does not depend on the visiting order. |
| Aggregate.StatsOrderIndependent | main.go:136-141 | The counts of an extension do not depend on the visiting order. |
| Aggregate.TotalOrderIndependent | main.go:143-146 | The totals do not depend on the visiting order. |
| Aggregate.SameFilesSameAggregate | main.go:106-149 | Two valid aggregates over the same files, in any order, have equal maps and totals. |
| Aggregate.SummariesBalanced | main.go:137-146 | If every file is balanced, so are the totals and every extension's counts. |
| Aggregate.OverSnoc | main.go:261-267 | One more file adds itself once to the sums over distinct keys that include its extension, and not at all otherwise. |
| Aggregate.RowsSumToTotals | main.go:261-273 | Summed over distinct keys covering every extension, the per-extension file counts and counts give the file total and the totals. |
| Aggregate.NothingOver | main.go:261-267 | With no files every per-extension sum is zero. |
| Aggregate.TotalsAreSumsOfEntries | main.go:255-273 | The totals of a valid aggregate are the sums of its per-extension entries over its keys. |
| Walk.Contribution | main.go:119-130 | A file contributes at most one record. It contributes one exactly when its lower-cased extension is counted and it reads fully. |
| Walk.Visit | main.go:106-149 | The callback ends the walk when handed an error. It skips an ignored directory and continues into any other. It continues after a file. Only a file can change the aggregate, by exactly that file's contribution. |
| Walk.VisitFile | main.go:119-130 | A file outside the counted extensions, or one whose read fails, changes nothing. Otherwise it is recorded. |
| Walk.CountCodeFile | main.go:125-146 | A counted file is classified and recorded when it reads fully; a read failure changes nothing. |
| Walk.WalkTree | main.go:106-149 | `filepath.Walk` with the callback on one subtree. An unreadable node fails the walk. A file contributes what the callback records for it. An ignored directory is skipped. Any other directory is the walk of its children. |
| Walk.WalkChildren | main.go:106-149 | The children are walked in order. A skipped child does not stop its siblings. The first failing child ends the walk, keeping what was recorded before the failure. |
| Walk.WalkNode | main.go:106-149 | The walk of a subtree records exactly the files the specification walk lists and ends as it says. |
| Walk.WalkDir | main.go:106-149 | The walk of a directory's children records the specification's files and stops at the first failure. |
| Walk.WalkChildrenLast | main.go:106-149 | Once the walk gets past all but the last child, it records what it recorded so far followed by the files of the last child. |
| Walk.CountProjectLines | main.go:100-152 | From an empty aggregate, the walk records exactly the specification's files. It reports an error exactly when the specification walk fails. |
| WalkProperties.TalliesAppend | main.go:106-149 | What two runs of files contribute is the concatenation of what each contributes. |
| WalkProperties.WalkFailsIffUnreadable | main.go:107-109 | The walk of a subtree fails exactly when some node it reaches cannot be read. It is skipped exactly when it is an ignored directory. |
| WalkProperties.WalkChildrenFailsIffUnreadable | main.go:107-109 | The walk of a list of children fails exactly when one of them is unreadable, and is never skipped as a whole. |
| WalkProperties.WalkRecordsEveryFile | main.go:111-123 | When nothing it reaches is unreadable, the walk records the contributions of exactly the files outside ignored directories, depth first. |
| WalkProperties.WalkChildrenRecordsEveryFile | main.go:111-123 | The same for a list of children, in order. |
| WalkProperties.CountedAppend | main.go:119-123 | Two runs of counted records make a run of counted records. |
| WalkProperties.WalkRecordsCounted | main.go:119-123 | Every record of the walk has a counted extension and balanced counts. |
| WalkProperties.WalkChildrenRecordsCounted | main.go:119-123 | The same for a list of children. |
| WalkProperties.ProjectCountsBalanced | main.go:133-146 | After the walk, the totals and every extension's counts are balanced, and every key is a counted extension. |
| WalkProperties.CountedExts | main.go:133-146 | Records that all have counted extensions give only counted extensions as keys. |
| WalkProperties.ContributionByName | main.go:120 | Whether and how a file is counted depends on its own name, not on the directories above it. |
| Report.Insert | main.go:259 | Insertion adds exactly the new element. |
| Report.InsertSorted | main.go:259 | Inserting into a sorted sequence keeps it sorted. |
| Report.SortedDistinct | main.go:259 | A sorted sequence without repetitions is strictly increasing. |
| Report.StrictlySortedUnique | main.go:255-259 | Two strictly increasing sequences of the same elements are equal. |
| Report.CollectKeys | main.go:255-258 | The loop over the map collects every key exactly once, whatever the order the map yields them in. |
| Report.SortStrings | main.go:259 | Sorting yields a sorted permutation of its input. |
| Report.SortedExtensions | main.go:255-259 | The extensions of the report are the map's keys, each once, strictly increasing. |
| Report.DistinctByMultiset | main.go:255-259 | A permutation of a sequence without repetitions has none either. |
| Report.RepeatedTwice | main.go:255-259 | An element at two positions occurs at least twice. |
| Report.MultiplicityInDistinct | main.go:255-258 | No element occurs twice in a sequence without repetitions. |
| Report.ExtensionRows | main.go:261-267 | The row loop gives one row per sorted extension, with that key's entries of the two maps. |
| Report.RowsSumOver | main.go:261-267 | Rows carrying per-extension summaries add up to the sums over those extensions. |
| Report.BuildReport | main.go:239-274 | The breakdown has one row per key, strictly sorted, each with its entries. The TOTAL row carries the totals, and the rows add up to it. |
| Report.SortedKeysInMaps | main.go:261-263 | Every collected extension is a key of both maps. |
| Report.RowsDescribe | main.go:255-267 | Rows built from the sorted keys form a breakdown of the maps with one row per key. |
| Report.RowsAddUp | main.go:261-273 | The rows of all keys add up to the totals. |
| Report.PrintResults | main.go:239-274 | The rows are a breakdown of the aggregate's maps, followed by the TOTAL row. The rows add up to the TOTAL row. The rows are also the breakdown of the recorded files: one per extension seen, strictly increasing, each with that extension's file count and line counts. |
| Report.ReportUnique | main.go:255-267 | A breakdown is determined by the maps alone, so the map's iteration order leaves no trace in it. |
| Report.DescribedNames | main.go:255-267 | The first column of a breakdown lists the map's keys, strictly increasing. |
| Report.DescribesBreakdown | main.go:255-267 | A breakdown of maps that summarize the recorded files lists each extension seen exactly once, in strictly increasing order, with that extension's file count and line counts. |
| Report.DistinctCardinality | main.go:255-258 | A sequence without repetitions is as long as its set of elements. |
| Report.ExtsStrictlyDistinct | main.go:259 | A strictly increasing sequence has no repetitions. |
| Program.CountAndPrint | main.go:80-98 | The command exits with status 1, printing no report, exactly when the walk fails. Otherwise the printed rows are the breakdown of the files the walk recorded: their names are strictly increasing and are exactly the extensions seen, and each row holds its extension's file count and line counts. The rows add up to the TOTAL row, which holds the number of files the walk recorded and the sum of their counts. |

## Left out

- File system access is not modelled. The tree is a value: a `Node` is a file with its `Content`, a directory with its children in the order `filepath.Walk` visits them (lexical order), or an unreadable node. Symbolic links, `Lstat` and the `os.FileInfo` details are not modelled.
- `filepath.Join` cleaning a path is not modelled; `Join` concatenates with '/'. Only the final element of a path matters to the callback (see `WalkProperties.ContributionByName`).
- `bufio.Scanner` is not modelled: a file's lines, and whether reading it fails, are given by `Content`. Its line splitting (a final line without newline, `\r\n`) and its token-size limit are not.
- Opening and closing files (`os.Open`, `defer file.Close`) is not modelled.
- Text.ToLowerSpec: only ASCII capitals are lowered; every other character is kept. `strings.ToLower` also lowers non-ASCII letters through `unicode.ToLower`, and two of them lower to ASCII letters of the table: U+212A KELVIN SIGN becomes 'k' and U+0130 LATIN CAPITAL LETTER I WITH DOT ABOVE becomes 'i'. So the program counts a file named `x.\u212At` as `.kt` and one named `x.SW\u0130FT` as `.swift`, while the model counts neither.
- Text.TrimSpaceSpec: white space is the fixed list of characters `unicode.IsSpace` accepts. Characters are code points, and UTF-8 decoding is not modelled.
- The root's own name is an input: `Walk.CountProjectLines` and `Program.CountAndPrint` take the root `Node`, whose `name` is what `shouldIgnoreDir` sees, separately from the root path. Nothing ties that name to the last element of the path, which is what `os.Lstat` reports for the root in Go.
- Go's `int` overflow is not modelled; counts are unbounded naturals.
- The printed text is not modelled: `printResults` is modelled as the rows and the TOTAL row it prints. The summary block repeats the TOTAL row's numbers. The `%-8s`-style column widths, the separator lines and the heading are not modelled.
- The warning printed for an unreadable file and the error message printed by `main` are not modelled, beyond their effect on the counts and the exit status.
- `main` exits with `os.Exit(1)`. This is modelled as the `Exited(1)` ending of `Program.CountAndPrint`.
