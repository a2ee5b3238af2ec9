# Security file scanner: the scan pipeline in Dafny

The scanner walks a directory tree. It collects the files whose names end in
one of a set of extensions, and runs a fixed catalog of regular-expression
rules over the text of each file. Every match becomes a finding with these
parts:

- the file's path;
- the line the match starts on;
- the rule's name, description and severity;
- the matched text;
- a window of context lines;
- the file's MD5 digest.

The repository has two scanners and one window built on top of them.

- `SecurityScanner` (src/scanner_core.py) has 26 case-insensitive rules.
  - Each context window is numbered, with an arrow on the reported line.
  - It records the file's `magic` type.
  - Oversized and binary files are skipped.
  - Files are scanned on a thread pool that shares one digest dictionary.
  - It also groups and prints results by severity.
- `ScanEngine` (src/scan_engine.py) has 22 rules in 7 categories, compiled
  without flags.
  - It drops every match whose line, stripped, starts with `#`.
  - Its context window is plain.
  - It scans files on a process pool. Each worker gets its own copy of the
    engine.
- `SecurityScannerGUI` (src/gui_scanner.py, lines 182-279) keeps the last
  scan's issues. From them it builds these views:
  - a summary by severity;
  - one detail row per issue;
  - statistics by file type and by rule, the rules sorted by count;
  - the context shown when a row is clicked;
  - a severity filter.

The model has eight modules, one file each:

- `Common`: Option, flattening.
- `Strings`: strip, split and join, decimal text, padding.
- `Lines`: `str.splitlines`, line numbers from counting `'\n'`, and
  universal-newline translation.
- `Severities`: the severity enum, and the summary breakdown in enum order.
- `Host`: the regex engine, MD5 and `ast.parse` as functions the model does
  not look inside, plus file records, `Path.name`/`Path.suffix` and `rglob`.
- `HashCache`: the path-to-digest memo.
- `ContextWindow`: the `lines[start:end]` window.
- One module per core file: `ScannerCore`, `ScanEngine`, `GuiScanner`.

Three things become classes with the fields they update in place:

- `SecurityScanner` and `ScanEngine`, with their digest dictionary.
- The window, with its issue list and the texts it shows.

The loops that build the scan state or a scan result are methods with
`while` loops. These are the loops that hash, scan, collect, count and
format the context. Each method is proved equal to a specification function,
and the properties are proved about those functions. The loops that only
print or format text are modelled as functions over sequences, with no
method:

- `print_results`' summary and detailed-findings loops (`PrintedSummary`,
  `PrintedOrder`);
- `update_summary`'s breakdown loop (`BreakdownLines`);
- `update_statistics`' output loops (`TallyLines`).

Where the repository's written design and its code differ, the model follows
the code:

- `SecurityScanner` does no comment suppression: every match is reported.
  - The design describes comment suppression for the scanner in general.
  - Only `ScanEngine` suppresses comments.
- Within one file, findings come rule by rule, and within a rule in match
  order.
  - They do not come in ascending line order across rules.
  - `ScannerCore.PatternIssuesLinesAscending` and
    `ScanEngine.MatchResultsAscending` prove ascending lines within one rule
    only.
- Results across files come in collection order, not in an unspecified
  order.
  - The thread pool's futures are read in submission order.
  - `pool.map` keeps its input order.
- `ScanEngine`'s rules are case-sensitive: `re.finditer(pattern, content)`
  passes no flags.
- `ScanEngine.scan_directory` does not fill the parent's digest dictionary.
  The workers' digests stay in the workers (`ScanEngine.ScanEngine.ScanDirectory`).
- (file, line, rule) does not identify a finding. Two matches of one rule on
  one line give two findings with the same triple
  (`ScannerCore.SameLineTwice`).

## Model

| member | source | states |
|---|---|---|
| Severities.AllSeveritiesInOrder | src/scanner_core.py:17-21 | `for severity in Severity` visits the four members in declaration order, LOW to CRITICAL |
| Severities.ValueInjective | src/scanner_core.py:17-21 | two severities have the same `.value` text exactly when they are the same severity |
| Severities.FromValue | src/gui_scanner.py:277 | the severity whose `.value` is the given text, or none when no severity has that value |
| Severities.BreakdownSpec | src/gui_scanner.py:205-207 | the breakdown lists exactly the severities with a positive count, each with its count, in enum order |
| Strings.LStripSpec | src/scan_engine.py:69 | `lstrip` removes exactly the leading run of whitespace: what remains is a suffix that is empty or starts with a non-space |
| Strings.RStripSpec | src/scan_engine.py:69 | `rstrip` removes exactly the trailing run of whitespace |
| Strings.SplitJoin | src/scan_engine.py:65 | splitting `'\n'.join(parts)` at `'\n'` gives the parts back when no part holds a `'\n'` |
| Strings.DecimalRoundTrip | src/gui_scanner.py:261 | `int(str(n)) == n` for every natural number |
| Strings.PadLeft | src/scanner_core.py:148 | `{num:4d}` pads to width 4 with leading blanks and keeps the digits as its tail |
| Lines.SplitLinesHaveNoBoundary | src/scanner_core.py:137 | no line of `splitlines()` holds any of Python's line-boundary characters |
| Lines.LineNumberBounds | src/scanner_core.py:175 | `content[:pos].count('\n') + 1` is at least 1, never decreases as `pos` grows, and is at most the number of `'\n'` plus one |
| Lines.LineLookupInRange | src/scan_engine.py:101-102 | for a match that starts inside the text, the line number indexes into `splitlines()` |
| Lines.LookupIsPhysicalLine | src/scan_engine.py:101-102 | in text whose only line break is `'\n'`, `splitlines()[n - 1]` is the physical line the match starts on |
| Lines.TranslateLeavesNoCarriageReturn | src/scanner_core.py:169-170 | a text-mode read leaves no `'\r'` in the content |
| Lines.TranslateKeepsLines | src/scanner_core.py:169-170 | universal-newline translation does not change what `splitlines()` returns |
| Lines.SplitLines | src/scanner_core.py:137 | the definition of `str.splitlines()`: cut at every Python line boundary, `"\r\n"` counted as one break, no empty last line after a final break, no lines for `""`; its properties are SplitLinesHaveNoBoundary, LineLookupInRange and TranslateKeepsLines |
| Lines.LineNumberAt | src/scanner_core.py:175 | the definition of `content[:pos].count('\n') + 1`, which is at least 1; its bounds and monotonicity are LineNumberBounds |
| Lines.TranslateNewlines | src/scanner_core.py:169-170 | the definition of a text-mode read's universal newlines, which never lengthens the text; TranslateLeavesNoCarriageReturn and TranslateKeepsLines state what it does |
| Host.SpanStartsAscending | src/scanner_core.py:174 | the matches `finditer` yields never start before an earlier match |
| Host.Name | src/scanner_core.py:165 | `Path.name` is a suffix of the path with no `'/'` in it |
| Host.NameIsLastComponent | src/scanner_core.py:165 | `Path.name` is the whole last component: the path itself when it has no `'/'`, and otherwise the text right after a `'/'` |
| Host.NameAfterSlash | src/scanner_core.py:165 | the name of `dir/name` is `name` whenever `name` holds no `'/'` |
| Host.Suffix | src/scanner_core.py:165 | `Path.suffix` is empty, or a dot and at least one more character ending the name, with no other dot |
| Host.SuffixOfExtension | src/scanner_core.py:165 | the file `dir/stem.ext` has suffix `.ext` |
| Host.RglobMembers | src/scanner_core.py:203 | `rglob("*" + ext)` yields exactly the tree's entries whose name ends with `ext` |
| Host.CollectFilesMembers | src/scanner_core.py:201-203 | a file is collected exactly when it is in the tree and its name ends with one of the extensions |
| Host.CollectFilesToScan | src/scan_engine.py:127-129 | the extension loop builds the concatenation of the `rglob` results, extension by extension |
| HashCache.Lookup | src/scanner_core.py:113-126 | a hit returns the stored digest and leaves the dictionary unchanged; a miss on a readable file returns the MD5 of its bytes and stores it under its path; no other entry changes; it fails only on a miss for a file that cannot be opened |
| HashCache.LookupIdempotent | src/scan_engine.py:46-58 | asking again returns the same digest and leaves the dictionary as the first call left it |
| HashCache.LookupHitIgnoresFile | src/scanner_core.py:116-117 | a hit does not look at the file: any file with that path gets the stored digest |
| HashCache.LookupFresh | src/scanner_core.py:113-126 | while the files do not change, the memo returns the digest of the file's bytes |
| HashCache.LookupKeepsAgreement | src/scanner_core.py:125 | filling the memo from files that do not change keeps it truthful about all of them |
| HashCache.DigestInChunks | src/scanner_core.py:119-124 | feeding the file in 4096-byte chunks gives the digest of the whole file |
| ContextWindow.WindowBounds | src/scan_engine.py:62-65 | the window has at most `2c + 1` lines, and holds line `n` whenever `n` is a line of the text |
| ScannerCore.CatalogFlags | src/scanner_core.py:65-111 | the catalog has 26 rules, all compiled case-insensitive and multi-line |
| ScannerCore.MarkedLineMarker | src/scanner_core.py:147 | a context line starts with the arrow exactly when it is the reported line |
| ScannerCore.MarkedLineNumber | src/scanner_core.py:148 | the number field of a context line, stripped of padding, reads back as the line's absolute number |
| ScannerCore.MarkedLineText | src/scanner_core.py:148 | a context line ends with `" | "` followed by the source line |
| ScannerCore.MarkedContextLines | src/scanner_core.py:135-150 | the context block splits back into its formatted lines; there are at most `2c + 1` of them, only the reported line has the arrow, and each ends with its source line |
| ScannerCore.PatternIssuesAt | src/scanner_core.py:174-188 | the `k`-th issue of a rule is the issue built from its `k`-th match |
| ScannerCore.PatternIssuesLinesAscending | src/scanner_core.py:174-175 | the issues of one rule come in match order, so their line numbers never decrease |
| ScannerCore.PatternIssuesMembers | src/scanner_core.py:174-188 | the issues of one rule are exactly the issues of its matches |
| ScannerCore.CatalogIssuesMembers | src/scanner_core.py:172-189 | an issue is reported exactly when it is the issue of some match of some rule |
| ScannerCore.IssueProvenance | src/scanner_core.py:175-188 | every issue carries a rule's name, description and severity, the file's path, type and digest, a line number inside the file, and the context of that line |
| ScannerCore.SameLineTwice | src/scanner_core.py:174-188 | two matches of one rule on one line give two issues with the same path, line and rule; the two issues are equal exactly when the matched texts are |
| ScannerCore.ScanFileSkips | src/scanner_core.py:152-193 | a missing or oversized file is skipped before hashing and leaves the dictionary unchanged; a binary file within the size limit is skipped after its digest is stored; a file that cannot be read gives no issues |
| ScannerCore.ScanFileAtSizeLimit | src/scanner_core.py:156 | a file of exactly `MAX_FILE_SIZE` bytes is scanned like any other |
| ScannerCore.ScanFileCacheIrrelevant | src/scanner_core.py:162 | while files do not change, a truthful digest dictionary does not change what a scan reports |
| ScannerCore.ScanAllFresh | src/scanner_core.py:220-228 | scanning unchanging files with a shared truthful dictionary gives every file the issues a fresh scanner gives it, and keeps the dictionary truthful; so the order in which threads fill the dictionary does not matter |
| ScannerCore.ScanDirectoryTotals | src/scanner_core.py:226-231 | the directory result holds exactly the issues of the scanned files, and its length is the sum of theirs |
| ScannerCore.BySeverityMembers | src/scanner_core.py:250-254 | a severity bucket holds exactly the issues of that severity |
| ScannerCore.BySeverityAppend | src/scanner_core.py:250-254 | grouping keeps input order: the bucket of a concatenation is the concatenation of the buckets |
| ScannerCore.SeverityPartition | src/scanner_core.py:263-276 | listed bucket by bucket, the detailed findings are a permutation of the issues, and the bucket sizes sum to the number of issues |
| ScannerCore.PrintedSummarySpec | src/scanner_core.py:257-261 | the printed summary lists exactly the severities that have issues, each with its count, in enum order |
| ScannerCore.MarkedContext | src/scanner_core.py:135-150 | the definition of `get_context`'s block; MarkedContextLines and the MarkedLine lemmas state its lines, and GetContext is proved equal to it |
| ScannerCore.CatalogIssues | src/scanner_core.py:172-189 | the definition of the issues of one text, rule by rule; CatalogIssuesMembers and IssueProvenance state which issues it holds |
| ScannerCore.ScanFileSpec | src/scanner_core.py:152-193 | the definition of `scan_file` with its skip rules in source order; ScanFileSkips, ScanFileAtSizeLimit and ScanFileCacheIrrelevant state its cases |
| ScannerCore.BySeverity | src/scanner_core.py:250-254 | the definition of one severity's bucket, never longer than the input; BySeverityMembers and BySeverityAppend state its contents and order |
| ScannerCore.PrintedSummary | src/scanner_core.py:257-261 | the definition of the printed summary's `(severity, count)` lines; PrintedSummarySpec states them |
| ScannerCore.PrintedOrder | src/scanner_core.py:263-276 | the definition of the order of the detailed findings, bucket by bucket in enum order; SeverityPartition states that it is a permutation of the issues |
| ScannerCore.FormatSeverity | src/scanner_core.py:233-241 | the definition of the colour markup of a severity; FormatSeverityInjective states that it tells severities apart |
| ScannerCore.FormatSeverityInjective | src/scanner_core.py:233-241 | the colour markup of two severities is the same exactly when the severities are the same |
| ScannerCore.SecurityScanner.constructor | src/scanner_core.py:48-51 | a new scanner has an empty digest dictionary |
| ScannerCore.SecurityScanner.GetFileHash | src/scanner_core.py:113-126 | the digest returned and the dictionary afterwards are those of `HashCache.Lookup` on the old dictionary |
| ScannerCore.SecurityScanner.GetContext | src/scanner_core.py:135-150 | the formatting loop builds the numbered, marked context block of the window |
| ScannerCore.SecurityScanner.ScanFile | src/scanner_core.py:152-193 | the issues returned and the dictionary afterwards are those of the single-file specification, with the skip rules in source order |
| ScannerCore.SecurityScanner.ScanPatterns | src/scanner_core.py:172-189 | the rule loop returns the issues of every rule in catalog order |
| ScannerCore.SecurityScanner.ScanMatches | src/scanner_core.py:174-188 | the match loop returns one issue per match, in match order |
| ScannerCore.SecurityScanner.ScanDirectory | src/scanner_core.py:195-231 | the result is the concatenation of the per-file results over the collected files, in collection order, and the dictionary is the one the scans leave |
| ScannerCore.SecurityScanner.ScanFiles | src/scanner_core.py:220-228 | the futures loop appends each file's issues in submission order |
| ScannerCore.SecurityScanner.GroupBySeverity | src/scanner_core.py:250-254 | a severity is a key exactly when some issue has it, and its list is that severity's issues in input order |
| ScanEngine.ScanPatternsShape | src/scan_engine.py:138-181 | there are seven categories, `code_execution` first with four rules and three rules in each of the others, none case-insensitive |
| ScanEngine.PlainContextLines | src/scan_engine.py:60-65 | the context splits back into the window's lines; there are at most `2c + 1` of them, and they include line `n` whenever it exists |
| ScanEngine.CommentLineSpec | src/scan_engine.py:67-69 | a line is a comment line exactly when its first non-whitespace character is `#` |
| ScanEngine.CommentLineIndent | src/scan_engine.py:67-69 | indenting a line does not change whether it is a comment line |
| ScanEngine.IsCommentLine | src/scan_engine.py:67-69 | the definition of `line.strip().startswith('#')`; CommentLineSpec and CommentLineIndent state what it means |
| ScanEngine.PlainContext | src/scan_engine.py:60-65 | the definition of `get_line_context`; PlainContextLines states what it holds |
| ScanEngine.LineAtInsideText | src/scan_engine.py:101-102 | a match that starts inside the text finds its line |
| ScanEngine.LineAtIsPhysicalLine | src/scan_engine.py:101-102 | in text whose only line break is `'\n'`, the line looked up is the physical line the match starts on |
| ScanEngine.FormFeedShiftsLookup | src/scan_engine.py:101-106 | after a form feed, the line looked up is not the match's line: in `x + "\f#\n" + y`, a match at the start of `y` is taken for a comment and dropped |
| ScanEngine.EmptyMatchAfterLastLine | src/scan_engine.py:101-102 | an empty match after a final `'\n'` has a line number one past the last line, so the lookup raises |
| ScanEngine.MatchResultsSound | src/scan_engine.py:100-117 | no result of a rule is on a comment line; each carries the rule's data, the file's path and digest, and its line's context |
| ScanEngine.MatchResultsComplete | src/scan_engine.py:100-117 | every match whose line is not a comment line is reported |
| ScanEngine.MatchResultsFail | src/scan_engine.py:101-102 | the scan of a rule fails exactly when the line lookup of one of its matches raises |
| ScanEngine.MatchResultsSucceed | src/scan_engine.py:101-102 | matches that start inside the text never make the lookup raise |
| ScanEngine.MatchResultsAscending | src/scan_engine.py:100-117 | the results of one rule come in match order, so their line numbers never decrease |
| ScanEngine.EntryResultsSound | src/scan_engine.py:98-117 | no result of a category is on a comment line; each names the category and one of its rules |
| ScanEngine.EntryResultsComplete | src/scan_engine.py:98-117 | a match of any rule of a category whose line is not a comment line is reported |
| ScanEngine.TableResultsSound | src/scan_engine.py:97-117 | no result of the table is on a comment line; each names one of the categories and one of its rules |
| ScanEngine.TableResultsComplete | src/scan_engine.py:97-117 | a match of any rule whose line is not a comment line is reported |
| ScanEngine.TableResultsSucceed | src/scan_engine.py:97-117 | when every match starts inside the text, the scan of the text succeeds |
| ScanEngine.TableResults | src/scan_engine.py:97-117 | the definition of the results of one text over the whole table, or a failure once a lookup raises; the TableResults lemmas state its soundness, completeness and success |
| ScanEngine.ScanFileSkips | src/scan_engine.py:83-123 | a missing, oversized or unreadable file is dropped before hashing, and one of exactly the limit is not; a failed lookup drops the file's results but keeps its digest |
| ScanEngine.ScanFileCacheIrrelevant | src/scan_engine.py:95 | while files do not change, a truthful digest dictionary does not change what a scan reports |
| ScanEngine.PoolMapAt | src/scan_engine.py:131-132 | each file's part is the scan of that file alone against the parent's dictionary, which with a truthful dictionary is what a fresh engine reports |
| ScanEngine.ScanDirectoryTotals | src/scan_engine.py:134-135 | the flattened result holds exactly the per-file results, and its length is the sum of theirs |
| ScanEngine.ScanFileSpec | src/scan_engine.py:83-123 | the definition of `scan_file` with its checks in source order; ScanFileSkips and ScanFileCacheIrrelevant state its cases |
| ScanEngine.PoolMap | src/scan_engine.py:131-132 | the definition of `pool.map(self.scan_file, files)`: one part per file, in file order; PoolMapAt states each part |
| ScanEngine.ScanEngine.constructor | src/scan_engine.py:30-32 | a new engine has the given size limit, 10,000,000 by default, and an empty digest dictionary |
| ScanEngine.ScanEngine.Copy | src/scan_engine.py:131-132 | a worker's copy has the parent's limit and dictionary |
| ScanEngine.ScanEngine.GetFileHash | src/scan_engine.py:46-58 | the digest returned and the dictionary afterwards are those of `HashCache.Lookup` on the old dictionary |
| ScanEngine.ScanEngine.IsInDocstring | src/scan_engine.py:71-81 | the answer is always no: a parse error is caught, and the first string constant of the walk raises on `node.parent`, which is caught too |
| ScanEngine.ScanEngine.ScanFile | src/scan_engine.py:83-123 | the results returned and the dictionary afterwards are those of the single-file specification, with the checks in source order |
| ScanEngine.ScanEngine.ScanCategories | src/scan_engine.py:97 | the category loop returns the table's results, or fails once a lookup raises |
| ScanEngine.ScanEngine.ScanEntries | src/scan_engine.py:98-99 | the rule loop returns the category's results, or fails once a lookup raises |
| ScanEngine.ScanEngine.ScanMatches | src/scan_engine.py:100-117 | the match loop looks up each match's line, skips comment lines, and fails when the lookup raises |
| ScanEngine.ScanEngine.ScanDirectory | src/scan_engine.py:125-135 | the result is the flattened list of per-file results over the collected files, each scanned by a copy of the engine, and the parent's dictionary is not changed |
| ScanEngine.ScanEngine.PoolMapLoop | src/scan_engine.py:131-132 | `pool.map` gives each file's results in file order, each from a fresh copy of the engine |
| GuiScanner.SeverityCountsSpec | src/gui_scanner.py:196-199 | every severity has a count, each issue counts for its own severity only, and the counts sum to the number of issues |
| GuiScanner.SeverityCounts | src/gui_scanner.py:196-199 | the definition of `severity_counts` after the loop; SeverityCountsSpec states its keys, counts and sum |
| GuiScanner.SummaryLines | src/gui_scanner.py:200-208 | the definition of the summary's lines: title, rule, total and breakdown; SummaryBreakdown states the breakdown |
| GuiScanner.SummaryBreakdown | src/gui_scanner.py:205-207 | the summary's breakdown names exactly the severities that have issues, each with its count, in enum order |
| GuiScanner.RowRoundTrip | src/gui_scanner.py:215-220 | a row gives back its issue's path, its line number through `int()`, and its severity through the severity's value |
| GuiScanner.FirstAt | src/gui_scanner.py:264-267 | the index of the first issue with the given path and line, or none when no issue has them |
| GuiScanner.RowClickShowsIssue | src/gui_scanner.py:259-267 | a click on row `k` finds an issue at or before `k`, and finds `k` itself unless an earlier issue has the same path and line |
| GuiScanner.WithSeverityValueSpec | src/gui_scanner.py:275-278 | filtering on a severity's value keeps exactly that severity's issues, in order; any other text keeps none |
| GuiScanner.WithSeverityValue | src/gui_scanner.py:275-278 | the definition of the filtered list; WithSeverityValueSpec states which issues it keeps |
| GuiScanner.BumpSpec | src/gui_scanner.py:240 | `d[key] = d.get(key, 0) + 1` adds one to the key's count and changes nothing else; a new key is appended with count 1, and keys stay distinct |
| GuiScanner.TallyOfDistinct | src/gui_scanner.py:237-240 | every key appears once, and the counts sum to the number of keys counted |
| GuiScanner.TallyOfKeys | src/gui_scanner.py:237-240 | exactly the keys that occur appear |
| GuiScanner.TallyOfCounts | src/gui_scanner.py:248-250 | each key's count is its number of occurrences |
| GuiScanner.TallyOf | src/gui_scanner.py:237-240 | the definition of the insertion-ordered `dict` of counts; TallyOfDistinct, TallyOfKeys and TallyOfCounts state what it holds |
| GuiScanner.SortByCount | src/gui_scanner.py:254 | the definition of `sorted(..., key=count, reverse=True)` as a stable insertion sort; SortByCountSpec states that it is sorted, a permutation and stable |
| GuiScanner.SortByCountSpec | src/gui_scanner.py:254 | `sorted(..., key=count, reverse=True)` orders by count, largest first, keeps every entry, and keeps entries of equal count in their original order |
| GuiScanner.StatsLines | src/gui_scanner.py:242-255 | the definition of the statistics lines: file types, then rules by count; UpdateStatistics sets the statistics text to their `'\n'`-join |
| GuiScanner.SecurityScannerGui.constructor | src/gui_scanner.py:138 | the window starts with no issues, no rows and empty texts |
| GuiScanner.SecurityScannerGui.ScanCompleted | src/gui_scanner.py:182-192 | the window keeps the issues and shows their summary, rows and statistics; the context text is unchanged |
| GuiScanner.SecurityScannerGui.UpdateSummary | src/gui_scanner.py:194-209 | the summary text is the title, the rule, the total and the breakdown, joined by `'\n'`; nothing else changes |
| GuiScanner.SecurityScannerGui.CountSeverities | src/gui_scanner.py:196-199 | the counting loop gives each severity its number of issues |
| GuiScanner.SecurityScannerGui.UpdateDetails | src/gui_scanner.py:211-231 | the rows are the issues' rows, in order; nothing else changes |
| GuiScanner.SecurityScannerGui.UpdateStatistics | src/gui_scanner.py:233-257 | the statistics list file types in first-seen order, then rules by count, largest first; nothing else changes |
| GuiScanner.SecurityScannerGui.CountKeys | src/gui_scanner.py:237-240 | the counting loop builds the insertion-ordered tally of the keys |
| GuiScanner.SecurityScannerGui.ShowContext | src/gui_scanner.py:259-267 | the context shown is that of the first issue at the row's path and line; it is unchanged when `int()` fails or no issue matches |
| GuiScanner.SecurityScannerGui.FilterResults | src/gui_scanner.py:269-279 | "All" shows every issue's row; any other choice shows the rows of the issues whose severity has that value; nothing else changes |

## Left out

- Regular-expression semantics: `finditer` is a parameter. The model only
  assumes its matches lie inside the text, in order, without overlap. What
  each catalog rule matches is not modelled; the rule sources are kept as
  text.
- MD5, `magic.from_file` and `ast.parse` are parameters too. The model does
  not implement them.
- The filesystem is a list of file records. `stat`, binary reads, UTF-8
  decoding and `magic` each either give a value or fail. The decoded text is
  not tied to the bytes by a UTF-8 decoder.
- `rglob` order is the list order of the tree. Hidden files, symbolic links
  and directories whose names match the glob are not distinguished.
- The default extension set is iterated in the order it is written. Python's
  iteration order for that set is unspecified.
- Concurrency.
  - `SecurityScanner`'s thread pool is modelled as a sequential loop in
    submission order. `ScannerCore.ScanAllFresh` shows that the order in
    which threads fill the shared dictionary does not change what is
    reported.
  - `ScanEngine`'s process pool is modelled as one fresh copy of the engine
    per file.
- Logging, the `rich` console, progress bars and `print_results`' printing
  are left out.
  - The printed content is modelled: the grouping, the summary counts, the
    order of the detailed findings and the colour markup.
  - The per-issue text lines are not.
- The GUI's widgets and colours are left out, and so is everything outside
  lines 182-279 of gui_scanner.py: the directory dialog, `start_scan`, the
  progress timer, the `ScanWorker` thread and `main`. The model keeps the
  texts and rows the widgets would show.
- GuiScanner.SecurityScannerGui.ShowContext: `int()` is modelled only for
  strings of ASCII digits. Signs, surrounding whitespace and underscores are
  not accepted. Every row the window builds has a line text of this form,
  from `str(line_number)`.
- On a failed `int()`, the `ValueError` escapes `show_context` in the
  source. The model leaves the window unchanged.
- Python `Exception`s inside `scan_file` are modelled at the points where
  they can arise: a missing file, a failed read, and an index out of range
  in the line lookup. Each gives an empty result, as the `except` clause
  does.
- Integers are unbounded in Python, and they are unbounded in the model.
