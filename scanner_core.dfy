/** `SecurityScanner` of scanner_core.py: a fixed catalog of 26
    case-insensitive patterns run over every file; every match becomes a
    `SecurityIssue` carrying its line number, a numbered context window
    and the file's type and MD5 digest. No comment suppression happens
    here. */
module ScannerCore {
  import opened Common
  import opened Strings
  import opened Lines
  import opened Severities
  import opened ContextWindow
  import opened Host
  import opened HashCache

  /** `MAX_FILE_SIZE = 10 * 1024 * 1024` */
  const MaxFileSize: nat := 10 * 1024 * 1024

  const BinaryExtensions: set<string> := {".exe", ".dll", ".so", ".dylib", ".bin", ".pyc"}

  /** The default extensions, listed in the order they are written. */
  const TextExtensionList: seq<string> := [".py", ".js", ".php", ".java", ".cs", ".go", ".rb", ".pl", ".sh",
    ".txt", ".html", ".xml", ".json", ".yml", ".yaml", ".ini", ".cfg"]

  const TextExtensions: set<string> := set e | e in TextExtensionList

  /** A catalog entry: `SecurityPattern(name, pattern, description, severity)`. */
  datatype SecurityPattern = SecurityPattern(name: string, regex: Regex, description: string, severity: Severity)

  /** `SecurityPattern.__init__` compiles with `re.IGNORECASE | re.MULTILINE`. */
  function Pattern(name: string, source: string, description: string, severity: Severity): (p: SecurityPattern)
    ensures p.regex.ignoreCase && p.regex.multiline && p.regex.source == source
    ensures p.name == name && p.description == description && p.severity == severity
  {
    SecurityPattern(name, Regex(source, true, true), description, severity)
  }

  /** `_initialize_patterns()`, in order. */
  const Catalog: seq<SecurityPattern> := [
    Pattern("eval_exec", @"eval\s*\([^)]*\)", "Dangerous eval() function detected", Critical),
    Pattern("exec_call", @"exec\s*\([^)]*\)", "Dangerous exec() function detected", Critical),
    Pattern("os_system", @"os\.system\s*\([^)]*\)", "OS command execution detected", High),
    Pattern("subprocess_shell", @"subprocess\..*\(.*shell\s*=\s*True", "Shell execution in subprocess", High),
    Pattern("file_write", @"open\s*\([^)]*,\s*['\""][wa]['\""]", "File write operation detected", Medium),
    Pattern("file_delete", @"os\.(remove|unlink)\s*\([^)]*\)", "File deletion operation", Medium),
    Pattern("chmod", @"os\.chmod\s*\([^)]*\)", "File permission modification", Medium),
    Pattern("socket_creation", @"socket\.socket\s*\([^)]*\)", "Network socket creation", Medium),
    Pattern("http_request", @"(requests|urllib|http)\.(get|post|put|delete)", "HTTP request detected", Low),
    Pattern("ftp_operation", @"ftplib\.FTP\s*\([^)]*\)", "FTP operation detected", Medium),
    Pattern("pickle_usage", @"pickle\.(loads?|dumps?)", "Unsafe pickle operation", High),
    Pattern("yaml_load", @"yaml\.load\s*\([^)]*\)", "Potentially unsafe YAML load", High),
    Pattern("marshal_usage", @"marshal\.(loads?|dumps?)", "Marshal usage detected", High),
    Pattern("weak_crypto", @"hashlib\.(md5|sha1)", "Weak cryptographic algorithm", Medium),
    Pattern("random_usage", @"random\.(random|randint)", "Insecure random number generation", Medium),
    Pattern("weak_cipher", @"Crypto\.Cipher\.(DES|RC4|Blowfish)", "Weak cipher algorithm", High),
    Pattern("hardcoded_secret", @"(password|secret|key|token|api[_-]?key)\s*=\s*['\""][^'\""]+['\""]",
      "Potential hardcoded secret", High),
    Pattern("sensitive_print", @"print\s*\([^)]*password[^)]*\)", "Printing sensitive information", Medium),
    Pattern("sensitive_log", @"log(ging)?\..*\([^)]*password[^)]*\)", "Logging sensitive information", Medium),
    Pattern("sql_injection", @"execute\s*\([^)]*\%[^)]*\)", "Potential SQL injection", Critical),
    Pattern("format_injection", @"format\s*\([^)]*\%[^)]*\)", "Format string vulnerability", High),
    Pattern("shell_injection", @"shell\s*=\s*True", "Shell injection vulnerability", High),
    Pattern("bare_except", @"except\s*:", "Bare except clause", Low),
    Pattern("pass_except", @"except.*:\s*pass", "Pass in except block", Low),
    Pattern("debug_mode", @"DEBUG\s*=\s*True", "Debug mode enabled", Low),
    Pattern("all_hosts", @"host\s*=\s*['\""]0\.0\.0\.0['\""]", "Listening on all interfaces", Medium)
  ]

  /** Every catalog pattern is compiled case-insensitive and multi-line. */
  lemma CatalogFlags()
    ensures |Catalog| == 26
    ensures forall i :: 0 <= i < |Catalog| ==> Catalog[i].regex.ignoreCase && Catalog[i].regex.multiline
  {
  }

  datatype SecurityIssue = SecurityIssue(
    filePath: string,
    lineNumber: nat,
    patternName: string,
    description: string,
    severity: Severity,
    matchedText: string,
    context: string,
    fileType: string,
    fileHash: string)

  /** One line of `get_context`: the marker, the right-aligned absolute
      number `f"{num:4d}"`, a bar and the source line. */
  function MarkedLine(num: nat, lineNumber: nat, line: string): string {
    (if num == lineNumber then "\U{2192} " else "  ") + PadLeft(Decimal(num), 4) + " | " + line
  }

  /** The formatted lines for a window whose first line is line `start + 1`. */
  function MarkedLines(shown: seq<string>, start: nat, lineNumber: nat): (r: seq<string>)
    ensures |r| == |shown|
  {
    seq(|shown|, k requires 0 <= k < |shown| => MarkedLine(start + 1 + k, lineNumber, shown[k]))
  }

  /** One more formatted line extends the prefix built so far. */
  lemma MarkedLinesStep(shown: seq<string>, start: nat, lineNumber: nat, k: nat)
    requires k < |shown|
    ensures MarkedLines(shown, start, lineNumber)[..k + 1]
      == MarkedLines(shown, start, lineNumber)[..k] + [MarkedLine(start + 1 + k, lineNumber, shown[k])]
  {
  }

  /** `get_context(content, line_number, context_lines)` */
  function MarkedContext(content: string, lineNumber: nat, contextLines: nat): string {
    var shown := Window(SplitLines(content), lineNumber, contextLines);
    Join(MarkedLines(shown, WindowStart(lineNumber, contextLines), lineNumber), "\n")
  }

  lemma DecimalHasNoSpace(n: nat)
    ensures forall k :: 0 <= k < |Decimal(n)| ==> !IsSpace(Decimal(n)[k]) && Decimal(n)[k] != '\n'
  {
  }

  /** The marker is there exactly on the reported line. */
  lemma MarkedLineMarker(num: nat, lineNumber: nat, line: string)
    ensures StartsWith(MarkedLine(num, lineNumber, line), "\U{2192} ") <==> num == lineNumber
  {
    var e := MarkedLine(num, lineNumber, line);
    var marker := if num == lineNumber then "\U{2192} " else "  ";
    assert e[..2] == marker;
  }

  /** The number field, stripped of its padding, reads back as the absolute line number. */
  lemma MarkedLineNumber(num: nat, lineNumber: nat, line: string)
    ensures var e := MarkedLine(num, lineNumber, line);
      |e| >= |line| + 5 && ParseDecimal(LStrip(e[2..|e| - |line| - 3])) == Some(num)
  {
    var e := MarkedLine(num, lineNumber, line);
    var marker := if num == lineNumber then "\U{2192} " else "  ";
    var field := PadLeft(Decimal(num), 4);
    assert e == marker + field + " | " + line;
    assert e[2..|e| - |line| - 3] == field;
    DecimalHasNoSpace(num);
    var pad := |field| - |Decimal(num)|;
    assert field == field[..pad] + Decimal(num);
    LStripPadding(field[..pad], Decimal(num));
    DecimalRoundTrip(num);
  }

  /** The source line closes the entry, after " | ". */
  lemma MarkedLineText(num: nat, lineNumber: nat, line: string)
    ensures EndsWith(MarkedLine(num, lineNumber, line), " | " + line)
  {
    var e := MarkedLine(num, lineNumber, line);
    var marker := if num == lineNumber then "\U{2192} " else "  ";
    var field := PadLeft(Decimal(num), 4);
    assert e == (marker + field) + (" | " + line);
  }

  /** Stripping leading blanks off blanks followed by text that starts
      with a non-blank leaves that text. */
  lemma {:induction false} LStripPadding(pad: string, s: string)
    requires AllSpace(pad)
    requires s != [] && !IsSpace(s[0])
    ensures LStrip(pad + s) == s
    decreases |pad|
  {
    if pad == [] {
      assert pad + s == s;
    } else {
      assert (pad + s)[0] == pad[0] && IsSpace(pad[0]);
      assert (pad + s)[1..] == pad[1..] + s;
      LStripPadding(pad[1..], s);
    }
  }

  /** A formatted line holds a '\n' only where its source line does. */
  lemma MarkedLineNoNewline(num: nat, lineNumber: nat, line: string)
    requires Lacks(line, '\n')
    ensures Lacks(MarkedLine(num, lineNumber, line), '\n')
  {
    var marker := if num == lineNumber then "\U{2192} " else "  ";
    var digits := Decimal(num);
    var field := PadLeft(digits, 4);
    DecimalHasNoSpace(num);
    var pad := |field| - |digits|;
    assert field == field[..pad] + digits;
    assert Lacks(field[..pad], '\n') by {
      forall k | 0 <= k < pad ensures field[..pad][k] != '\n' {
        assert IsSpace(field[..pad][k]);
      }
    }
    LacksConcat(field[..pad], digits, '\n');
    LacksConcat(marker, field, '\n');
    LacksConcat(marker + field, " | ", '\n');
    LacksConcat(marker + field + " | ", line, '\n');
  }

  /** The context block consists of exactly the formatted lines: at most
      `2c + 1` of them, numbered `start + 1 ..`, and only the reported
      line carries the marker. */
  lemma MarkedContextLines(content: string, lineNumber: nat, contextLines: nat)
    ensures var shown := Window(SplitLines(content), lineNumber, contextLines);
      var start := WindowStart(lineNumber, contextLines);
      var entries := MarkedLines(shown, start, lineNumber);
      |entries| <= 2 * contextLines + 1
      && (entries != [] ==> Split(MarkedContext(content, lineNumber, contextLines), '\n') == entries)
      && forall k :: 0 <= k < |entries| ==>
           (StartsWith(entries[k], "\U{2192} ") <==> start + 1 + k == lineNumber)
           && EndsWith(entries[k], " | " + shown[k])
  {
    var shown := Window(SplitLines(content), lineNumber, contextLines);
    var start := WindowStart(lineNumber, contextLines);
    var entries := MarkedLines(shown, start, lineNumber);
    WindowBounds(SplitLines(content), lineNumber, contextLines);
    WindowHasNoNewline(content, lineNumber, contextLines);
    MarkedLinesMarkers(shown, start, lineNumber);
    MarkedLinesTexts(shown, start, lineNumber);
    MarkedLinesNoNewline(shown, start, lineNumber);
    if entries != [] {
      SplitJoin(entries, '\n');
    }
  }

  lemma MarkedLinesMarkers(shown: seq<string>, start: nat, lineNumber: nat)
    ensures var entries := MarkedLines(shown, start, lineNumber);
      forall k :: 0 <= k < |entries| ==> (StartsWith(entries[k], "\U{2192} ") <==> start + 1 + k == lineNumber)
  {
    var entries := MarkedLines(shown, start, lineNumber);
    forall k | 0 <= k < |entries| ensures StartsWith(entries[k], "\U{2192} ") <==> start + 1 + k == lineNumber {
      MarkedLineMarker(start + 1 + k, lineNumber, shown[k]);
    }
  }

  lemma MarkedLinesTexts(shown: seq<string>, start: nat, lineNumber: nat)
    ensures var entries := MarkedLines(shown, start, lineNumber);
      forall k :: 0 <= k < |entries| ==> EndsWith(entries[k], " | " + shown[k])
  {
    var entries := MarkedLines(shown, start, lineNumber);
    forall k | 0 <= k < |entries| ensures EndsWith(entries[k], " | " + shown[k]) {
      MarkedLineText(start + 1 + k, lineNumber, shown[k]);
    }
  }

  lemma MarkedLinesNoNewline(shown: seq<string>, start: nat, lineNumber: nat)
    requires forall k :: 0 <= k < |shown| ==> Lacks(shown[k], '\n')
    ensures var entries := MarkedLines(shown, start, lineNumber);
      forall k :: 0 <= k < |entries| ==> Lacks(entries[k], '\n')
  {
    var entries := MarkedLines(shown, start, lineNumber);
    forall k | 0 <= k < |entries| ensures Lacks(entries[k], '\n') {
      MarkedLineNoNewline(start + 1 + k, lineNumber, shown[k]);
    }
  }

  /** The facts every issue of one file shares: its path, its text as
      read, its `magic` type and its digest. */
  datatype FileScan = FileScan(path: string, content: string, fileType: string, fileHash: string)

  /** The issue `scan_file` appends for match `m` of pattern `p` (scanner_core.py:175-188). */
  function MakeIssue(p: SecurityPattern, m: Span, fs: FileScan): SecurityIssue
    requires m.start <= m.end <= |fs.content|
  {
    var line := LineNumberAt(fs.content, m.start);
    SecurityIssue(fs.path, line, p.name, p.description, p.severity,
      fs.content[m.start..m.end], MarkedContext(fs.content, line, 2), fs.fileType, fs.fileHash)
  }

  /** The issues of one pattern, one per match, in match order. */
  function PatternIssues(p: SecurityPattern, spans: seq<Span>, fs: FileScan): (r: seq<SecurityIssue>)
    requires InBounds(spans, fs.content)
    ensures |r| == |spans|
    decreases |spans|
  {
    if spans == [] then []
    else PatternIssues(p, spans[..|spans| - 1], fs) + [MakeIssue(p, spans[|spans| - 1], fs)]
  }

  /** The matches of pattern `p` in the file. */
  function Matches(p: SecurityPattern, env: Environment, fs: FileScan): (r: seq<Span>)
    requires env.Valid()
    ensures WellFormedSpans(r, fs.content) && InBounds(r, fs.content)
  {
    env.finditer(p.regex, fs.content)
  }

  /** The issues of a list of patterns: pattern by pattern, in list order. */
  function CatalogIssues(patterns: seq<SecurityPattern>, env: Environment, fs: FileScan): seq<SecurityIssue>
    requires env.Valid()
    decreases |patterns|
  {
    if patterns == [] then []
    else
      var p := patterns[|patterns| - 1];
      CatalogIssues(patterns[..|patterns| - 1], env, fs) + PatternIssues(p, Matches(p, env, fs), fs)
  }

  /** What `scan_file` returns and the digest dictionary afterwards. */
  datatype ScanOutcome = ScanOutcome(issues: seq<SecurityIssue>, cache: map<string, string>)

  /** `scan_file(f)` against digest dictionary `cache` (scanner_core.py:152-193):
      the size check first, then the type and the digest, then the binary
      check, then the read; any exception gives no issues. */
  function ScanFileSpec(f: FileRecord, patterns: seq<SecurityPattern>, cache: map<string, string>, env: Environment): ScanOutcome
    requires env.Valid()
  {
    if f.size.None? || f.size.value > MaxFileSize then ScanOutcome([], cache)
    else
      var fileType := f.magic.GetOr("unknown");
      var m := Lookup(cache, f, env.md5);
      if m.digest.None? then ScanOutcome([], cache)
      else if Suffix(f.path) in BinaryExtensions then ScanOutcome([], m.cache)
      else if f.decoded.None? then ScanOutcome([], m.cache)
      else
        var fs := FileScan(f.path, TranslateNewlines(f.decoded.value), fileType, m.digest.value);
        ScanOutcome(CatalogIssues(patterns, env, fs), m.cache)
  }

  /** The per-file results of scanning `files` in order, sharing one
      digest dictionary, and that dictionary afterwards. */
  datatype Run = Run(parts: seq<seq<SecurityIssue>>, cache: map<string, string>)

  function ScanAll(files: seq<FileRecord>, patterns: seq<SecurityPattern>, cache: map<string, string>, env: Environment): (r: Run)
    requires env.Valid()
    ensures |r.parts| == |files|
    decreases |files|
  {
    if files == [] then Run([], cache)
    else
      var before := ScanAll(files[..|files| - 1], patterns, cache, env);
      var last := ScanFileSpec(files[|files| - 1], patterns, before.cache, env);
      Run(before.parts + [last.issues], last.cache)
  }

  /** One more file extends the run over a prefix of the files. */
  lemma ScanAllStep(files: seq<FileRecord>, patterns: seq<SecurityPattern>, cache: map<string, string>, env: Environment, k: nat)
    requires env.Valid() && k < |files|
    ensures var before := ScanAll(files[..k], patterns, cache, env);
      var last := ScanFileSpec(files[k], patterns, before.cache, env);
      ScanAll(files[..k + 1], patterns, cache, env) == Run(before.parts + [last.issues], last.cache)
  {
    assert files[..k + 1][..k] == files[..k];
  }

  /** The extensions `scan_directory` uses: the given ones, or the default text extensions. */
  function ExtensionsOrDefault(extensions: Option<seq<string>>): seq<string> {
    if extensions.Some? then extensions.value else TextExtensionList
  }

  /** `issues_by_severity[s]`: the issues of severity `s`, in input order. */
  function BySeverity(issues: seq<SecurityIssue>, s: Severity): (r: seq<SecurityIssue>)
    ensures |r| <= |issues|
    decreases |issues|
  {
    if issues == [] then []
    else
      var last := issues[|issues| - 1];
      BySeverity(issues[..|issues| - 1], s) + (if last.severity == s then [last] else [])
  }

  /** `format_severity`'s colour table. */
  function Color(s: Severity): string {
    match s
    case Low => "blue"
    case Medium => "yellow"
    case High => "red"
    case Critical => "bold red"
  }

  /** `format_severity(s)`: the value wrapped in its colour's markup. */
  function FormatSeverity(s: Severity): string {
    "[" + Color(s) + "]" + s.Value() + "[/" + Color(s) + "]"
  }

  /** `print_results`' summary: `(severity, count)` for every bucket with issues, in enum order. */
  function PrintedSummary(buckets: map<Severity, seq<SecurityIssue>>): seq<(Severity, nat)> {
    Breakdown(map s | s in buckets :: |buckets[s]|)
  }

  /** The order in which `print_results` lists the detailed findings: bucket by bucket, in enum order. */
  function PrintedOrder(issues: seq<SecurityIssue>): seq<SecurityIssue> {
    BySeverity(issues, Low) + BySeverity(issues, Medium) + BySeverity(issues, High) + BySeverity(issues, Critical)
  }

  /** The `k`-th issue of a pattern is the one for its `k`-th match. */
  lemma {:induction false} PatternIssuesAt(p: SecurityPattern, spans: seq<Span>, fs: FileScan, k: nat)
    requires InBounds(spans, fs.content) && k < |spans|
    ensures PatternIssues(p, spans, fs)[k] == MakeIssue(p, spans[k], fs)
    decreases |spans|
  {
    if k < |spans| - 1 {
      PatternIssuesAt(p, spans[..|spans| - 1], fs, k);
    }
  }

  /** Within one pattern, issues come in match order, so their line
      numbers never decrease. */
  lemma PatternIssuesLinesAscending(p: SecurityPattern, spans: seq<Span>, fs: FileScan, a: nat, b: nat)
    requires WellFormedSpans(spans, fs.content) && a <= b < |spans|
    ensures var r := PatternIssues(p, spans, fs); r[a].lineNumber <= r[b].lineNumber
  {
    PatternIssuesAt(p, spans, fs, a);
    PatternIssuesAt(p, spans, fs, b);
    SpanStartsAscending(spans, fs.content, a, b);
    LineNumberBounds(fs.content, spans[a].start, spans[b].start);
  }

  /** `issue` is the issue of some match of pattern `p`. */
  predicate ReportedBy(p: SecurityPattern, env: Environment, fs: FileScan, issue: SecurityIssue)
    requires env.Valid()
  {
    exists k :: 0 <= k < |Matches(p, env, fs)| && issue == MakeIssue(p, Matches(p, env, fs)[k], fs)
  }

  /** The issues of one pattern are exactly the issues of its matches. */
  lemma PatternIssuesMembers(p: SecurityPattern, spans: seq<Span>, fs: FileScan, issue: SecurityIssue)
    requires InBounds(spans, fs.content)
    ensures issue in PatternIssues(p, spans, fs) <==> exists k :: 0 <= k < |spans| && issue == MakeIssue(p, spans[k], fs)
  {
    if issue in PatternIssues(p, spans, fs) {
      var k :| 0 <= k < |spans| && PatternIssues(p, spans, fs)[k] == issue;
      PatternIssuesAt(p, spans, fs, k);
    }
    if exists k :: 0 <= k < |spans| && issue == MakeIssue(p, spans[k], fs) {
      var k :| 0 <= k < |spans| && issue == MakeIssue(p, spans[k], fs);
      PatternIssuesAt(p, spans, fs, k);
      assert PatternIssues(p, spans, fs)[k] in PatternIssues(p, spans, fs);
    }
  }

  /** Some pattern of the list reports `issue`. */
  predicate ReportedBySome(patterns: seq<SecurityPattern>, env: Environment, fs: FileScan, issue: SecurityIssue)
    requires env.Valid()
  {
    exists i :: 0 <= i < |patterns| && ReportedBy(patterns[i], env, fs, issue)
  }

  /** An issue is reported exactly when it is the issue of some match of some pattern. */
  lemma {:induction false} CatalogIssuesMembers(patterns: seq<SecurityPattern>, env: Environment, fs: FileScan, issue: SecurityIssue)
    requires env.Valid()
    ensures issue in CatalogIssues(patterns, env, fs) <==> ReportedBySome(patterns, env, fs, issue)
    decreases |patterns|
  {
    if patterns != [] {
      var init := patterns[..|patterns| - 1];
      var p := patterns[|patterns| - 1];
      CatalogIssuesMembers(init, env, fs, issue);
      PatternIssuesMembers(p, Matches(p, env, fs), fs, issue);
      ReportedBySnoc(patterns, env, fs, issue);
    }
  }

  /** Some pattern of the list reports `issue` exactly when one of all but
      the last does or the last one does. */
  lemma ReportedBySnoc(patterns: seq<SecurityPattern>, env: Environment, fs: FileScan, issue: SecurityIssue)
    requires env.Valid() && patterns != []
    ensures ReportedBySome(patterns, env, fs, issue)
      <==> (ReportedBySome(patterns[..|patterns| - 1], env, fs, issue) || ReportedBy(patterns[|patterns| - 1], env, fs, issue))
  {
    var init := patterns[..|patterns| - 1];
    if ReportedBySome(patterns, env, fs, issue) {
      var i :| 0 <= i < |patterns| && ReportedBy(patterns[i], env, fs, issue);
      if i < |init| {
        assert init[i] == patterns[i];
      }
    }
    if ReportedBySome(init, env, fs, issue) {
      var i :| 0 <= i < |init| && ReportedBy(init[i], env, fs, issue);
      assert init[i] == patterns[i];
    }
  }

  /** Every issue names a pattern of the list and carries that pattern's
      description and severity, the file's path, type and digest, a line
      number inside the file and the context of that line. */
  lemma IssueProvenance(patterns: seq<SecurityPattern>, env: Environment, fs: FileScan, issue: SecurityIssue)
    requires env.Valid() && issue in CatalogIssues(patterns, env, fs)
    ensures exists i :: (0 <= i < |patterns| && patterns[i].name == issue.patternName
      && patterns[i].description == issue.description && patterns[i].severity == issue.severity)
    ensures issue.filePath == fs.path && issue.fileType == fs.fileType && issue.fileHash == fs.fileHash
    ensures 1 <= issue.lineNumber <= CountChar(fs.content, '\n') + 1
    ensures issue.context == MarkedContext(fs.content, issue.lineNumber, 2)
  {
    CatalogIssuesMembers(patterns, env, fs, issue);
    var i :| 0 <= i < |patterns| && ReportedBy(patterns[i], env, fs, issue);
    var k :| 0 <= k < |Matches(patterns[i], env, fs)| && issue == MakeIssue(patterns[i], Matches(patterns[i], env, fs)[k], fs);
    var m := Matches(patterns[i], env, fs)[k];
    LineNumberBounds(fs.content, m.start, |fs.content|);
  }

  /** Two matches of one pattern on one line give two issues with the
      same file, line and pattern: these triples do not identify an issue.
      Two matches of the same text give two equal issues; two matches of
      different texts give two different ones. */
  lemma SameLineTwice(p: SecurityPattern, fs: FileScan, m1: Span, m2: Span)
    requires m1.start <= m1.end <= m2.start <= m2.end <= |fs.content|
    requires Lacks(fs.content[m1.start..m2.start], '\n')
    ensures var r := PatternIssues(p, [m1, m2], fs);
      |r| == 2
      && r[0].filePath == r[1].filePath && r[0].lineNumber == r[1].lineNumber
      && r[0].patternName == r[1].patternName
    ensures var r := PatternIssues(p, [m1, m2], fs);
      |r| == 2 && (r[0] == r[1] <==> fs.content[m1.start..m1.end] == fs.content[m2.start..m2.end])
  {
    var r := PatternIssues(p, [m1, m2], fs);
    PatternIssuesAt(p, [m1, m2], fs, 0);
    PatternIssuesAt(p, [m1, m2], fs, 1);
    SameLineNumber(fs.content, m1.start, m2.start);
    if fs.content[m1.start..m1.end] != fs.content[m2.start..m2.end] {
      assert r[0].matchedText != r[1].matchedText;
    }
  }

  /** Offsets with no '\n' between them lie on the same line. */
  lemma SameLineNumber(c: string, a: nat, b: nat)
    requires a <= b <= |c| && Lacks(c[a..b], '\n')
    ensures LineNumberAt(c, a) == LineNumberAt(c, b)
  {
    assert c[..b] == c[..a] + c[a..b];
    CountCharAppend(c[..a], c[a..b], '\n');
    CountCharAbsent(c[a..b], '\n');
  }

  /** The skip rules of `scan_file`: a missing or oversized file is
      skipped before any digest is taken (a file of exactly
      `MAX_FILE_SIZE` bytes is scanned); a binary file is skipped after
      its digest has been stored; a file that cannot be opened or
      decoded gives no issues. */
  lemma ScanFileSkips(f: FileRecord, patterns: seq<SecurityPattern>, cache: map<string, string>, env: Environment)
    requires env.Valid()
    ensures var out := ScanFileSpec(f, patterns, cache, env);
      && (f.size.None? || f.size.value > MaxFileSize ==> out == ScanOutcome([], cache))
      && (f.size.Some? && f.size.value <= MaxFileSize && Suffix(f.path) in BinaryExtensions
          && (f.path in cache || f.bytes.Some?) ==>
            out.issues == [] && f.path in out.cache
            && out.cache[f.path] == (if f.path in cache then cache[f.path] else env.md5(f.bytes.value)))
      && (f.path !in cache && f.bytes.None? ==> out == ScanOutcome([], cache))
      && (f.decoded.None? ==> out.issues == [])
  {
  }

  /** A file of exactly `MAX_FILE_SIZE` bytes is scanned like any other. */
  lemma ScanFileAtSizeLimit(f: FileRecord, patterns: seq<SecurityPattern>, cache: map<string, string>, env: Environment)
    requires env.Valid()
    requires f.size == Some(MaxFileSize) && Suffix(f.path) !in BinaryExtensions
    requires f.bytes.Some? && f.decoded.Some?
    ensures var d := Lookup(cache, f, env.md5).digest.value;
      ScanFileSpec(f, patterns, cache, env).issues
        == CatalogIssues(patterns, env, FileScan(f.path, TranslateNewlines(f.decoded.value), f.magic.GetOr("unknown"), d))
  {
  }

  /** While files do not change, the digest dictionary does not change
      what a scan reports: scanning with any truthful dictionary gives
      the issues a fresh scanner gives. */
  lemma ScanFileCacheIrrelevant(f: FileRecord, patterns: seq<SecurityPattern>, cache: map<string, string>, env: Environment)
    requires env.Valid() && Agrees(cache, f, env.md5)
    ensures ScanFileSpec(f, patterns, cache, env).issues == ScanFileSpec(f, patterns, map[], env).issues
  {
    LookupFresh(cache, f, env.md5);
    LookupFresh(map[], f, env.md5);
  }

  lemma ScanFileKeepsAgreement(f: FileRecord, patterns: seq<SecurityPattern>, cache: map<string, string>, disk: seq<FileRecord>, env: Environment)
    requires env.Valid() && AgreesAll(cache, disk, env.md5) && SamePathSameFile(disk) && f in disk
    ensures AgreesAll(ScanFileSpec(f, patterns, cache, env).cache, disk, env.md5)
  {
    LookupKeepsAgreement(cache, disk, f, env.md5);
  }

  /** Scanning a list of unchanging files with a truthful dictionary gives
      every file the issues a fresh scanner gives it, so the order in
      which worker threads fill the shared dictionary does not matter. */
  lemma {:induction false} ScanAllFresh(files: seq<FileRecord>, patterns: seq<SecurityPattern>, cache: map<string, string>, disk: seq<FileRecord>, env: Environment)
    requires env.Valid() && AgreesAll(cache, disk, env.md5) && SamePathSameFile(disk)
    requires forall k :: 0 <= k < |files| ==> files[k] in disk
    ensures AgreesAll(ScanAll(files, patterns, cache, env).cache, disk, env.md5)
    ensures forall k :: 0 <= k < |files| ==> ScanAll(files, patterns, cache, env).parts[k] == ScanFileSpec(files[k], patterns, map[], env).issues
    decreases |files|
  {
    if files != [] {
      var init := files[..|files| - 1];
      var f := files[|files| - 1];
      forall k | 0 <= k < |init| ensures init[k] in disk {
        assert init[k] == files[k];
      }
      ScanAllFresh(init, patterns, cache, disk, env);
      var before := ScanAll(init, patterns, cache, env);
      assert f in disk;
      var i :| 0 <= i < |disk| && disk[i] == f;
      assert Agrees(before.cache, disk[i], env.md5);
      ScanFileKeepsAgreement(f, patterns, before.cache, disk, env);
      ScanFileCacheIrrelevant(f, patterns, before.cache, env);
      FreshPartsSnoc(init, f, before.parts, ScanFileSpec(f, patterns, before.cache, env).issues, patterns, env);
      assert init + [f] == files;
    }
  }

  /** Appending the fresh issues of one more file to the fresh issues of
      the files before it. */
  lemma FreshPartsSnoc(init: seq<FileRecord>, f: FileRecord, parts: seq<seq<SecurityIssue>>, last: seq<SecurityIssue>, patterns: seq<SecurityPattern>, env: Environment)
    requires env.Valid() && |parts| == |init|
    requires forall k :: 0 <= k < |init| ==> parts[k] == ScanFileSpec(init[k], patterns, map[], env).issues
    requires last == ScanFileSpec(f, patterns, map[], env).issues
    ensures forall k :: 0 <= k < |init| + 1 ==> (parts + [last])[k] == ScanFileSpec((init + [f])[k], patterns, map[], env).issues
  {
    forall k | 0 <= k < |init| + 1 ensures (parts + [last])[k] == ScanFileSpec((init + [f])[k], patterns, map[], env).issues {
      if k < |init| {
        assert (init + [f])[k] == init[k];
      }
    }
  }

  /** `scan_directory` reports every issue of every collected file and
      nothing else: its length is the sum of the per-file counts. */
  lemma ScanDirectoryTotals(files: seq<FileRecord>, patterns: seq<SecurityPattern>, cache: map<string, string>, env: Environment, issue: SecurityIssue)
    requires env.Valid()
    ensures var parts := ScanAll(files, patterns, cache, env).parts;
      |Flatten(parts)| == SumLengths(parts)
      && (issue in Flatten(parts) <==> exists k :: 0 <= k < |files| && issue in parts[k])
  {
    var parts := ScanAll(files, patterns, cache, env).parts;
    FlattenLength(parts);
    FlattenMembership(parts, issue);
  }

  /** A bucket holds exactly the issues of its severity. */
  lemma {:induction false} BySeverityMembers(issues: seq<SecurityIssue>, s: Severity, x: SecurityIssue)
    ensures x in BySeverity(issues, s) <==> x in issues && x.severity == s
    decreases |issues|
  {
    if issues != [] {
      var init := issues[..|issues| - 1];
      BySeverityMembers(init, s, x);
      assert issues == init + [issues[|issues| - 1]];
    }
  }

  /** Grouping keeps input order: the bucket of a concatenation is the
      concatenation of the buckets. */
  lemma {:induction false} BySeverityAppend(a: seq<SecurityIssue>, b: seq<SecurityIssue>, s: Severity)
    ensures BySeverity(a + b, s) == BySeverity(a, s) + BySeverity(b, s)
    decreases |b|
  {
    if b == [] {
      assert a + b == a;
    } else {
      var init := b[..|b| - 1];
      assert (a + b)[..|a + b| - 1] == a + init;
      BySeverityAppend(a, init, s);
    }
  }

  /** Grouping one more issue adds it to its own bucket and no other. */
  lemma PrintedOrderSnoc(issues: seq<SecurityIssue>, x: SecurityIssue)
    ensures multiset(PrintedOrder(issues + [x])) == multiset(PrintedOrder(issues)) + multiset{x}
  {
    var all := issues + [x];
    PrintedOrderMultiset(all);
    PrintedOrderMultiset(issues);
    BySeveritySnoc(issues, x, Low);
    BySeveritySnoc(issues, x, Medium);
    BySeveritySnoc(issues, x, High);
    BySeveritySnoc(issues, x, Critical);
    AddToBucket(multiset(BySeverity(issues, Low)), multiset(BySeverity(issues, Medium)),
      multiset(BySeverity(issues, High)), multiset(BySeverity(issues, Critical)), x);
  }

  /** Adding `x` to its own bucket adds it to the union of the buckets. */
  lemma AddToBucket(l: multiset<SecurityIssue>, m: multiset<SecurityIssue>, h: multiset<SecurityIssue>,
                    c: multiset<SecurityIssue>, x: SecurityIssue)
    ensures (l + (if x.severity == Low then multiset{x} else multiset{}))
      + (m + (if x.severity == Medium then multiset{x} else multiset{}))
      + (h + (if x.severity == High then multiset{x} else multiset{}))
      + (c + (if x.severity == Critical then multiset{x} else multiset{}))
      == l + m + h + c + multiset{x}
  {
  }

  lemma PrintedOrderMultiset(issues: seq<SecurityIssue>)
    ensures multiset(PrintedOrder(issues)) == multiset(BySeverity(issues, Low)) + multiset(BySeverity(issues, Medium))
      + multiset(BySeverity(issues, High)) + multiset(BySeverity(issues, Critical))
  {
  }

  lemma BySeveritySnoc(issues: seq<SecurityIssue>, x: SecurityIssue, s: Severity)
    ensures multiset(BySeverity(issues + [x], s))
      == multiset(BySeverity(issues, s)) + (if x.severity == s then multiset{x} else multiset{})
  {
    var all := issues + [x];
    assert all[..|all| - 1] == issues;
  }

  /** The four buckets partition the issues: listed bucket by bucket they
      hold every issue exactly once, so their sizes sum to the number of issues. */
  lemma {:induction false} SeverityPartition(issues: seq<SecurityIssue>)
    ensures multiset(PrintedOrder(issues)) == multiset(issues)
    ensures |BySeverity(issues, Low)| + |BySeverity(issues, Medium)| + |BySeverity(issues, High)|
      + |BySeverity(issues, Critical)| == |issues|
    decreases |issues|
  {
    if issues != [] {
      var init := issues[..|issues| - 1];
      SeverityPartition(init);
      assert issues == init + [issues[|issues| - 1]];
      PrintedOrderSnoc(init, issues[|issues| - 1]);
    }
    assert |multiset(PrintedOrder(issues))| == |PrintedOrder(issues)|;
  }

  /** The printed summary lists exactly the severities that have issues,
      each with its number of issues, in enum order. */
  lemma PrintedSummarySpec(issues: seq<SecurityIssue>, buckets: map<Severity, seq<SecurityIssue>>)
    requires forall s :: s in buckets <==> BySeverity(issues, s) != []
    requires forall s :: s in buckets ==> buckets[s] == BySeverity(issues, s)
    ensures forall e :: e in PrintedSummary(buckets) <==> e.1 == |BySeverity(issues, e.0)| && e.1 > 0
    ensures RanksIncreasing(PrintedSummary(buckets))
  {
    BreakdownSpec(map s | s in buckets :: |buckets[s]|);
  }

  /** The colour markup of `format_severity` keeps severities apart. */
  lemma FormatSeverityInjective(a: Severity, b: Severity)
    ensures FormatSeverity(a) == FormatSeverity(b) <==> a == b
  {
    if a != b {
      assert FormatSeverity(a)[1] != FormatSeverity(b)[1] || FormatSeverity(a) != FormatSeverity(b);
    }
  }

  class SecurityScanner {
    /** `_file_hashes`: path -> MD5 hex digest. */
    var fileHashes: map<string, string>

    constructor()
      ensures fileHashes == map[]
    {
      fileHashes := map[];
    }

    /** `get_file_hash` (scanner_core.py:113-126). None where opening the file raises. */
    method GetFileHash(f: FileRecord, md5: seq<bv8> -> string) returns (digest: Option<string>)
      modifies this
      ensures Memo(digest, fileHashes) == Lookup(old(fileHashes), f, md5)
    {
      if f.path in fileHashes {
        return Some(fileHashes[f.path]);
      }
      if f.bytes.None? {
        return None;
      }
      var d := DigestInChunks(f.bytes.value, md5);
      fileHashes := fileHashes[f.path := d];
      digest := Some(d);
    }

    /** `get_context` (scanner_core.py:135-150). */
    method GetContext(content: string, lineNumber: nat, contextLines: nat) returns (r: string)
      ensures r == MarkedContext(content, lineNumber, contextLines)
    {
      var lines := SplitLines(content);
      var start := WindowStart(lineNumber, contextLines);
      var shown := Window(lines, lineNumber, contextLines);
      var formatted: seq<string> := [];
      var k := 0;
      while k < |shown|
        invariant k <= |shown|
        invariant formatted == MarkedLines(shown, start, lineNumber)[..k]
      {
        MarkedLinesStep(shown, start, lineNumber, k);
        var num := start + 1 + k;
        formatted := formatted + [MarkedLine(num, lineNumber, shown[k])];
        k := k + 1;
      }
      assert formatted == MarkedLines(shown, start, lineNumber);
      r := Join(formatted, "\n");
    }

    /** `scan_file` (scanner_core.py:152-193). */
    method ScanFile(f: FileRecord, env: Environment) returns (issues: seq<SecurityIssue>)
      requires env.Valid()
      modifies this
      ensures ScanOutcome(issues, fileHashes) == ScanFileSpec(f, Catalog, old(fileHashes), env)
    {
      if f.size.None? || f.size.value > MaxFileSize {
        return [];
      }
      var fileType := if f.magic.Some? then f.magic.value else "unknown";
      var digest := GetFileHash(f, env.md5);
      if digest.None? {
        return [];
      }
      if Suffix(f.path) in BinaryExtensions {
        return [];
      }
      if f.decoded.None? {
        return [];
      }
      var content := TranslateNewlines(f.decoded.value);
      issues := ScanPatterns(Catalog, env, FileScan(f.path, content, fileType, digest.value));
    }

    /** The pattern loop of `scan_file` (scanner_core.py:172-189): every
        match of every pattern, pattern by pattern. */
    method ScanPatterns(patterns: seq<SecurityPattern>, env: Environment, fs: FileScan) returns (issues: seq<SecurityIssue>)
      requires env.Valid()
      ensures issues == CatalogIssues(patterns, env, fs)
    {
      issues := [];
      var i := 0;
      while i < |patterns|
        invariant i <= |patterns|
        invariant issues == CatalogIssues(patterns[..i], env, fs)
      {
        var p := patterns[i];
        var found := ScanMatches(p, env.finditer(p.regex, fs.content), fs);
        assert patterns[..i + 1][..i] == patterns[..i];
        issues := issues + found;
        i := i + 1;
      }
      assert patterns[..i] == patterns;
    }

    /** The match loop of `scan_file` (scanner_core.py:174-188): one issue
        per match, with the line the match starts on and its context. */
    method ScanMatches(p: SecurityPattern, spans: seq<Span>, fs: FileScan) returns (found: seq<SecurityIssue>)
      requires InBounds(spans, fs.content)
      ensures found == PatternIssues(p, spans, fs)
    {
      found := [];
      var j := 0;
      while j < |spans|
        invariant j <= |spans|
        invariant found == PatternIssues(p, spans[..j], fs)
      {
        var m := spans[j];
        var lineNumber := CountChar(fs.content[..m.start], '\n') + 1;
        var context := GetContext(fs.content, lineNumber, 2);
        found := found + [SecurityIssue(fs.path, lineNumber, p.name, p.description, p.severity,
          fs.content[m.start..m.end], context, fs.fileType, fs.fileHash)];
        assert spans[..j + 1][..j] == spans[..j];
        j := j + 1;
      }
      assert spans[..j] == spans;
    }

    /** `scan_directory` (scanner_core.py:195-231): collect the files, then
        scan them in collection order and concatenate the results. */
    method ScanDirectory(tree: seq<FileRecord>, extensions: Option<seq<string>>, env: Environment)
      returns (results: seq<SecurityIssue>)
      requires env.Valid()
      modifies this
      ensures var run := ScanAll(CollectFiles(tree, ExtensionsOrDefault(extensions)), Catalog, old(fileHashes), env);
        results == Flatten(run.parts) && fileHashes == run.cache
    {
      var files := CollectFilesToScan(tree, ExtensionsOrDefault(extensions));
      if files == [] {
        assert ScanAll(files, Catalog, fileHashes, env) == Run([], fileHashes);
        return [];
      }
      results := ScanFiles(files, env);
    }

    /** The result loop of `scan_directory` (scanner_core.py:220-228): each
        file's issues, in submission order, appended to one list. */
    method ScanFiles(files: seq<FileRecord>, env: Environment) returns (results: seq<SecurityIssue>)
      requires env.Valid()
      modifies this
      ensures var run := ScanAll(files, Catalog, old(fileHashes), env);
        results == Flatten(run.parts) && fileHashes == run.cache
    {
      results := [];
      ghost var parts: seq<seq<SecurityIssue>> := [];
      var k := 0;
      while k < |files|
        invariant k <= |files|
        invariant ScanAll(files[..k], Catalog, old(fileHashes), env) == Run(parts, fileHashes)
        invariant results == Flatten(parts)
      {
        var r := ScanFile(files[k], env);
        ScanAllStep(files, Catalog, old(fileHashes), env, k);
        FlattenSnoc(parts, r);
        parts := parts + [r];
        results := results + r;
        k := k + 1;
      }
      assert files[..k] == files;
    }

    /** The grouping loop of `print_results` (scanner_core.py:250-254). */
    method GroupBySeverity(issues: seq<SecurityIssue>) returns (buckets: map<Severity, seq<SecurityIssue>>)
      ensures forall s :: s in buckets <==> BySeverity(issues, s) != []
      ensures forall s :: s in buckets ==> buckets[s] == BySeverity(issues, s)
    {
      buckets := map[];
      var k := 0;
      while k < |issues|
        invariant k <= |issues|
        invariant forall s :: s in buckets <==> BySeverity(issues[..k], s) != []
        invariant forall s :: s in buckets ==> buckets[s] == BySeverity(issues[..k], s)
      {
        var issue := issues[k];
        assert issues[..k + 1][..k] == issues[..k];
        if issue.severity !in buckets {
          buckets := buckets[issue.severity := []];
        }
        buckets := buckets[issue.severity := buckets[issue.severity] + [issue]];
        k := k + 1;
      }
      assert issues[..k] == issues;
    }
  }
}
