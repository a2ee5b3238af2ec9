/** `ScanEngine` of scan_engine.py: a catalog of patterns grouped by
    category and compiled without flags, matches on comment lines
    suppressed, a plain context window, and a directory scan whose
    worker processes each get a copy of the engine. */
module ScanEngine {
  import opened Common
  import opened Strings
  import opened Lines
  import opened Severities
  import opened ContextWindow
  import opened Host
  import opened HashCache

  /** `max_file_size: int = 10_000_000` */
  const DefaultMaxFileSize: nat := 10_000_000

  /** One finding: the `ScanResult` dataclass. */
  datatype ScanResult = ScanResult(
    filePath: string,
    lineNumber: nat,
    category: string,
    description: string,
    severity: Severity,
    patternMatch: string,
    context: string,
    fileHash: string)

  /** One `(pattern, description, severity)` entry of a category. */
  datatype EnginePattern = EnginePattern(regex: Regex, description: string, severity: Severity)

  /** `re.finditer(pattern, content)` is called without flags. */
  function Entry(source: string, description: string, severity: Severity): (p: EnginePattern)
    ensures p.regex.source == source && !p.regex.ignoreCase && !p.regex.multiline
    ensures p.description == description && p.severity == severity
  {
    EnginePattern(Regex(source, false, false), description, severity)
  }

  /** A key of `SCAN_PATTERNS` with its list of entries. */
  datatype Category = Category(name: string, patterns: seq<EnginePattern>)

  /** `SCAN_PATTERNS`, in the insertion order a dict iterates in. */
  const ScanPatterns: seq<Category> := [
    Category("code_execution", [
      Entry(@"eval\s*\([^)]*\)", "Arbitrary code execution", Critical),
      Entry(@"exec\s*\([^)]*\)", "Arbitrary code execution", Critical),
      Entry(@"execfile\s*\([^)]*\)", "Arbitrary code execution", Critical),
      Entry(@"__import__\s*\([^)]*\)", "Dynamic import", High)]),
    Category("system_commands", [
      Entry(@"os\.system\s*\([^)]*\)", "System command execution", High),
      Entry(@"subprocess\..*\([^)]*shell\s*=\s*True[^)]*\)", "Shell execution in subprocess", High),
      Entry(@"subprocess\..*call\s*\([^)]*\)", "Process execution", Medium)]),
    Category("network", [
      Entry(@"socket\.socket\s*\([^)]*\)", "Raw socket creation", Medium),
      Entry(@"urllib\.request\.urlopen\s*\([^)]*\)", "URL request", Low),
      Entry(@"requests\.(get|post|put|delete)\s*\([^)]*\)", "HTTP request", Low)]),
    Category("file_operations", [
      Entry(@"open\s*\([^)]*[\'""]w[\'""][^)]*\)", "File write operation", Medium),
      Entry(@"open\s*\([^)]*[\'""]a[\'""][^)]*\)", "File append operation", Medium),
      Entry(@"shutil\.(copy|move|rmtree)\s*\([^)]*\)", "File system operation", Medium)]),
    Category("data_handling", [
      Entry(@"pickle\.(loads|load)\s*\([^)]*\)", "Unsafe deserialization", Critical),
      Entry(@"yaml\.load\s*\([^)]*\)", "Unsafe YAML loading", High),
      Entry(@"json\.loads?\s*\([^)]*\)", "JSON parsing", Low)]),
    Category("crypto_operations", [
      Entry(@"random\.(random|randint)", "Weak random number generation", Medium),
      Entry(@"hashlib\.md5\s*\([^)]*\)", "Weak hashing algorithm (MD5)", Medium),
      Entry(@"hashlib\.sha1\s*\([^)]*\)", "Weak hashing algorithm (SHA1)", Medium)]),
    Category("data_exposure", [
      Entry(@"(api|secret|key|token|password|credential).*=.*[\'""][^\'""]+[\'""]", "Potential hardcoded secret", High),
      Entry(@"base64\.(encode|decode)\s*\([^)]*\)", "Base64 encoding/decoding", Low),
      Entry(@"print\s*\([^)]*password[^)]*\)", "Password logging", Medium)])
  ]

  /** Seven categories of three or four entries, 22 patterns, none of
      them compiled case-insensitively. */
  lemma ScanPatternsShape()
    ensures |ScanPatterns| == 7
    ensures ScanPatterns[0].name == "code_execution" && |ScanPatterns[0].patterns| == 4
    ensures forall c :: 1 <= c < 7 ==> |ScanPatterns[c].patterns| == 3
    ensures forall c, i :: 0 <= c < 7 && 0 <= i < |ScanPatterns[c].patterns| ==> !ScanPatterns[c].patterns[i].regex.ignoreCase
  {
  }

  /** `get_line_context(content, n, c)`: the lines of the window joined by
      '\n', without numbers or markers. */
  function PlainContext(content: string, lineNumber: nat, contextLines: nat): string {
    Join(Window(SplitLines(content), lineNumber, contextLines), "\n")
  }

  /** Splitting the context at '\n' gives back the window: at most
      `2c + 1` lines, line `n` among them whenever it exists. */
  lemma PlainContextLines(content: string, lineNumber: nat, contextLines: nat)
    ensures var w := Window(SplitLines(content), lineNumber, contextLines);
      w != [] ==> Split(PlainContext(content, lineNumber, contextLines), '\n') == w
    ensures |Split(PlainContext(content, lineNumber, contextLines), '\n')| <= 2 * contextLines + 1
    ensures 1 <= lineNumber <= |SplitLines(content)| ==>
      SplitLines(content)[lineNumber - 1] in Split(PlainContext(content, lineNumber, contextLines), '\n')
  {
    var lines := SplitLines(content);
    var w := Window(lines, lineNumber, contextLines);
    WindowBounds(lines, lineNumber, contextLines);
    if w != [] {
      WindowHasNoNewline(content, lineNumber, contextLines);
      SplitJoin(w, '\n');
    } else {
      SplitNoSep("", '\n');
    }
  }

  /** `is_comment_line(line)`: `line.strip().startswith('#')`. */
  predicate IsCommentLine(line: string) {
    StartsWith(Strip(line), "#")
  }

  /** A line is a comment line exactly when its first character that is
      not whitespace is '#'. */
  lemma CommentLineSpec(line: string)
    ensures IsCommentLine(line) <==> exists i :: HashAfterBlanks(line, i)
  {
    var r := LStrip(line);
    var t := RStrip(r);
    var cut := |line| - |r|;
    LStripSpec(line);
    RStripSpec(r);
    if IsCommentLine(line) {
      assert t[0] == r[0] == line[cut];
      assert line[..cut] == line[..|line| - |r|];
      assert HashAfterBlanks(line, cut);
    }
    if exists i :: HashAfterBlanks(line, i) {
      var i :| HashAfterBlanks(line, i);
    }
  }

  /** Position `i` holds '#' and only whitespace comes before it. */
  predicate HashAfterBlanks(line: string, i: int) {
    0 <= i < |line| && line[i] == '#' && AllSpace(line[..i])
  }

  lemma IndentedHash(indent: string, line: string, i: nat)
    requires AllSpace(indent) && HashAfterBlanks(line, i)
    ensures HashAfterBlanks(indent + line, |indent| + i)
  {
    var s := indent + line;
    assert s[..|indent| + i] == indent + line[..i];
  }

  lemma UnindentedHash(indent: string, line: string, i: nat)
    requires AllSpace(indent) && HashAfterBlanks(indent + line, i)
    ensures i >= |indent| && HashAfterBlanks(line, i - |indent|)
  {
    var s := indent + line;
    var j := i - |indent|;
    assert line[..j] == s[..i][|indent|..];
  }

  /** Indenting a line does not change whether it is a comment line. */
  lemma CommentLineIndent(indent: string, line: string)
    requires AllSpace(indent)
    ensures IsCommentLine(indent + line) == IsCommentLine(line)
  {
    var s := indent + line;
    CommentLineSpec(s);
    CommentLineSpec(line);
    if exists i :: HashAfterBlanks(line, i) {
      var i :| HashAfterBlanks(line, i);
      IndentedHash(indent, line, i);
    }
    if exists i :: HashAfterBlanks(s, i) {
      var i :| HashAfterBlanks(s, i);
      UnindentedHash(indent, line, i);
    }
  }

  /** `content.splitlines()[line_number - 1]`, None where that raises IndexError. */
  function LineAt(content: string, lineNumber: nat): Option<string>
    requires lineNumber >= 1
  {
    var lines := SplitLines(content);
    if lineNumber - 1 < |lines| then Some(lines[lineNumber - 1]) else None
  }

  /** A match that starts inside the text finds its line. */
  lemma LineAtInsideText(content: string, pos: nat)
    requires pos < |content|
    ensures LineAt(content, LineNumberAt(content, pos)).Some?
  {
    LineLookupInRange(content, pos);
  }

  /** In text whose only line break is '\n', the line looked up is the
      physical line the match starts on. */
  lemma LineAtIsPhysicalLine(content: string, pos: nat)
    requires OnlyNewlineBreaks(content) && pos < |content|
    ensures LineAt(content, LineNumberAt(content, pos)) == Some(PhysicalLine(content, pos))
  {
    LookupIsPhysicalLine(content, pos);
  }

  /** No character of `s` is a line boundary. */
  predicate NoBreaks(s: string) {
    forall k :: 0 <= k < |s| ==> !IsLineBoundary(s[k])
  }

  /** The line number counts '\n' but `splitlines` also breaks at a form
      feed. In `x + "\f#\n" + y` a match at the start of `y` is on physical
      line 2, which is `y`; yet line 2 of `splitlines` is "#", so the
      match is taken for a comment and dropped. ("x\f#\neval(x)" is one
      such text.) */
  lemma FormFeedShiftsLookup(x: string, y: string, ft: FileText)
    requires NoBreaks(x) && NoBreaks(y) && y != []
    requires ft.content == x + "\U{0C}#\n" + y
    ensures var pos := |x| + 3;
      && LineNumberAt(ft.content, pos) == 2
      && PhysicalLine(ft.content, pos) == y
      && LineAt(ft.content, 2) == Some("#")
      && Reported(Span(pos, |ft.content|), ft) == Some(false)
  {
    FormFeedLineNumber(x, y, ft.content);
    FormFeedLines(x, y, ft.content);
    FormFeedPhysicalLine(x, y, ft.content);
    assert Strip("#") == "#";
  }

  lemma FormFeedLineNumber(x: string, y: string, content: string)
    requires NoBreaks(x) && content == x + "\U{0C}#\n" + y
    ensures LineNumberAt(content, |x| + 3) == 2
  {
    var head := "\U{0C}#\n";
    assert content[..|x| + 3] == x + head;
    CountCharAppend(x, head, '\n');
    CountCharAbsent(x, '\n');
    assert head == "\U{0C}#" + "\n";
    CountCharAppend("\U{0C}#", "\n", '\n');
    CountCharAbsent("\U{0C}#", '\n');
  }

  lemma FormFeedLines(x: string, y: string, content: string)
    requires NoBreaks(x) && content == x + "\U{0C}#\n" + y
    ensures |SplitLines(content)| >= 2 && SplitLines(content)[1] == "#"
  {
    FormFeedEndsLine(x, "#\n" + y, content);
    HashLine(y);
  }

  lemma FormFeedEndsLine(x: string, rest: string, content: string)
    requires NoBreaks(x) && content == x + "\U{0C}" + rest
    ensures SplitLines(content) == [x] + SplitLines(rest)
  {
    assert content[|x|] == '\U{0C}';
    assert content[..|x|] == x;
    FirstBoundaryAt(content, |x|);
    SplitLinesStep(content);
    assert content[|x| + 1..] == rest;
  }

  lemma HashLine(y: string)
    ensures SplitLines("#\n" + y) == ["#"] + SplitLines(y)
  {
    var s := "#\n" + y;
    FirstBoundaryAt(s, 1);
    SplitLinesStep(s);
    assert s[..1] == "#" && s[2..] == y;
  }

  lemma FormFeedPhysicalLine(x: string, y: string, content: string)
    requires NoBreaks(y) && content == x + "\U{0C}#\n" + y
    ensures PhysicalLine(content, |x| + 3) == y
  {
    var pos := |x| + 3;
    assert content[pos - 1] == '\n';
    forall k | pos <= k < |content| ensures content[k] != '\n' {
      assert content[k] == y[k - pos];
    }
    LineEndToEnd(content, pos);
    assert content[pos..] == y;
  }

  lemma {:induction false} LineEndToEnd(s: string, p: nat)
    requires p <= |s| && forall k :: p <= k < |s| ==> s[k] != '\n'
    ensures LineEndAt(s, p) == |s|
    decreases |s| - p
  {
    if p < |s| {
      LineEndToEnd(s, p + 1);
    }
  }

  /** A match that is empty and sits after a final '\n' has a line
      number one past the last line: the lookup raises. */
  lemma EmptyMatchAfterLastLine()
    ensures LineNumberAt("a\n", 2) == 2 && LineAt("a\n", 2).None?
  {
    assert "a\n"[..2] == "a\n";
    assert FirstBoundary("a\n") == 1 by {
      FirstBoundaryAt("a\n", 1);
    }
    SplitLinesStep("a\n");
    assert "a\n"[2..] == [];
  }

  /** The text of a file as `scan_file` sees it once read, and its digest. */
  datatype FileText = FileText(path: string, content: string, fileHash: string)

  /** The matches of entry `p` in the text. */
  function EngineMatches(p: EnginePattern, env: Environment, ft: FileText): (r: seq<Span>)
    requires env.Valid()
    ensures WellFormedSpans(r, ft.content) && InBounds(r, ft.content)
  {
    env.finditer(p.regex, ft.content)
  }

  /** The result `scan_file` appends for match `m` of entry `p` (scan_engine.py:101, 108-117). */
  function MakeResult(category: string, p: EnginePattern, m: Span, ft: FileText): ScanResult
    requires m.start <= m.end <= |ft.content|
  {
    var line := LineNumberAt(ft.content, m.start);
    ScanResult(ft.path, line, category, p.description, p.severity,
      ft.content[m.start..m.end], PlainContext(ft.content, line, 2), ft.fileHash)
  }

  /** Whether match `m` is reported: None where its line lookup raises,
      otherwise whether its line is not a comment line (the docstring test
      never holds). */
  function Reported(m: Span, ft: FileText): Option<bool>
    requires m.start <= |ft.content|
  {
    match LineAt(ft.content, LineNumberAt(ft.content, m.start))
    case None => None
    case Some(line) => Some(!IsCommentLine(line))
  }

  /** The results of one entry's matches, in match order; None once a
      lookup raises. */
  function MatchResults(category: string, p: EnginePattern, spans: seq<Span>, ft: FileText): Option<seq<ScanResult>>
    requires InBounds(spans, ft.content)
    decreases |spans|
  {
    if spans == [] then Some([])
    else
      var m := spans[|spans| - 1];
      match MatchResults(category, p, spans[..|spans| - 1], ft)
      case None => None
      case Some(before) =>
        match Reported(m, ft)
        case None => None
        case Some(keep) => Some(before + if keep then [MakeResult(category, p, m, ft)] else [])
  }

  /** The results of a category's entries, entry by entry. */
  function EntryResults(category: string, patterns: seq<EnginePattern>, env: Environment, ft: FileText): Option<seq<ScanResult>>
    requires env.Valid()
    decreases |patterns|
  {
    if patterns == [] then Some([])
    else
      var p := patterns[|patterns| - 1];
      match EntryResults(category, patterns[..|patterns| - 1], env, ft)
      case None => None
      case Some(before) =>
        match MatchResults(category, p, EngineMatches(p, env, ft), ft)
        case None => None
        case Some(last) => Some(before + last)
  }

  /** The results of all categories, category by category. */
  function TableResults(categories: seq<Category>, env: Environment, ft: FileText): Option<seq<ScanResult>>
    requires env.Valid()
    decreases |categories|
  {
    if categories == [] then Some([])
    else
      var c := categories[|categories| - 1];
      match TableResults(categories[..|categories| - 1], env, ft)
      case None => None
      case Some(before) =>
        match EntryResults(c.name, c.patterns, env, ft)
        case None => None
        case Some(last) => Some(before + last)
  }

  /** What every reported result satisfies: it names the file and its
      digest, its line exists and is not a comment line, and its context
      is the window around that line. */
  predicate Shown(r: ScanResult, ft: FileText) {
    && r.filePath == ft.path && r.fileHash == ft.fileHash
    && 1 <= r.lineNumber <= |SplitLines(ft.content)|
    && !IsCommentLine(SplitLines(ft.content)[r.lineNumber - 1])
    && r.context == PlainContext(ft.content, r.lineNumber, 2)
  }

  /** A result of entry `p` of category `category`. */
  predicate FromEntry(r: ScanResult, category: string, p: EnginePattern) {
    r.category == category && r.description == p.description && r.severity == p.severity
  }

  /** No result of an entry is on a comment line, and each carries the entry's data. */
  lemma {:induction false} MatchResultsSound(category: string, p: EnginePattern, spans: seq<Span>, ft: FileText)
    requires InBounds(spans, ft.content) && MatchResults(category, p, spans, ft).Some?
    ensures forall r :: r in MatchResults(category, p, spans, ft).value ==> Shown(r, ft) && FromEntry(r, category, p)
    decreases |spans|
  {
    if spans != [] {
      var init := spans[..|spans| - 1];
      MatchResultsSound(category, p, init, ft);
    }
  }

  /** A match whose line is not a comment line is reported. */
  lemma {:induction false} MatchResultsComplete(category: string, p: EnginePattern, spans: seq<Span>, ft: FileText, k: nat)
    requires InBounds(spans, ft.content) && MatchResults(category, p, spans, ft).Some?
    requires k < |spans| && Reported(spans[k], ft) == Some(true)
    ensures MakeResult(category, p, spans[k], ft) in MatchResults(category, p, spans, ft).value
    decreases |spans|
  {
    var init := spans[..|spans| - 1];
    if k < |spans| - 1 {
      assert init[k] == spans[k];
      MatchResultsComplete(category, p, init, ft, k);
    }
  }

  /** Some match's line lookup raises. */
  predicate SomeLookupRaises(spans: seq<Span>, ft: FileText)
    requires InBounds(spans, ft.content)
  {
    exists k :: 0 <= k < |spans| && Reported(spans[k], ft).None?
  }

  lemma SomeLookupRaisesSnoc(spans: seq<Span>, ft: FileText)
    requires InBounds(spans, ft.content) && spans != []
    ensures SomeLookupRaises(spans, ft)
      <==> SomeLookupRaises(spans[..|spans| - 1], ft) || Reported(spans[|spans| - 1], ft).None?
  {
    var init := spans[..|spans| - 1];
    if SomeLookupRaises(init, ft) {
      var k :| 0 <= k < |init| && Reported(init[k], ft).None?;
      assert spans[k] == init[k];
    }
    if SomeLookupRaises(spans, ft) {
      var k :| 0 <= k < |spans| && Reported(spans[k], ft).None?;
      if k < |init| {
        assert spans[k] == init[k];
      }
    }
  }

  /** The lookup fails for an entry exactly when it fails for one of its matches. */
  lemma {:induction false} MatchResultsFail(category: string, p: EnginePattern, spans: seq<Span>, ft: FileText)
    requires InBounds(spans, ft.content)
    ensures MatchResults(category, p, spans, ft).None? <==> SomeLookupRaises(spans, ft)
    decreases |spans|
  {
    if spans != [] {
      MatchResultsFail(category, p, spans[..|spans| - 1], ft);
      SomeLookupRaisesSnoc(spans, ft);
    }
  }

  /** Every match starts inside the text. */
  predicate StartsInside(spans: seq<Span>, content: string) {
    forall k :: 0 <= k < |spans| ==> spans[k].start < |content|
  }

  /** Matches that start inside the text never make the lookup raise. */
  lemma MatchResultsSucceed(category: string, p: EnginePattern, spans: seq<Span>, ft: FileText)
    requires InBounds(spans, ft.content) && StartsInside(spans, ft.content)
    ensures MatchResults(category, p, spans, ft).Some?
  {
    MatchResultsFail(category, p, spans, ft);
    forall k | 0 <= k < |spans| ensures Reported(spans[k], ft).Some? {
      LineAtInsideText(ft.content, spans[k].start);
    }
  }

  /** Line numbers never exceed that of the last match. */
  lemma {:induction false} MatchResultsBelow(category: string, p: EnginePattern, spans: seq<Span>, ft: FileText, bound: nat)
    requires InBounds(spans, ft.content) && MatchResults(category, p, spans, ft).Some?
    requires bound <= |ft.content| && forall k :: 0 <= k < |spans| ==> spans[k].start <= bound
    ensures forall r :: r in MatchResults(category, p, spans, ft).value ==> r.lineNumber <= LineNumberAt(ft.content, bound)
    decreases |spans|
  {
    if spans != [] {
      var init := spans[..|spans| - 1];
      MatchResultsBelow(category, p, init, ft, bound);
      LineNumberBounds(ft.content, spans[|spans| - 1].start, bound);
    }
  }

  predicate LinesAscending(rs: seq<ScanResult>) {
    forall a, b :: 0 <= a <= b < |rs| ==> rs[a].lineNumber <= rs[b].lineNumber
  }

  lemma LinesAscendingSnoc(rs: seq<ScanResult>, x: ScanResult)
    requires LinesAscending(rs) && forall r :: r in rs ==> r.lineNumber <= x.lineNumber
    ensures LinesAscending(rs + [x])
  {
    var all := rs + [x];
    forall a, b | 0 <= a <= b < |all| ensures all[a].lineNumber <= all[b].lineNumber {
      if b == |rs| && a < |rs| {
        assert all[a] in rs;
      }
    }
  }

  /** Within one entry, results come in match order, so their line
      numbers never decrease. */
  lemma {:induction false} MatchResultsAscending(category: string, p: EnginePattern, spans: seq<Span>, ft: FileText)
    requires WellFormedSpans(spans, ft.content) && MatchResults(category, p, spans, ft).Some?
    ensures LinesAscending(MatchResults(category, p, spans, ft).value)
    decreases |spans|
  {
    if spans != [] {
      var init := spans[..|spans| - 1];
      var last := spans[|spans| - 1];
      assert WellFormedSpans(init, ft.content);
      MatchResultsAscending(category, p, init, ft);
      forall k | 0 <= k < |init| ensures init[k].start <= last.start {
        SpanStartsAscending(spans, ft.content, k, |spans| - 1);
      }
      MatchResultsBelow(category, p, init, ft, last.start);
      var before := MatchResults(category, p, init, ft).value;
      if Reported(last, ft) == Some(true) {
        LinesAscendingSnoc(before, MakeResult(category, p, last, ft));
      } else {
        assert MatchResults(category, p, spans, ft).value == before + [];
      }
    }
  }

  /** No result of a category is on a comment line; each names the
      category and one of its entries. */
  lemma {:induction false} EntryResultsSound(category: string, patterns: seq<EnginePattern>, env: Environment, ft: FileText)
    requires env.Valid() && EntryResults(category, patterns, env, ft).Some?
    ensures forall r :: r in EntryResults(category, patterns, env, ft).value ==>
      Shown(r, ft) && exists i :: 0 <= i < |patterns| && FromEntry(r, category, patterns[i])
    decreases |patterns|
  {
    if patterns != [] {
      var init := patterns[..|patterns| - 1];
      var p := patterns[|patterns| - 1];
      EntryResultsSound(category, init, env, ft);
      MatchResultsSound(category, p, EngineMatches(p, env, ft), ft);
      forall r | r in EntryResults(category, patterns, env, ft).value
        ensures exists i :: 0 <= i < |patterns| && FromEntry(r, category, patterns[i])
      {
        if r in EntryResults(category, init, env, ft).value {
          var i :| 0 <= i < |init| && FromEntry(r, category, init[i]);
          assert patterns[i] == init[i];
        } else {
          assert FromEntry(r, category, patterns[|patterns| - 1]);
        }
      }
    }
  }

  /** A match of any entry of a category whose line is not a comment line is reported. */
  lemma {:induction false} EntryResultsComplete(category: string, patterns: seq<EnginePattern>, env: Environment, ft: FileText, i: nat, k: nat)
    requires env.Valid() && EntryResults(category, patterns, env, ft).Some?
    requires i < |patterns| && k < |EngineMatches(patterns[i], env, ft)|
    requires Reported(EngineMatches(patterns[i], env, ft)[k], ft) == Some(true)
    ensures MakeResult(category, patterns[i], EngineMatches(patterns[i], env, ft)[k], ft) in EntryResults(category, patterns, env, ft).value
    decreases |patterns|
  {
    var init := patterns[..|patterns| - 1];
    if i < |patterns| - 1 {
      assert init[i] == patterns[i];
      EntryResultsComplete(category, init, env, ft, i, k);
    } else {
      MatchResultsComplete(category, patterns[i], EngineMatches(patterns[i], env, ft), ft, k);
    }
  }

  /** Every match of every entry starts inside the text. */
  predicate EntriesStartInside(patterns: seq<EnginePattern>, env: Environment, ft: FileText)
    requires env.Valid()
  {
    forall i :: 0 <= i < |patterns| ==> StartsInside(EngineMatches(patterns[i], env, ft), ft.content)
  }

  lemma {:induction false} EntryResultsSucceed(category: string, patterns: seq<EnginePattern>, env: Environment, ft: FileText)
    requires env.Valid() && EntriesStartInside(patterns, env, ft)
    ensures EntryResults(category, patterns, env, ft).Some?
    decreases |patterns|
  {
    if patterns != [] {
      var init := patterns[..|patterns| - 1];
      var p := patterns[|patterns| - 1];
      assert EntriesStartInside(init, env, ft) by {
        forall i | 0 <= i < |init| ensures StartsInside(EngineMatches(init[i], env, ft), ft.content) {
          assert init[i] == patterns[i];
        }
      }
      EntryResultsSucceed(category, init, env, ft);
      MatchResultsSucceed(category, p, EngineMatches(p, env, ft), ft);
    }
  }

  /** No result of the table is on a comment line; each names one of the
      categories and one of its entries. */
  lemma {:induction false} TableResultsSound(categories: seq<Category>, env: Environment, ft: FileText)
    requires env.Valid() && TableResults(categories, env, ft).Some?
    ensures forall r :: r in TableResults(categories, env, ft).value ==>
      Shown(r, ft) && exists c, i :: (0 <= c < |categories| && 0 <= i < |categories[c].patterns|
        && FromEntry(r, categories[c].name, categories[c].patterns[i]))
    decreases |categories|
  {
    if categories != [] {
      var init := categories[..|categories| - 1];
      var last := categories[|categories| - 1];
      TableResultsSound(init, env, ft);
      EntryResultsSound(last.name, last.patterns, env, ft);
      forall r | r in TableResults(categories, env, ft).value
        ensures exists c, i :: (0 <= c < |categories| && 0 <= i < |categories[c].patterns|
          && FromEntry(r, categories[c].name, categories[c].patterns[i]))
      {
        if r in TableResults(init, env, ft).value {
          var c, i :| 0 <= c < |init| && 0 <= i < |init[c].patterns| && FromEntry(r, init[c].name, init[c].patterns[i]);
          assert categories[c] == init[c];
        } else {
          var i :| 0 <= i < |last.patterns| && FromEntry(r, last.name, last.patterns[i]);
          assert categories[|categories| - 1] == last;
        }
      }
    }
  }

  /** A match of any entry whose line is not a comment line is reported. */
  lemma {:induction false} TableResultsComplete(categories: seq<Category>, env: Environment, ft: FileText, c: nat, i: nat, k: nat)
    requires env.Valid() && TableResults(categories, env, ft).Some?
    requires c < |categories| && i < |categories[c].patterns|
    requires k < |EngineMatches(categories[c].patterns[i], env, ft)|
    requires Reported(EngineMatches(categories[c].patterns[i], env, ft)[k], ft) == Some(true)
    ensures MakeResult(categories[c].name, categories[c].patterns[i], EngineMatches(categories[c].patterns[i], env, ft)[k], ft)
      in TableResults(categories, env, ft).value
    decreases |categories|
  {
    var init := categories[..|categories| - 1];
    if c < |categories| - 1 {
      assert init[c] == categories[c];
      TableResultsComplete(init, env, ft, c, i, k);
    } else {
      EntryResultsComplete(categories[c].name, categories[c].patterns, env, ft, i, k);
    }
  }

  /** When every match starts inside the text, no lookup raises and the
      scan of the text succeeds. */
  lemma {:induction false} TableResultsSucceed(categories: seq<Category>, env: Environment, ft: FileText)
    requires env.Valid()
    requires forall c :: 0 <= c < |categories| ==> EntriesStartInside(categories[c].patterns, env, ft)
    ensures TableResults(categories, env, ft).Some?
    decreases |categories|
  {
    if categories != [] {
      var init := categories[..|categories| - 1];
      var last := categories[|categories| - 1];
      forall c | 0 <= c < |init| ensures EntriesStartInside(init[c].patterns, env, ft) {
        assert init[c] == categories[c];
      }
      TableResultsSucceed(init, env, ft);
      EntryResultsSucceed(last.name, last.patterns, env, ft);
    }
  }

  /** What `scan_file` returns and the digest dictionary afterwards. */
  datatype EngineOutcome = EngineOutcome(results: seq<ScanResult>, cache: map<string, string>)

  /** `scan_file(f)` for an engine with limit `maxFileSize` and dictionary
      `cache` (scan_engine.py:83-123): the size check, then the text read,
      then the digest, then the matches; any exception gives no results. */
  function ScanFileSpec(f: FileRecord, maxFileSize: nat, categories: seq<Category>, cache: map<string, string>, env: Environment): EngineOutcome
    requires env.Valid()
  {
    if f.size.None? || f.size.value > maxFileSize then EngineOutcome([], cache)
    else if f.decoded.None? then EngineOutcome([], cache)
    else
      var m := Lookup(cache, f, env.md5);
      if m.digest.None? then EngineOutcome([], cache)
      else
        var ft := FileText(f.path, TranslateNewlines(f.decoded.value), m.digest.value);
        match TableResults(categories, env, ft)
        case None => EngineOutcome([], m.cache)
        case Some(rs) => EngineOutcome(rs, m.cache)
  }

  /** The skip rules of `scan_file`: a missing or oversized file, or one
      whose text cannot be read, is dropped before any digest is taken (a
      file of exactly the limit is scanned); a lookup that raises drops
      the file's results but keeps its digest. */
  lemma ScanFileSkips(f: FileRecord, maxFileSize: nat, categories: seq<Category>, cache: map<string, string>, env: Environment)
    requires env.Valid()
    ensures var out := ScanFileSpec(f, maxFileSize, categories, cache, env);
      && (f.size.None? || f.size.value > maxFileSize || f.decoded.None? ==> out == EngineOutcome([], cache))
      && (f.size.Some? && f.size.value <= maxFileSize && f.decoded.Some? && (f.path in cache || f.bytes.Some?) ==>
            f.path in out.cache
            && out.cache[f.path] == (if f.path in cache then cache[f.path] else env.md5(f.bytes.value))
            && var ft := FileText(f.path, TranslateNewlines(f.decoded.value), out.cache[f.path]);
               out.results == TableResults(categories, env, ft).GetOr([]))
  {
  }

  /** While files do not change, the digest dictionary does not change
      what a scan reports. */
  lemma ScanFileCacheIrrelevant(f: FileRecord, maxFileSize: nat, categories: seq<Category>, cache: map<string, string>, env: Environment)
    requires env.Valid() && Agrees(cache, f, env.md5)
    ensures ScanFileSpec(f, maxFileSize, categories, cache, env).results == ScanFileSpec(f, maxFileSize, categories, map[], env).results
  {
    LookupFresh(cache, f, env.md5);
    LookupFresh(map[], f, env.md5);
  }

  /** The per-file results of `pool.map(self.scan_file, files)`: every
      worker scans with its own copy of the parent's dictionary. */
  function PoolMap(files: seq<FileRecord>, maxFileSize: nat, categories: seq<Category>, cache: map<string, string>, env: Environment): (r: seq<seq<ScanResult>>)
    requires env.Valid()
    ensures |r| == |files|
    decreases |files|
  {
    if files == [] then []
    else
      var last := ScanFileSpec(files[|files| - 1], maxFileSize, categories, cache, env);
      PoolMap(files[..|files| - 1], maxFileSize, categories, cache, env) + [last.results]
  }

  /** One more file adds its own scan to the parts of a prefix. */
  lemma PoolMapStep(files: seq<FileRecord>, maxFileSize: nat, categories: seq<Category>, cache: map<string, string>, env: Environment, k: nat)
    requires env.Valid() && k < |files|
    ensures PoolMap(files[..k + 1], maxFileSize, categories, cache, env)
      == PoolMap(files[..k], maxFileSize, categories, cache, env) + [ScanFileSpec(files[k], maxFileSize, categories, cache, env).results]
  {
    assert files[..k + 1][..k] == files[..k];
  }

  /** Each file's part is the scan of that file alone against the
      parent's dictionary, and with a truthful dictionary it is what a
      fresh engine reports. */
  lemma {:induction false} PoolMapAt(files: seq<FileRecord>, maxFileSize: nat, categories: seq<Category>, cache: map<string, string>, env: Environment, k: nat)
    requires env.Valid() && k < |files|
    ensures PoolMap(files, maxFileSize, categories, cache, env)[k] == ScanFileSpec(files[k], maxFileSize, categories, cache, env).results
    ensures Agrees(cache, files[k], env.md5) ==>
      PoolMap(files, maxFileSize, categories, cache, env)[k] == ScanFileSpec(files[k], maxFileSize, categories, map[], env).results
    decreases |files|
  {
    if k < |files| - 1 {
      var init := files[..|files| - 1];
      PoolMapAt(init, maxFileSize, categories, cache, env, k);
      assert init[k] == files[k];
    }
    if Agrees(cache, files[k], env.md5) {
      ScanFileCacheIrrelevant(files[k], maxFileSize, categories, cache, env);
    }
  }

  /** The flattened result holds every file's results in file order: its
      length is the sum of theirs and it holds exactly their results. */
  lemma ScanDirectoryTotals(parts: seq<seq<ScanResult>>, x: ScanResult)
    ensures |Flatten(parts)| == SumLengths(parts)
    ensures x in Flatten(parts) <==> exists k :: 0 <= k < |parts| && x in parts[k]
  {
    FlattenLength(parts);
    FlattenMembership(parts, x);
  }

  class ScanEngine {
    /** `max_file_size` */
    const maxFileSize: nat
    /** `file_hashes`: path -> MD5 hex digest. */
    var fileHashes: map<string, string>

    /** `ScanEngine(max_file_size)` (scan_engine.py:30-32). */
    constructor(maxFileSize: nat := DefaultMaxFileSize)
      ensures this.maxFileSize == maxFileSize && fileHashes == map[]
    {
      this.maxFileSize := maxFileSize;
      fileHashes := map[];
    }

    /** The copy of the engine that a pool worker unpickles. */
    constructor Copy(parent: ScanEngine)
      ensures maxFileSize == parent.maxFileSize && fileHashes == parent.fileHashes
    {
      maxFileSize := parent.maxFileSize;
      fileHashes := parent.fileHashes;
    }

    /** `get_file_hash` (scan_engine.py:46-58). None where opening the file raises. */
    method GetFileHash(f: FileRecord, md5: seq<bv8> -> string) returns (digest: Option<string>)
      modifies this
      ensures Memo(digest, fileHashes) == Lookup(old(fileHashes), f, md5)
    {
      if f.path in fileHashes {
        return Some(fileHashes[f.path]);
      }
      if f.bytes.None? {
        return None;
      }
      var d := DigestInChunks(f.bytes.value, md5);
      fileHashes := fileHashes[f.path := d];
      digest := Some(d);
    }

    /** `is_in_docstring` (scan_engine.py:71-81): a parse error is caught,
        and the first string constant of the walk raises AttributeError on
        `node.parent`, which is caught too; so the answer is always no.
        This rests on an assumption about `ast`: the nodes `ast.walk`
        yields are standard nodes, and no standard node has a `parent`
        attribute, so reading it always raises. */
    method IsInDocstring(content: string, position: nat, parse: string -> ParseOutcome) returns (r: bool)
      ensures !r
    {
      match parse(content)
      case SyntaxError =>
        return false;
      case Parsed(nodes) =>
        var k := 0;
        while k < |nodes|
          invariant k <= |nodes|
        {
          if nodes[k].StrNode? {
            return false;
          }
          k := k + 1;
        }
        return false;
    }

    /** `scan_file` (scan_engine.py:83-123). */
    method ScanFile(f: FileRecord, env: Environment) returns (results: seq<ScanResult>)
      requires env.Valid()
      modifies this
      ensures EngineOutcome(results, fileHashes) == ScanFileSpec(f, maxFileSize, ScanPatterns, old(fileHashes), env)
    {
      if f.size.None? || f.size.value > maxFileSize {
        return [];
      }
      if f.decoded.None? {
        return [];
      }
      var content := TranslateNewlines(f.decoded.value);
      var digest := GetFileHash(f, env.md5);
      if digest.None? {
        return [];
      }
      var found := ScanCategories(ScanPatterns, env, FileText(f.path, content, digest.value));
      results := if found.Some? then found.value else [];
    }

    /** The category loop of `scan_file` (scan_engine.py:97); None once a lookup raises. */
    method ScanCategories(categories: seq<Category>, env: Environment, ft: FileText) returns (r: Option<seq<ScanResult>>)
      requires env.Valid()
      ensures r == TableResults(categories, env, ft)
    {
      var results: seq<ScanResult> := [];
      var c := 0;
      while c < |categories|
        invariant c <= |categories|
        invariant TableResults(categories[..c], env, ft) == Some(results)
      {
        var found := ScanEntries(categories[c].name, categories[c].patterns, env, ft);
        assert categories[..c + 1][..c] == categories[..c];
        if found.None? {
          TableResultsAbort(categories, env, ft, c + 1);
          return None;
        }
        results := results + found.value;
        c := c + 1;
      }
      assert categories[..c] == categories;
      r := Some(results);
    }

    /** The entry loop of `scan_file` (scan_engine.py:98-99). */
    method ScanEntries(category: string, patterns: seq<EnginePattern>, env: Environment, ft: FileText) returns (r: Option<seq<ScanResult>>)
      requires env.Valid()
      ensures r == EntryResults(category, patterns, env, ft)
    {
      var results: seq<ScanResult> := [];
      var i := 0;
      while i < |patterns|
        invariant i <= |patterns|
        invariant EntryResults(category, patterns[..i], env, ft) == Some(results)
      {
        var p := patterns[i];
        var found := ScanMatches(category, p, env.finditer(p.regex, ft.content), env, ft);
        assert patterns[..i + 1][..i] == patterns[..i];
        if found.None? {
          EntryResultsAbort(category, patterns, env, ft, i + 1);
          return None;
        }
        results := results + found.value;
        i := i + 1;
      }
      assert patterns[..i] == patterns;
      r := Some(results);
    }

    /** The match loop of `scan_file` (scan_engine.py:100-117): the line of
        each match is looked up, comment lines are skipped, and the rest
        reported with their context. */
    method ScanMatches(category: string, p: EnginePattern, spans: seq<Span>, env: Environment, ft: FileText)
      returns (r: Option<seq<ScanResult>>)
      requires InBounds(spans, ft.content)
      ensures r == MatchResults(category, p, spans, ft)
    {
      var results: seq<ScanResult> := [];
      var j := 0;
      while j < |spans|
        invariant j <= |spans|
        invariant MatchResults(category, p, spans[..j], ft) == Some(results)
      {
        var m := spans[j];
        assert spans[..j + 1][..j] == spans[..j];
        var lineNumber := CountChar(ft.content[..m.start], '\n') + 1;
        var lines := SplitLines(ft.content);
        if lineNumber - 1 >= |lines| {
          MatchResultsAbort(category, p, spans, ft, j + 1);
          return None;
        }
        var line := lines[lineNumber - 1];
        MatchResultsStep(category, p, spans, ft, j, results);
        var inDocstring := IsInDocstring(ft.content, lineNumber, env.parse);
        if !(IsCommentLine(line) || inDocstring) {
          results := results + [ScanResult(ft.path, lineNumber, category, p.description, p.severity,
            ft.content[m.start..m.end], PlainContext(ft.content, lineNumber, 2), ft.fileHash)];
        }
        j := j + 1;
      }
      assert spans[..j] == spans;
      r := Some(results);
    }

    /** `scan_directory` (scan_engine.py:125-135): collect the files, scan
        each in a worker holding a copy of this engine, and flatten the
        per-file lists in file order. The parent's dictionary is not
        changed: the workers' digests stay in the workers. */
    method ScanDirectory(tree: seq<FileRecord>, extensions: seq<string>, env: Environment) returns (results: seq<ScanResult>)
      requires env.Valid()
      ensures results == Flatten(PoolMap(CollectFiles(tree, extensions), maxFileSize, ScanPatterns, fileHashes, env))
    {
      var files := CollectFilesToScan(tree, extensions);
      var parts := PoolMapLoop(files, env);
      results := Flatten(parts);
    }

    /** `pool.map(self.scan_file, files_to_scan)`, one worker copy per file. */
    method PoolMapLoop(files: seq<FileRecord>, env: Environment) returns (parts: seq<seq<ScanResult>>)
      requires env.Valid()
      ensures parts == PoolMap(files, maxFileSize, ScanPatterns, fileHashes, env)
    {
      parts := [];
      var k := 0;
      while k < |files|
        invariant k <= |files|
        invariant parts == PoolMap(files[..k], maxFileSize, ScanPatterns, fileHashes, env)
      {
        var worker := new ScanEngine.Copy(this);
        var r := worker.ScanFile(files[k], env);
        PoolMapStep(files, maxFileSize, ScanPatterns, fileHashes, env, k);
        parts := parts + [r];
        k := k + 1;
      }
      assert files[..k] == files;
    }
  }

  /** One step of the match loop: a match whose line is found adds its
      result unless that line is a comment line. */
  lemma MatchResultsStep(category: string, p: EnginePattern, spans: seq<Span>, ft: FileText, j: nat, rs: seq<ScanResult>)
    requires InBounds(spans, ft.content) && j < |spans|
    requires MatchResults(category, p, spans[..j], ft) == Some(rs)
    requires LineNumberAt(ft.content, spans[j].start) <= |SplitLines(ft.content)|
    ensures var m, n := spans[j], LineNumberAt(ft.content, spans[j].start);
      var line := SplitLines(ft.content)[n - 1];
      MatchResults(category, p, spans[..j + 1], ft)
        == Some(if IsCommentLine(line) then rs else rs + [ScanResult(ft.path, n, category, p.description, p.severity,
          ft.content[m.start..m.end], PlainContext(ft.content, n, 2), ft.fileHash)])
  {
    assert spans[..j + 1][..j] == spans[..j];
    assert spans[..j + 1][j] == spans[j];
    assert rs + [] == rs;
  }

  /** Once a prefix of the matches fails, every longer prefix fails. */
  lemma {:induction false} MatchResultsAbort(category: string, p: EnginePattern, spans: seq<Span>, ft: FileText, n: nat)
    requires InBounds(spans, ft.content) && 0 < n <= |spans|
    requires MatchResults(category, p, spans[..n - 1], ft).Some?
    requires LineAt(ft.content, LineNumberAt(ft.content, spans[n - 1].start)).None?
    ensures MatchResults(category, p, spans, ft).None?
  {
    MatchResultsFail(category, p, spans, ft);
    assert Reported(spans[n - 1], ft).None?;
  }

  lemma {:induction false} EntryResultsAbort(category: string, patterns: seq<EnginePattern>, env: Environment, ft: FileText, n: nat)
    requires env.Valid() && 0 < n <= |patterns|
    requires EntryResults(category, patterns[..n], env, ft).None?
    ensures EntryResults(category, patterns, env, ft).None?
    decreases |patterns|
  {
    if n < |patterns| {
      var init := patterns[..|patterns| - 1];
      assert init[..n] == patterns[..n];
      EntryResultsAbort(category, init, env, ft, n);
    } else {
      assert patterns[..n] == patterns;
    }
  }

  lemma {:induction false} TableResultsAbort(categories: seq<Category>, env: Environment, ft: FileText, n: nat)
    requires env.Valid() && 0 < n <= |categories|
    requires TableResults(categories[..n], env, ft).None?
    ensures TableResults(categories, env, ft).None?
    decreases |categories|
  {
    if n < |categories| {
      var init := categories[..|categories| - 1];
      assert init[..n] == categories[..n];
      TableResultsAbort(init, env, ft, n);
    } else {
      assert categories[..n] == categories;
    }
  }
}
