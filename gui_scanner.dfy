/** The data side of the window in gui_scanner.py: what it keeps of a
    finished scan and the texts and rows it derives from it (the summary,
    the detail rows, the statistics, the context shown for a clicked row
    and the severity filter). Widgets, colours and threads are not part
    of the model. */
module GuiScanner {
  import opened Common
  import opened Strings
  import opened Severities
  import opened ScannerCore

  /** `"=" * 50` */
  function Rule(): (r: string)
    ensures |r| == 50 && forall k :: 0 <= k < |r| ==> r[k] == '='
  {
    seq(50, _ => '=')
  }

  /** `{s: 0 for s in Severity}` after one increment per issue. */
  function SeverityCounts(issues: seq<SecurityIssue>): map<Severity, nat> {
    map[Low := |BySeverity(issues, Low)|, Medium := |BySeverity(issues, Medium)|,
        High := |BySeverity(issues, High)|, Critical := |BySeverity(issues, Critical)|]
  }

  lemma SeverityCounted(issues: seq<SecurityIssue>, s: Severity)
    ensures s in SeverityCounts(issues) && SeverityCounts(issues)[s] == |BySeverity(issues, s)|
  {
    match s
    case Low =>
    case Medium =>
    case High =>
    case Critical =>
  }

  /** Every severity has a count, each issue counts for its own severity
      only, and the counts sum to the number of issues. */
  lemma SeverityCountsSpec(issues: seq<SecurityIssue>)
    ensures forall s :: s in SeverityCounts(issues) && SeverityCounts(issues)[s] == |BySeverity(issues, s)|
    ensures var c := SeverityCounts(issues); c[Low] + c[Medium] + c[High] + c[Critical] == |issues|
  {
    forall s ensures s in SeverityCounts(issues) && SeverityCounts(issues)[s] == |BySeverity(issues, s)| {
      SeverityCounted(issues, s);
    }
    SeverityPartition(issues);
  }

  /** `severity_counts[issue.severity] += 1` moves the counts from a prefix to the next one. */
  lemma SeverityCountsSnoc(issues: seq<SecurityIssue>, x: SecurityIssue)
    ensures x.severity in SeverityCounts(issues)
    ensures var c := SeverityCounts(issues);
      SeverityCounts(issues + [x]) == c[x.severity := c[x.severity] + 1]
  {
    var all := issues + [x];
    assert all[..|all| - 1] == issues;
    SeverityCounted(issues, x.severity);
  }

  lemma SeverityCountsStep(issues: seq<SecurityIssue>, k: nat)
    requires k < |issues|
    ensures issues[k].severity in SeverityCounts(issues[..k])
    ensures var c := SeverityCounts(issues[..k]);
      SeverityCounts(issues[..k + 1]) == c[issues[k].severity := c[issues[k].severity] + 1]
  {
    SeverityCountsSnoc(issues[..k], issues[k]);
    assert issues[..k + 1] == issues[..k] + [issues[k]];
  }

  /** The lines of the summary text (gui_scanner.py:201-207). */
  function SummaryLines(total: nat, counts: map<Severity, nat>): seq<string> {
    ["Scan Summary", Rule(), "Total Issues Found: " + Decimal(total), "\nSeverity Breakdown:"]
      + BreakdownLines(Breakdown(counts))
  }

  /** `f"- {severity.value}: {count}"` for each breakdown entry. */
  function BreakdownLines(entries: seq<(Severity, nat)>): (r: seq<string>)
    ensures |r| == |entries|
    ensures forall i :: 0 <= i < |r| ==> r[i] == "- " + entries[i].0.Value() + ": " + Decimal(entries[i].1)
  {
    seq(|entries|, i requires 0 <= i < |entries| => "- " + entries[i].0.Value() + ": " + Decimal(entries[i].1))
  }

  /** The breakdown of the summary names exactly the severities that have
      issues, each with its number of issues, in enum order. */
  lemma SummaryBreakdown(issues: seq<SecurityIssue>)
    ensures forall e :: e in Breakdown(SeverityCounts(issues)) <==> e.1 == |BySeverity(issues, e.0)| && e.1 > 0
    ensures RanksIncreasing(Breakdown(SeverityCounts(issues)))
  {
    SeverityCountsSpec(issues);
    BreakdownSpec(SeverityCounts(issues));
  }

  /** One row of the results tree: path, line, severity and description as text. */
  datatype DetailRow = DetailRow(filePath: string, line: string, severity: string, description: string)

  function Row(issue: SecurityIssue): DetailRow {
    DetailRow(issue.filePath, Decimal(issue.lineNumber), issue.severity.Value(), issue.description)
  }

  /** The rows of the results tree for `issues`, one per issue, in order. */
  function Rows(issues: seq<SecurityIssue>): (r: seq<DetailRow>)
    ensures |r| == |issues| && forall i :: 0 <= i < |r| ==> r[i] == Row(issues[i])
  {
    seq(|issues|, i requires 0 <= i < |issues| => Row(issues[i]))
  }

  /** A row gives back the path and line number of its issue. */
  lemma RowRoundTrip(issue: SecurityIssue)
    ensures Row(issue).filePath == issue.filePath
    ensures ParseDecimal(Row(issue).line) == Some(issue.lineNumber)
    ensures FromValue(Row(issue).severity) == Some(issue.severity)
  {
    DecimalRoundTrip(issue.lineNumber);
    match issue.severity
    case Low =>
    case Medium =>
    case High =>
    case Critical =>
  }

  /** Whether an issue is the one a click on (path, line) looks for. */
  predicate At(issue: SecurityIssue, path: string, line: nat) {
    issue.filePath == path && issue.lineNumber == line
  }

  /** The index of the first issue at (path, line), if any. */
  function FirstAt(issues: seq<SecurityIssue>, path: string, line: nat): (r: Option<nat>)
    ensures r.Some? ==> (r.value < |issues| && At(issues[r.value], path, line)
      && forall j :: 0 <= j < r.value ==> !At(issues[j], path, line))
    ensures r.None? ==> forall j :: 0 <= j < |issues| ==> !At(issues[j], path, line)
    decreases |issues|
  {
    if issues == [] then None
    else if At(issues[0], path, line) then Some(0)
    else match FirstAt(issues[1..], path, line)
      case None => None
      case Some(i) => Some(i + 1)
  }

  /** Clicking row `k` shows the context of the first issue with that
      row's path and line, which is row `k`'s own issue unless an earlier
      issue has the same path and line. */
  lemma RowClickShowsIssue(issues: seq<SecurityIssue>, k: nat)
    requires k < |issues|
    ensures var row := Row(issues[k]);
      ParseDecimal(row.line) == Some(issues[k].lineNumber)
      && FirstAt(issues, row.filePath, issues[k].lineNumber).Some?
      && FirstAt(issues, row.filePath, issues[k].lineNumber).value <= k
    ensures (forall j :: 0 <= j < k ==> !At(issues[j], issues[k].filePath, issues[k].lineNumber))
      ==> FirstAt(issues, issues[k].filePath, issues[k].lineNumber) == Some(k)
  {
    RowRoundTrip(issues[k]);
  }

  /** `[issue for issue in issues if issue.severity.value == selected]` */
  function WithSeverityValue(issues: seq<SecurityIssue>, selected: string): seq<SecurityIssue>
    decreases |issues|
  {
    if issues == [] then []
    else
      var last := issues[|issues| - 1];
      WithSeverityValue(issues[..|issues| - 1], selected) + (if last.severity.Value() == selected then [last] else [])
  }

  /** Filtering on a severity's value keeps exactly the issues of that
      severity, in their order; any other text keeps none. */
  lemma {:induction false} WithSeverityValueSpec(issues: seq<SecurityIssue>, selected: string)
    ensures WithSeverityValue(issues, selected)
      == (match FromValue(selected) case Some(s) => BySeverity(issues, s) case None => [])
    decreases |issues|
  {
    if issues != [] {
      WithSeverityValueSpec(issues[..|issues| - 1], selected);
      var last := issues[|issues| - 1];
      ValueInjective(last.severity, last.severity);
      match FromValue(selected)
      case Some(s) =>
        ValueInjective(last.severity, s);
      case None =>
    }
  }

  /** A dict from text keys to counts, in insertion order. */
  type Tally = seq<(string, nat)>

  predicate KeysDistinct(t: Tally) {
    forall i, j :: 0 <= i < j < |t| ==> t[i].0 != t[j].0
  }

  /** `key in d` */
  predicate HasKey(t: Tally, key: string) {
    exists i :: 0 <= i < |t| && t[i].0 == key
  }

  /** The sum of the counts. */
  function Total(t: Tally): nat
    decreases |t|
  {
    if t == [] then 0 else Total(t[..|t| - 1]) + t[|t| - 1].1
  }

  /** The position of `key` in `t`, or `|t|` when it is absent. */
  function KeyIndex(t: Tally, key: string): (i: nat)
    ensures i <= |t|
    ensures i < |t| ==> t[i].0 == key
    ensures forall j :: 0 <= j < i ==> t[j].0 != key
    decreases |t|
  {
    if t == [] then 0 else if t[0].0 == key then 0 else 1 + KeyIndex(t[1..], key)
  }

  /** `d[key] = d.get(key, 0) + 1`: a present key keeps its place, a new one goes last. */
  function Bump(t: Tally, key: string): Tally {
    var i := KeyIndex(t, key);
    if i < |t| then t[i := (key, t[i].1 + 1)] else t + [(key, 1)]
  }

  lemma {:induction false} TotalUpdate(t: Tally, i: nat, v: (string, nat))
    requires i < |t|
    ensures Total(t[i := v]) + t[i].1 == Total(t) + v.1
    decreases |t|
  {
    var u := t[i := v];
    if i < |t| - 1 {
      TotalUpdate(t[..|t| - 1], i, v);
      assert u[..|u| - 1] == t[..|t| - 1][i := v];
    } else {
      assert u[..|u| - 1] == t[..|t| - 1];
    }
  }

  /** Bumping adds one to `key`'s count, appending `key` with count 1 when
      it is new, and changes nothing else: keys stay distinct and the
      total grows by one. */
  lemma BumpSpec(t: Tally, key: string)
    requires KeysDistinct(t)
    ensures KeysDistinct(Bump(t, key))
    ensures Total(Bump(t, key)) == Total(t) + 1
    ensures HasKey(t, key) ==> |Bump(t, key)| == |t|
    ensures !HasKey(t, key) ==> |Bump(t, key)| == |t| + 1 && Bump(t, key)[|t|] == (key, 1)
    ensures forall i :: 0 <= i < |t| ==> Bump(t, key)[i] == (t[i].0, t[i].1 + (if t[i].0 == key then 1 else 0))
  {
    var i := KeyIndex(t, key);
    var r := Bump(t, key);
    if i < |t| {
      TotalUpdate(t, i, (key, t[i].1 + 1));
      assert HasKey(t, key);
      forall a | 0 <= a < |t| ensures r[a].0 == t[a].0 {
      }
    } else {
      assert r[..|t|] == t;
      forall a | 0 <= a < |t| ensures r[a] == t[a] && t[a].0 != key {
      }
    }
  }

  /** The dict a counting loop over `keys` builds. */
  function TallyOf(keys: seq<string>): Tally
    decreases |keys|
  {
    if keys == [] then [] else Bump(TallyOf(keys[..|keys| - 1]), keys[|keys| - 1])
  }

  /** Every key appears once, and the counts sum to the number of keys. */
  lemma {:induction false} TallyOfDistinct(keys: seq<string>)
    ensures KeysDistinct(TallyOf(keys))
    ensures Total(TallyOf(keys)) == |keys|
    decreases |keys|
  {
    if keys != [] {
      var init, key := keys[..|keys| - 1], keys[|keys| - 1];
      TallyOfDistinct(init);
      BumpSpec(TallyOf(init), key);
    }
  }

  lemma BumpKeys(t: Tally, seen: seq<string>, key: string)
    requires KeysDistinct(t)
    requires forall k :: k in seen <==> HasKey(t, k)
    ensures forall k :: k in seen + [key] <==> HasKey(Bump(t, key), k)
  {
    BumpSpec(t, key);
    var r := Bump(t, key);
    forall k ensures k in seen + [key] <==> HasKey(r, k) {
      if k in seen {
        var j :| 0 <= j < |t| && t[j].0 == k;
        assert r[j].0 == k;
      } else if k == key {
        assert r[|t|].0 == k;
      }
      if HasKey(r, k) {
        var j :| 0 <= j < |r| && r[j].0 == k;
        if j < |t| {
          assert t[j].0 == k;
        }
      }
    }
  }

  lemma BumpCounts(t: Tally, seen: seq<string>, key: string)
    requires KeysDistinct(t)
    requires forall k :: k in seen <==> HasKey(t, k)
    requires forall i :: 0 <= i < |t| ==> t[i].1 == multiset(seen)[t[i].0]
    ensures forall i :: 0 <= i < |Bump(t, key)| ==> Bump(t, key)[i].1 == multiset(seen + [key])[Bump(t, key)[i].0]
  {
    BumpSpec(t, key);
    var r := Bump(t, key);
    assert multiset(seen + [key]) == multiset(seen) + multiset{key};
    forall i | 0 <= i < |r| ensures r[i].1 == multiset(seen + [key])[r[i].0] {
      if i < |t| {
        assert r[i].0 == t[i].0;
      } else {
        assert key !in seen;
      }
    }
  }

  /** Exactly the keys that occur appear. */
  lemma {:induction false} TallyOfKeys(keys: seq<string>)
    ensures forall k :: k in keys <==> HasKey(TallyOf(keys), k)
    decreases |keys|
  {
    if keys != [] {
      var init := keys[..|keys| - 1];
      TallyOfKeys(init);
      TallyOfDistinct(init);
      BumpKeys(TallyOf(init), init, keys[|keys| - 1]);
      assert keys == init + [keys[|keys| - 1]];
    }
  }

  /** Each key's count is its number of occurrences. */
  lemma {:induction false} TallyOfCounts(keys: seq<string>)
    ensures forall i :: 0 <= i < |TallyOf(keys)| ==> TallyOf(keys)[i].1 == multiset(keys)[TallyOf(keys)[i].0]
    decreases |keys|
  {
    if keys != [] {
      var init := keys[..|keys| - 1];
      TallyOfCounts(init);
      TallyOfKeys(init);
      TallyOfDistinct(init);
      BumpCounts(TallyOf(init), init, keys[|keys| - 1]);
      assert keys == init + [keys[|keys| - 1]];
    }
  }

  /** Inserts `x` before the first entry whose count is not larger. */
  function InsertByCount(x: (string, nat), t: Tally): Tally
    decreases |t|
  {
    if t == [] || t[0].1 <= x.1 then [x] + t
    else [t[0]] + InsertByCount(x, t[1..])
  }

  /** `sorted(d.items(), key=lambda x: x[1], reverse=True)`: by count,
      largest first; Python's sort is stable, also in reverse. */
  function SortByCount(t: Tally): Tally
    decreases |t|
  {
    if t == [] then [] else InsertByCount(t[0], SortByCount(t[1..]))
  }

  predicate CountsNonIncreasing(t: Tally) {
    forall i, j :: 0 <= i < j < |t| ==> t[i].1 >= t[j].1
  }

  /** The entries of `t` with count `c`, in order. */
  function WithCount(t: Tally, c: nat): Tally
    decreases |t|
  {
    if t == [] then [] else (if t[0].1 == c then [t[0]] else []) + WithCount(t[1..], c)
  }

  lemma {:induction false} InsertByCountPermutes(x: (string, nat), t: Tally)
    ensures multiset(InsertByCount(x, t)) == multiset(t) + multiset{x}
    decreases |t|
  {
    if t != [] && t[0].1 > x.1 {
      InsertByCountPermutes(x, t[1..]);
      assert t == [t[0]] + t[1..];
    }
  }

  lemma ConsNonIncreasing(y: (string, nat), t: Tally)
    requires CountsNonIncreasing(t)
    requires forall z :: z in t ==> z.1 <= y.1
    ensures CountsNonIncreasing([y] + t)
  {
    var u := [y] + t;
    forall i, j | 0 <= i < j < |u| ensures u[i].1 >= u[j].1 {
      if i == 0 {
        assert u[j] in t;
      }
    }
  }

  lemma {:induction false} InsertByCountSorted(x: (string, nat), t: Tally)
    requires CountsNonIncreasing(t)
    ensures CountsNonIncreasing(InsertByCount(x, t))
    decreases |t|
  {
    if t == [] || t[0].1 <= x.1 {
      forall z | z in t ensures z.1 <= x.1 {
        var k :| 0 <= k < |t| && t[k] == z;
      }
      ConsNonIncreasing(x, t);
    } else {
      var rest := t[1..];
      InsertByCountSorted(x, rest);
      InsertByCountPermutes(x, rest);
      forall z | z in InsertByCount(x, rest) ensures z.1 <= t[0].1 {
        assert z in multiset(InsertByCount(x, rest));
        if z != x {
          var k :| 0 <= k < |rest| && rest[k] == z;
          assert t[k + 1] == z;
        }
      }
      ConsNonIncreasing(t[0], InsertByCount(x, rest));
    }
  }

  lemma WithCountCons(y: (string, nat), t: Tally, c: nat)
    ensures WithCount([y] + t, c) == (if y.1 == c then [y] else []) + WithCount(t, c)
  {
    assert ([y] + t)[1..] == t;
  }

  /** The entries with any one count keep their order through an insertion. */
  lemma {:induction false} InsertByCountWithCount(x: (string, nat), t: Tally, c: nat)
    ensures WithCount(InsertByCount(x, t), c) == (if x.1 == c then [x] else []) + WithCount(t, c)
    decreases |t|
  {
    if t == [] || t[0].1 <= x.1 {
      WithCountCons(x, t, c);
    } else {
      var rest := t[1..];
      var inserted := InsertByCount(x, rest);
      assert InsertByCount(x, t) == [t[0]] + inserted;
      assert t == [t[0]] + rest;
      InsertByCountWithCount(x, rest, c);
      WithCountCons(t[0], inserted, c);
      WithCountCons(t[0], rest, c);
      if x.1 == c {
        assert t[0].1 != c;
        assert WithCount(InsertByCount(x, t), c) == [x] + WithCount(rest, c);
        assert WithCount(t, c) == WithCount(rest, c);
      } else {
        assert WithCount(inserted, c) == WithCount(rest, c);
      }
    }
  }

  /** Sorting orders the entries by count, largest first, keeps every
      entry, and keeps entries of equal count in their original order. */
  lemma {:induction false} SortByCountSpec(t: Tally)
    ensures CountsNonIncreasing(SortByCount(t))
    ensures multiset(SortByCount(t)) == multiset(t)
    ensures forall c :: WithCount(SortByCount(t), c) == WithCount(t, c)
    decreases |t|
  {
    if t != [] {
      var rest := SortByCount(t[1..]);
      SortByCountSpec(t[1..]);
      assert SortByCount(t) == InsertByCount(t[0], rest);
      assert CountsNonIncreasing(SortByCount(t)) by {
        InsertByCountSorted(t[0], rest);
      }
      assert t == [t[0]] + t[1..];
      assert multiset(SortByCount(t)) == multiset(t) by {
        InsertByCountPermutes(t[0], rest);
      }
      forall c ensures WithCount(SortByCount(t), c) == WithCount(t, c) {
        InsertByCountWithCount(t[0], rest, c);
      }
    }
  }

  /** The file type of each issue, in order. */
  function FileTypes(issues: seq<SecurityIssue>): (r: seq<string>)
    ensures |r| == |issues| && forall i :: 0 <= i < |r| ==> r[i] == issues[i].fileType
  {
    seq(|issues|, i requires 0 <= i < |issues| => issues[i].fileType)
  }

  /** The pattern name of each issue, in order. */
  function PatternNames(issues: seq<SecurityIssue>): (r: seq<string>)
    ensures |r| == |issues| && forall i :: 0 <= i < |r| ==> r[i] == issues[i].patternName
  {
    seq(|issues|, i requires 0 <= i < |issues| => issues[i].patternName)
  }

  /** `f"{key}: {count}{suffix}"` for each entry. */
  function TallyLines(t: Tally, suffix: string): (r: seq<string>)
    ensures |r| == |t|
    ensures forall i :: 0 <= i < |r| ==> r[i] == t[i].0 + ": " + Decimal(t[i].1) + suffix
  {
    seq(|t|, i requires 0 <= i < |t| => t[i].0 + ": " + Decimal(t[i].1) + suffix)
  }

  /** The lines of the statistics text (gui_scanner.py:242-255). */
  function StatsLines(fileTypes: Tally, patterns: Tally): seq<string> {
    ["File Type Statistics", Rule()] + TallyLines(fileTypes, " issues")
      + ["\nPattern Statistics", Rule()] + TallyLines(SortByCount(patterns), " occurrences")
  }

  /** The window's scan state: `SecurityScannerGUI` without its widgets. */
  class SecurityScannerGui {
    /** `current_issues` */
    var currentIssues: seq<SecurityIssue>
    /** The text of `summary_text`. */
    var summaryText: string
    /** The rows of `results_tree`. */
    var detailRows: seq<DetailRow>
    /** The text of `stats_text`. */
    var statsText: string
    /** The text of `context_viewer`. */
    var contextText: string

    /** `current_issues = []` (gui_scanner.py:138); the text widgets start empty. */
    constructor()
      ensures currentIssues == [] && detailRows == []
      ensures summaryText == "" && statsText == "" && contextText == ""
    {
      currentIssues := [];
      summaryText := "";
      detailRows := [];
      statsText := "";
      contextText := "";
    }

    /** `scan_completed` (gui_scanner.py:182-192): keep the issues and
        refresh the summary, the rows and the statistics. */
    method ScanCompleted(issues: seq<SecurityIssue>)
      modifies this
      ensures currentIssues == issues
      ensures summaryText == Join(SummaryLines(|issues|, SeverityCounts(issues)), "\n")
      ensures detailRows == Rows(issues)
      ensures statsText == Join(StatsLines(TallyOf(FileTypes(issues)), TallyOf(PatternNames(issues))), "\n")
      ensures contextText == old(contextText)
    {
      currentIssues := issues;
      UpdateSummary(issues);
      UpdateDetails(issues);
      UpdateStatistics(issues);
    }

    /** `update_summary` (gui_scanner.py:194-209). */
    method UpdateSummary(issues: seq<SecurityIssue>)
      modifies this
      ensures summaryText == Join(SummaryLines(|issues|, SeverityCounts(issues)), "\n")
      ensures currentIssues == old(currentIssues) && detailRows == old(detailRows)
      ensures statsText == old(statsText) && contextText == old(contextText)
    {
      var counts := CountSeverities(issues);
      summaryText := Join(SummaryLines(|issues|, counts), "\n");
    }

    /** The counting loop of `update_summary` (gui_scanner.py:196-199). */
    method CountSeverities(issues: seq<SecurityIssue>) returns (counts: map<Severity, nat>)
      ensures counts == SeverityCounts(issues)
    {
      counts := map[Low := 0, Medium := 0, High := 0, Critical := 0];
      var k := 0;
      while k < |issues|
        invariant k <= |issues|
        invariant counts == SeverityCounts(issues[..k])
      {
        SeverityCountsStep(issues, k);
        counts := counts[issues[k].severity := counts[issues[k].severity] + 1];
        k := k + 1;
      }
      assert issues[..k] == issues;
    }

    /** `update_details` (gui_scanner.py:211-231): one row per issue, in order. */
    method UpdateDetails(issues: seq<SecurityIssue>)
      modifies this
      ensures detailRows == Rows(issues)
      ensures currentIssues == old(currentIssues) && summaryText == old(summaryText)
      ensures statsText == old(statsText) && contextText == old(contextText)
    {
      var rows: seq<DetailRow> := [];
      var k := 0;
      while k < |issues|
        invariant k <= |issues|
        invariant rows == Rows(issues[..k])
      {
        rows := rows + [Row(issues[k])];
        k := k + 1;
      }
      assert issues[..k] == issues;
      detailRows := rows;
    }

    /** `update_statistics` (gui_scanner.py:233-257). */
    method UpdateStatistics(issues: seq<SecurityIssue>)
      modifies this
      ensures statsText == Join(StatsLines(TallyOf(FileTypes(issues)), TallyOf(PatternNames(issues))), "\n")
      ensures currentIssues == old(currentIssues) && summaryText == old(summaryText)
      ensures detailRows == old(detailRows) && contextText == old(contextText)
    {
      var fileTypes := CountKeys(FileTypes(issues));
      var patterns := CountKeys(PatternNames(issues));
      statsText := Join(StatsLines(fileTypes, patterns), "\n");
    }

    /** The counting loops of `update_statistics` (gui_scanner.py:238-240, 249-250). */
    method CountKeys(keys: seq<string>) returns (t: Tally)
      ensures t == TallyOf(keys)
    {
      t := [];
      var k := 0;
      while k < |keys|
        invariant k <= |keys|
        invariant t == TallyOf(keys[..k])
      {
        assert keys[..k + 1][..k] == keys[..k];
        t := Bump(t, keys[k]);
        k := k + 1;
      }
      assert keys[..k] == keys;
    }

    /** `show_context` (gui_scanner.py:259-267) for a click on `row`: the
        context of the first issue at the row's path and line; nothing
        changes when `int()` of the line text fails or no issue is there. */
    method ShowContext(row: DetailRow)
      modifies this
      ensures contextText == (match ParseDecimal(row.line)
        case None => old(contextText)
        case Some(n) => match FirstAt(currentIssues, row.filePath, n)
          case None => old(contextText)
          case Some(i) => currentIssues[i].context)
      ensures currentIssues == old(currentIssues) && summaryText == old(summaryText)
      ensures detailRows == old(detailRows) && statsText == old(statsText)
    {
      var line := ParseDecimal(row.line);
      if line.None? {
        return;
      }
      var k := 0;
      while k < |currentIssues|
        invariant k <= |currentIssues| && contextText == old(contextText)
        invariant forall j :: 0 <= j < k ==> !At(currentIssues[j], row.filePath, line.value)
        invariant currentIssues == old(currentIssues)
      {
        if currentIssues[k].filePath == row.filePath && currentIssues[k].lineNumber == line.value {
          assert FirstAt(currentIssues, row.filePath, line.value) == Some(k);
          contextText := currentIssues[k].context;
          return;
        }
        k := k + 1;
      }
      assert FirstAt(currentIssues, row.filePath, line.value).None?;
    }

    /** `filter_results` (gui_scanner.py:269-279): "All" shows every issue;
        any other choice shows the issues whose severity has that value. */
    method FilterResults(selected: string)
      modifies this
      ensures var shown := if selected == "All" then currentIssues else WithSeverityValue(currentIssues, selected);
        detailRows == Rows(shown)
      ensures currentIssues == old(currentIssues) && summaryText == old(summaryText)
      ensures statsText == old(statsText) && contextText == old(contextText)
    {
      if selected == "All" {
        UpdateDetails(currentIssues);
      } else {
        UpdateDetails(WithSeverityValue(currentIssues, selected));
      }
    }
  }
}
