/** Line structure of a file's text: Python's `str.splitlines()`, the
    universal-newline translation of text-mode reads, and the line number
    the scanners derive from a match offset by counting '\n'. */
module Lines {
  import opened Common
  import opened Strings

  /** The characters at which `str.splitlines()` ends a line. */
  predicate IsLineBoundary(c: char) {
    c == '\n' || c == '\r' || c == '\U{0B}' || c == '\U{0C}' || c == '\U{1C}' || c == '\U{1D}'
    || c == '\U{1E}' || c == '\U{85}' || c == '\U{2028}' || c == '\U{2029}'
  }

  /** Text whose only line boundary character is '\n' (no form feed,
      vertical tab, '\r', U+2028, ...). */
  predicate OnlyNewlineBreaks(s: string) {
    forall k :: 0 <= k < |s| && IsLineBoundary(s[k]) ==> s[k] == '\n'
  }

  /** The index of the first line boundary in `s` at or after `from`, or |s| if there is none. */
  function FirstBoundaryFrom(s: string, from: nat): (i: nat)
    requires from <= |s|
    ensures from <= i <= |s|
    ensures i < |s| ==> IsLineBoundary(s[i])
    decreases |s| - from
  {
    if from == |s| || IsLineBoundary(s[from]) then from else FirstBoundaryFrom(s, from + 1)
  }

  /** The index of the first line boundary in `s`, or |s| if there is none. */
  function FirstBoundary(s: string): (i: nat)
    ensures i <= |s|
    ensures i < |s| ==> IsLineBoundary(s[i])
  {
    FirstBoundaryFrom(s, 0)
  }

  lemma {:induction false} BeforeFirstBoundaryFrom(s: string, from: nat, k: nat)
    requires from <= |s| && from <= k < FirstBoundaryFrom(s, from)
    ensures !IsLineBoundary(s[k])
    decreases |s| - from
  {
    if from < k {
      BeforeFirstBoundaryFrom(s, from + 1, k);
    }
  }

  /** No character before the first boundary is a boundary. */
  lemma BeforeFirstBoundary(s: string, k: nat)
    requires k < FirstBoundary(s)
    ensures !IsLineBoundary(s[k])
  {
    BeforeFirstBoundaryFrom(s, 0, k);
  }

  lemma {:induction false} FirstBoundaryFromAt(s: string, from: nat, i: nat)
    requires from <= i < |s| && IsLineBoundary(s[i])
    requires forall k :: from <= k < i ==> !IsLineBoundary(s[k])
    ensures FirstBoundaryFrom(s, from) == i
    decreases i - from
  {
    if from < i {
      FirstBoundaryFromAt(s, from + 1, i);
    }
  }

  /** The first boundary is the boundary that nothing before it precedes. */
  lemma FirstBoundaryAt(s: string, i: nat)
    requires i < |s| && IsLineBoundary(s[i])
    requires forall k :: 0 <= k < i ==> !IsLineBoundary(s[k])
    ensures FirstBoundary(s) == i
  {
    FirstBoundaryFromAt(s, 0, i);
  }

  /** The length of the line break at `i`: "\r\n" is one break of two characters. */
  function BreakWidth(s: string, i: nat): nat
    requires i < |s|
  {
    if s[i] == '\r' && i + 1 < |s| && s[i + 1] == '\n' then 2 else 1
  }

  /** `s.splitlines()`: the lines of `s` without their breaks; a final
      break does not start an empty last line, and "" has no lines. */
  function SplitLines(s: string): seq<string>
    decreases |s|
  {
    if s == [] then []
    else
      var i := FirstBoundary(s);
      if i == |s| then [s] else [s[..i]] + SplitLines(s[i + BreakWidth(s, i)..])
  }

  /** No line of `splitlines()` holds a line boundary. */
  lemma {:induction false} SplitLinesHaveNoBoundary(s: string)
    ensures forall k, j :: 0 <= k < |SplitLines(s)| && 0 <= j < |SplitLines(s)[k]| ==> !IsLineBoundary(SplitLines(s)[k][j])
    decreases |s|
  {
    if s != [] {
      var i := FirstBoundary(s);
      var lines := SplitLines(s);
      if i == |s| {
        forall j | 0 <= j < |s| ensures !IsLineBoundary(s[j]) {
          BeforeFirstBoundary(s, j);
        }
      } else {
        var rest := s[i + BreakWidth(s, i)..];
        SplitLinesStep(s);
        SplitLinesHaveNoBoundary(rest);
        forall k, j | 0 <= k < |lines| && 0 <= j < |lines[k]| ensures !IsLineBoundary(lines[k][j]) {
          if k == 0 {
            assert lines[0][j] == s[j];
            BeforeFirstBoundary(s, j);
          } else {
            assert lines[k] == SplitLines(rest)[k - 1];
          }
        }
      }
    }
  }

  /** The line number both scanners report for a match starting at `pos`:
      `content[:pos].count('\n') + 1` (scanner_core.py:175, scan_engine.py:101). */
  function LineNumberAt(content: string, pos: nat): (n: nat)
    requires pos <= |content|
    ensures n >= 1
  {
    CountChar(content[..pos], '\n') + 1
  }

  /** The line number lies between 1 and the number of '\n'-terminated
      lines plus one, and never decreases as the offset grows. */
  lemma LineNumberBounds(content: string, pos: nat, pos': nat)
    requires pos <= pos' <= |content|
    ensures 1 <= LineNumberAt(content, pos) <= LineNumberAt(content, pos') <= CountChar(content, '\n') + 1
  {
    CountCharPrefixMonotone(content, pos, pos', '\n');
    CountCharPrefixMonotone(content, pos', |content|, '\n');
    assert content[..|content|] == content;
  }

  lemma CountCharSnoc(s: string, i: nat, c: char)
    requires i < |s|
    ensures CountChar(s[..i + 1], c) == CountChar(s[..i], c) + (if s[i] == c then 1 else 0)
  {
    assert s[..i + 1][..i] == s[..i];
  }

  /** One step of `splitlines()`: the first line, then the lines after its break. */
  lemma SplitLinesStep(s: string)
    requires FirstBoundary(s) < |s|
    ensures SplitLines(s) == [s[..FirstBoundary(s)]] + SplitLines(s[FirstBoundary(s) + BreakWidth(s, FirstBoundary(s))..])
  {
  }

  /** Up to the first boundary there is no '\n'. */
  lemma NoNewlineBeforeBoundary(s: string, p: nat)
    requires p <= FirstBoundary(s)
    ensures CountChar(s[..p], '\n') == 0
  {
    forall k | 0 <= k < p ensures s[..p][k] != '\n' {
      BeforeFirstBoundary(s, k);
    }
    CountCharAbsent(s[..p], '\n');
  }

  /** Before the first break there is no '\n', and the break itself holds at most one. */
  lemma NewlinesInFirstBreak(s: string, pos: nat)
    requires FirstBoundary(s) < |s|
    requires pos <= |s|
    ensures var e := FirstBoundary(s) + BreakWidth(s, FirstBoundary(s));
      e <= |s| && CountChar(s[..e], '\n') <= 1 && (pos < e ==> CountChar(s[..pos], '\n') == 0)
  {
    var i := FirstBoundary(s);
    var e := i + BreakWidth(s, i);
    NoNewlineBeforeBoundary(s, i);
    CountCharSnoc(s, i, '\n');
    if e == i + 2 {
      CountCharSnoc(s, i + 1, '\n');
    }
    if pos <= i {
      NoNewlineBeforeBoundary(s, pos);
    } else if pos < e {
      assert pos == i + 1 && s[i] == '\r';
      assert CountChar(s[..pos], '\n') == 0;
    }
  }

  /** `content.splitlines()[line_number - 1]` (scan_engine.py:102) never
      raises IndexError for a match that starts inside the content: every
      '\n' before the match closes a distinct line, and the match itself
      starts one more. */
  lemma {:induction false} LineLookupInRange(s: string, pos: nat)
    requires pos < |s|
    ensures LineNumberAt(s, pos) <= |SplitLines(s)|
    decreases |s|
  {
    var i := FirstBoundary(s);
    if i == |s| {
      NoNewlineBeforeBoundary(s, pos);
    } else {
      var e := i + BreakWidth(s, i);
      var rest := s[e..];
      SplitLinesStep(s);
      NewlinesInFirstBreak(s, pos);
      if pos >= e {
        var q := pos - e;
        assert s[..pos] == s[..e] + rest[..q];
        CountCharAppend(s[..e], rest[..q], '\n');
        LineLookupInRange(rest, q);
      }
    }
  }

  /** The start of the '\n'-delimited line holding offset `p`. */
  function LineStartAt(s: string, p: nat): (i: nat)
    requires p <= |s|
    ensures i <= p
    ensures i == 0 || s[i - 1] == '\n'
    decreases p
  {
    if p == 0 then 0 else if s[p - 1] == '\n' then p else LineStartAt(s, p - 1)
  }

  /** The end (exclusive, before its '\n') of the line holding offset `p`. */
  function LineEndAt(s: string, p: nat): (j: nat)
    requires p <= |s|
    ensures p <= j <= |s|
    ensures j == |s| || s[j] == '\n'
    decreases |s| - p
  {
    if p == |s| || s[p] == '\n' then p else LineEndAt(s, p + 1)
  }

  /** The text of the source line on which offset `p` lies, without its '\n'. */
  function PhysicalLine(s: string, p: nat): string
    requires p <= |s|
  {
    s[LineStartAt(s, p)..LineEndAt(s, p)]
  }

  lemma {:induction false} LineStartClear(s: string, p: nat, k: nat)
    requires p <= |s| && LineStartAt(s, p) <= k < p
    ensures s[k] != '\n'
    decreases p
  {
    if k < p - 1 {
      LineStartClear(s, p - 1, k);
    }
  }

  lemma {:induction false} LineEndClear(s: string, p: nat, k: nat)
    requires p <= |s| && p <= k < LineEndAt(s, p)
    ensures s[k] != '\n'
    decreases |s| - p
  {
    if p < k {
      LineEndClear(s, p + 1, k);
    }
  }

  /** A physical line holds no '\n'. */
  lemma PhysicalLineHasNoNewline(s: string, p: nat)
    requires p <= |s|
    ensures forall k :: 0 <= k < |PhysicalLine(s, p)| ==> PhysicalLine(s, p)[k] != '\n'
  {
    var a, b := LineStartAt(s, p), LineEndAt(s, p);
    forall k | 0 <= k < |PhysicalLine(s, p)| ensures PhysicalLine(s, p)[k] != '\n' {
      assert PhysicalLine(s, p)[k] == s[a + k];
      if a + k < p {
        LineStartClear(s, p, a + k);
      } else {
        LineEndClear(s, p, a + k);
      }
    }
  }

  lemma {:induction false} LineStartShift(s: string, i: nat, q: nat)
    requires i < |s| && s[i] == '\n' && q <= |s| - (i + 1)
    ensures LineStartAt(s, i + 1 + q) == i + 1 + LineStartAt(s[i + 1..], q)
    decreases q
  {
    if q > 0 {
      assert s[i + 1..][q - 1] == s[i + q];
      LineStartShift(s, i, q - 1);
    }
  }

  lemma {:induction false} LineEndShift(s: string, i: nat, q: nat)
    requires i < |s| && q <= |s| - (i + 1)
    ensures LineEndAt(s, i + 1 + q) == i + 1 + LineEndAt(s[i + 1..], q)
    decreases |s| - (i + 1) - q
  {
    if q < |s| - (i + 1) {
      assert s[i + 1..][q] == s[i + 1 + q];
      LineEndShift(s, i, q + 1);
    }
  }

  /** The line of an offset past a first '\n' break is its line in the rest of the text. */
  lemma PhysicalLineAfterFirstBreak(s: string, pos: nat)
    requires FirstBoundary(s) < pos <= |s| && s[FirstBoundary(s)] == '\n'
    ensures PhysicalLine(s, pos) == PhysicalLine(s[FirstBoundary(s) + 1..], pos - FirstBoundary(s) - 1)
  {
    PhysicalLineShift(s, FirstBoundary(s), pos - FirstBoundary(s) - 1);
  }

  lemma PhysicalLineShift(s: string, i: nat, q: nat)
    requires i < |s| && s[i] == '\n' && q <= |s| - (i + 1)
    ensures PhysicalLine(s, i + 1 + q) == PhysicalLine(s[i + 1..], q)
  {
    var rest := s[i + 1..];
    LineStartShift(s, i, q);
    LineEndShift(s, i, q);
    var a, b := LineStartAt(rest, q), LineEndAt(rest, q);
    assert rest[a..b] == s[i + 1 + a..i + 1 + b];
  }

  lemma {:induction false} LineStartInFirstLine(s: string, p: nat)
    requires p <= FirstBoundary(s)
    ensures LineStartAt(s, p) == 0
    decreases p
  {
    if p > 0 {
      BeforeFirstBoundary(s, p - 1);
      LineStartInFirstLine(s, p - 1);
    }
  }

  lemma {:induction false} LineEndInFirstLine(s: string, p: nat)
    requires p <= FirstBoundary(s)
    requires FirstBoundary(s) == |s| || s[FirstBoundary(s)] == '\n'
    ensures LineEndAt(s, p) == FirstBoundary(s)
    decreases FirstBoundary(s) - p
  {
    if p < FirstBoundary(s) {
      BeforeFirstBoundary(s, p);
      LineEndInFirstLine(s, p + 1);
    }
  }

  /** The lookup for a match on the first line. */
  lemma LookupOnFirstLine(s: string, pos: nat)
    requires pos < |s| && pos <= FirstBoundary(s)
    requires FirstBoundary(s) == |s| || s[FirstBoundary(s)] == '\n'
    ensures LineNumberAt(s, pos) == 1 <= |SplitLines(s)|
    ensures SplitLines(s)[0] == PhysicalLine(s, pos)
  {
    var i := FirstBoundary(s);
    NoNewlineBeforeBoundary(s, pos);
    LineStartInFirstLine(s, pos);
    LineEndInFirstLine(s, pos);
    if i == |s| {
      assert SplitLines(s) == [s];
      assert PhysicalLine(s, pos) == s[0..|s|] == s;
    } else {
      SplitLinesStep(s);
      assert PhysicalLine(s, pos) == s[..i];
    }
  }

  /** A '\n' first break adds exactly one to the line number of every later offset. */
  lemma LineNumberAfterFirstBreak(s: string, pos: nat)
    requires FirstBoundary(s) < pos <= |s| && s[FirstBoundary(s)] == '\n'
    ensures LineNumberAt(s, pos) == LineNumberAt(s[FirstBoundary(s) + 1..], pos - FirstBoundary(s) - 1) + 1
  {
    var i := FirstBoundary(s);
    var rest := s[i + 1..];
    var q := pos - (i + 1);
    assert s[..pos] == s[..i + 1] + rest[..q];
    CountCharAppend(s[..i + 1], rest[..q], '\n');
    NoNewlineBeforeBoundary(s, i);
    CountCharSnoc(s, i, '\n');
  }

  /** After a first break of one character, line `n` of the rest is line `n + 1` of the whole. */
  lemma SplitLinesAfterFirstBreak(s: string, n: nat)
    requires FirstBoundary(s) < |s| && BreakWidth(s, FirstBoundary(s)) == 1
    requires 1 <= n <= |SplitLines(s[FirstBoundary(s) + 1..])|
    ensures n + 1 <= |SplitLines(s)| && SplitLines(s)[n] == SplitLines(s[FirstBoundary(s) + 1..])[n - 1]
  {
    SplitLinesStep(s);
  }

  lemma OnlyNewlineBreaksSuffix(s: string, from: nat)
    requires OnlyNewlineBreaks(s) && from <= |s|
    ensures OnlyNewlineBreaks(s[from..])
  {
    var rest := s[from..];
    forall k | 0 <= k < |rest| && IsLineBoundary(rest[k]) ensures rest[k] == '\n' {
      assert rest[k] == s[from + k];
    }
  }

  /** The lookup for a match after the first '\n': one more line than in the rest of the text. */
  lemma {:induction false} LookupOnLaterLine(s: string, pos: nat)
    requires OnlyNewlineBreaks(s)
    requires FirstBoundary(s) < pos < |s|
    ensures LineNumberAt(s, pos) <= |SplitLines(s)|
    ensures SplitLines(s)[LineNumberAt(s, pos) - 1] == PhysicalLine(s, pos)
    decreases |s|, 0
  {
    var i := FirstBoundary(s);
    assert s[i] == '\n';
    assert BreakWidth(s, i) == 1;
    var rest, q := s[i + 1..], pos - (i + 1);
    OnlyNewlineBreaksSuffix(s, i + 1);
    LookupIsPhysicalLine(rest, q);
    var n := LineNumberAt(rest, q);
    LineNumberAfterFirstBreak(s, pos);
    assert LineNumberAt(s, pos) == n + 1;
    SplitLinesAfterFirstBreak(s, n);
    assert SplitLines(s)[n] == SplitLines(rest)[n - 1] == PhysicalLine(rest, q);
    PhysicalLineAfterFirstBreak(s, pos);
  }

  /** Where '\n' is the only line break, the line `scan_engine.py:102`
      looks up for a match is the source line the match starts on: the
      two notions of "line" (splitlines and counting '\n') agree. */
  lemma {:induction false} LookupIsPhysicalLine(s: string, pos: nat)
    requires OnlyNewlineBreaks(s)
    requires pos < |s|
    ensures LineNumberAt(s, pos) <= |SplitLines(s)|
    ensures SplitLines(s)[LineNumberAt(s, pos) - 1] == PhysicalLine(s, pos)
    decreases |s|, 1
  {
    var i := FirstBoundary(s);
    if pos <= i {
      LookupOnFirstLine(s, pos);
    } else {
      LookupOnLaterLine(s, pos);
    }
  }

  /** Python's universal-newline translation on a text-mode read: "\r\n"
      and a lone '\r' both become '\n'. */
  function TranslateNewlines(s: string): (r: string)
    ensures |r| <= |s|
    decreases |s|
  {
    if s == [] then []
    else if s[0] == '\r' then
      "\n" + TranslateNewlines(if |s| > 1 && s[1] == '\n' then s[2..] else s[1..])
    else [s[0]] + TranslateNewlines(s[1..])
  }

  /** A text-mode read leaves no '\r' in the content. */
  lemma {:induction false} TranslateLeavesNoCarriageReturn(s: string, k: nat)
    requires k < |TranslateNewlines(s)|
    ensures TranslateNewlines(s)[k] != '\r'
    decreases |s|
  {
    var rest := if s[0] == '\r' && |s| > 1 && s[1] == '\n' then s[2..] else s[1..];
    var head := if s[0] == '\r' then '\n' else s[0];
    assert TranslateNewlines(s) == [head] + TranslateNewlines(rest);
    if k > 0 {
      TranslateLeavesNoCarriageReturn(rest, k - 1);
    }
  }

  lemma {:induction false} TranslateKeepsPrefix(a: string, b: string)
    requires forall k :: 0 <= k < |a| ==> a[k] != '\r'
    ensures TranslateNewlines(a + b) == a + TranslateNewlines(b)
    decreases |a|
  {
    if a == [] {
      assert a + b == b;
    } else {
      assert (a + b)[1..] == a[1..] + b;
      TranslateKeepsPrefix(a[1..], b);
      assert [a[0]] + a[1..] == a;
    }
  }

  /** Nothing before the first boundary is a '\r'. */
  lemma NoCarriageReturnBeforeBoundary(s: string)
    ensures forall k :: 0 <= k < FirstBoundary(s) ==> s[k] != '\r'
  {
    forall k | 0 <= k < FirstBoundary(s) ensures s[k] != '\r' {
      BeforeFirstBoundary(s, k);
    }
  }

  /** A text that starts with a break loses that break to one character
      that is not '\r'. */
  lemma TranslateLeadingBreak(tail: string)
    requires tail != [] && IsLineBoundary(tail[0])
    ensures TranslateNewlines(tail)
      == [if tail[0] == '\r' then '\n' else tail[0]] + TranslateNewlines(tail[BreakWidth(tail, 0)..])
  {
  }

  /** Splitting `head + ([c] + rest)` back into its three parts. */
  lemma SplitAround(head: string, c: char, rest: string)
    ensures var t := head + ([c] + rest);
      |head| < |t| && t[..|head|] == head && t[|head|] == c && t[|head| + 1..] == rest
  {
  }

  /** Translation keeps the text before the first boundary unchanged. */
  lemma TranslateBeforeBoundary(s: string)
    ensures var i := FirstBoundary(s); TranslateNewlines(s) == s[..i] + TranslateNewlines(s[i..])
  {
    var i := FirstBoundary(s);
    var head, tail := s[..i], s[i..];
    assert s == head + tail;
    forall k | 0 <= k < |head| ensures head[k] != '\r' {
      BeforeFirstBoundary(s, k);
    }
    TranslateKeepsPrefix(head, tail);
  }

  /** Translation rewrites the first boundary to one character. */
  lemma TranslateAtBoundary(s: string)
    requires FirstBoundary(s) < |s|
    ensures var i := FirstBoundary(s);
      TranslateNewlines(s[i..])
      == [if s[i] == '\r' then '\n' else s[i]] + TranslateNewlines(s[i + BreakWidth(s, i)..])
  {
    var i := FirstBoundary(s);
    var tail := s[i..];
    var w := BreakWidth(s, i);
    assert tail[0] == s[i];
    assert BreakWidth(tail, 0) == w;
    assert tail[w..] == s[i + w..];
    TranslateLeadingBreak(tail);
  }

  /** Translating a text with a break rewrites that break to one character
      and keeps the first line as it is. */
  lemma TranslateAroundBreak(s: string)
    requires FirstBoundary(s) < |s|
    ensures var i := FirstBoundary(s);
      TranslateNewlines(s)
      == s[..i] + ([if s[i] == '\r' then '\n' else s[i]] + TranslateNewlines(s[i + BreakWidth(s, i)..]))
  {
    TranslateBeforeBoundary(s);
    TranslateAtBoundary(s);
  }

  /** Translating a text with a break: the first line is kept, its break
      becomes one character that is not '\r', and the rest is translated. */
  lemma TranslateFirstBreak(s: string)
    requires FirstBoundary(s) < |s|
    ensures var i := FirstBoundary(s); var t := TranslateNewlines(s);
      i < |t| && t[..i] == s[..i] && IsLineBoundary(t[i]) && t[i] != '\r'
      && t[i + 1..] == TranslateNewlines(s[i + BreakWidth(s, i)..])
  {
    var i := FirstBoundary(s);
    var c := if s[i] == '\r' then '\n' else s[i];
    TranslateAroundBreak(s);
    SplitAround(s[..i], c, TranslateNewlines(s[i + BreakWidth(s, i)..]));
  }

  /** The first boundary survives translation at the same index. */
  lemma TranslateFirstBoundary(s: string)
    requires FirstBoundary(s) < |s|
    ensures FirstBoundary(TranslateNewlines(s)) == FirstBoundary(s)
  {
    var i := FirstBoundary(s);
    var t := TranslateNewlines(s);
    TranslateFirstBreak(s);
    forall k | 0 <= k < i ensures !IsLineBoundary(t[k]) {
      assert t[k] == t[..i][k] == s[k];
      BeforeFirstBoundary(s, k);
    }
    FirstBoundaryAt(t, i);
  }

  /** Reading in text mode does not change the lines `splitlines()` sees:
      it only rewrites breaks, so a Windows or classic-Mac file has the
      same lines as its translation, whose breaks '\n' counting sees. */
  lemma {:induction false} TranslateKeepsLines(s: string)
    ensures SplitLines(TranslateNewlines(s)) == SplitLines(s)
    decreases |s|
  {
    var t := TranslateNewlines(s);
    var i := FirstBoundary(s);
    if s == [] {
    } else if i == |s| {
      NoCarriageReturnBeforeBoundary(s);
      TranslateKeepsPrefix(s, []);
      assert s + [] == s;
    } else {
      var rest := s[i + BreakWidth(s, i)..];
      TranslateFirstBreak(s);
      TranslateFirstBoundary(s);
      assert BreakWidth(t, i) == 1;
      SplitLinesStep(s);
      SplitLinesStep(t);
      TranslateKeepsLines(rest);
    }
  }
}
