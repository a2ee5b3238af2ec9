/** The window of source lines both scanners show around a finding:
    `lines[start:end]` with `start = max(0, n - c - 1)` and
    `end = min(len(lines), n + c)` for line `n` and `c` lines of context
    (scanner_core.py:137-141, scan_engine.py:62-65). */
module ContextWindow {
  import opened Common
  import opened Strings
  import opened Lines

  /** `max(0, line_number - context_lines - 1)`: the 0-based index of the first line shown. */
  function WindowStart(n: nat, c: nat): nat {
    Max(0, n - c - 1)
  }

  /** `min(len(lines), line_number + context_lines)`: one past the last line shown. */
  function WindowEnd(n: nat, c: nat, count: nat): nat {
    Min(count, n + c)
  }

  /** Python's `lines[start:end]` for these bounds: empty when `end <= start`. */
  function Window(lines: seq<string>, n: nat, c: nat): (w: seq<string>)
    ensures var start, end := WindowStart(n, c), WindowEnd(n, c, |lines|);
      |w| == (if start < end then end - start else 0)
      && forall k :: 0 <= k < |w| ==> w[k] == lines[start + k]
  {
    var start, end := WindowStart(n, c), WindowEnd(n, c, |lines|);
    if start < end then lines[start..end] else []
  }

  /** The window never holds more than `2c + 1` lines, and it holds line
      `n` (at its offset from the first line shown) whenever `n` is a line
      of the text. */
  lemma WindowBounds(lines: seq<string>, n: nat, c: nat)
    ensures |Window(lines, n, c)| <= 2 * c + 1
    ensures 1 <= n <= |lines| ==>
      WindowStart(n, c) < n && n - 1 - WindowStart(n, c) < |Window(lines, n, c)|
      && Window(lines, n, c)[n - 1 - WindowStart(n, c)] == lines[n - 1]
  {
  }

  /** Every line of the window of `content.splitlines()` is free of line breaks. */
  lemma WindowHasNoNewline(content: string, n: nat, c: nat)
    ensures forall k :: 0 <= k < |Window(SplitLines(content), n, c)| ==> Lacks(Window(SplitLines(content), n, c)[k], '\n')
  {
    var lines := SplitLines(content);
    var w := Window(lines, n, c);
    SplitLinesHaveNoBoundary(content);
    forall k | 0 <= k < |w| ensures Lacks(w[k], '\n') {
      assert w[k] == lines[WindowStart(n, c) + k];
      forall j | 0 <= j < |w[k]| ensures w[k][j] != '\n' {
        assert !IsLineBoundary(lines[WindowStart(n, c) + k][j]);
      }
    }
  }
}
