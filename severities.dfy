/** The severity scale both scanners share (scanner_core.py and
    scan_engine.py each declare the same four-member enum). */
module Severities {
  import opened Common

  datatype Severity = Low | Medium | High | Critical {
    /** `severity.value` */
    function Value(): string {
      match this
      case Low => "LOW"
      case Medium => "MEDIUM"
      case High => "HIGH"
      case Critical => "CRITICAL"
    }

    /** The position of the member in the enum's declaration order. */
    function Rank(): nat {
      match this
      case Low => 0
      case Medium => 1
      case High => 2
      case Critical => 3
    }
  }

  /** `for severity in Severity`: the members in declaration order. */
  const AllSeverities: seq<Severity> := [Low, Medium, High, Critical]

  /** Every severity appears in the enum iteration exactly once, at its rank. */
  lemma AllSeveritiesInOrder()
    ensures |AllSeverities| == 4
    ensures forall k :: 0 <= k < |AllSeverities| ==> AllSeverities[k].Rank() == k
    ensures forall s: Severity :: AllSeverities[s.Rank()] == s
  {
  }

  /** `.value` tells the members apart, so a filter on the displayed
      value selects exactly one severity. */
  lemma ValueInjective(a: Severity, b: Severity)
    ensures a.Value() == b.Value() <==> a == b
  {
  }

  /** The severity whose `.value` is `v`, if any. */
  function FromValue(v: string): (r: Option<Severity>)
    ensures r.Some? ==> r.value.Value() == v
    ensures r.None? ==> forall s: Severity :: s.Value() != v
  {
    if v == "LOW" then Some(Low)
    else if v == "MEDIUM" then Some(Medium)
    else if v == "HIGH" then Some(High)
    else if v == "CRITICAL" then Some(Critical)
    else None
  }

  /** The breakdown lines of a summary: `(severity, count)` for the
      severities of `order` whose count is present and non-zero. */
  function BreakdownOf(order: seq<Severity>, counts: map<Severity, nat>): seq<(Severity, nat)>
    decreases |order|
  {
    if order == [] then []
    else
      var s := order[|order| - 1];
      BreakdownOf(order[..|order| - 1], counts)
        + (if s in counts && counts[s] > 0 then [(s, counts[s])] else [])
  }

  /** The severity summary both front ends print: every non-zero count,
      in enum order (scanner_core.py:258-261, gui_scanner.py:205-207). */
  function Breakdown(counts: map<Severity, nat>): seq<(Severity, nat)> {
    BreakdownOf(AllSeverities, counts)
  }

  lemma {:induction false} BreakdownOfMembers(order: seq<Severity>, counts: map<Severity, nat>, e: (Severity, nat))
    ensures e in BreakdownOf(order, counts) <==> e.0 in order && e.0 in counts && e.1 == counts[e.0] && e.1 > 0
    decreases |order|
  {
    if order != [] {
      var init := order[..|order| - 1];
      BreakdownOfMembers(init, counts, e);
      assert order == init + [order[|order| - 1]];
    }
  }

  /** Severities listed strictly in enum order. */
  predicate RanksIncreasing(r: seq<(Severity, nat)>) {
    forall i, j :: 0 <= i < j < |r| ==> r[i].0.Rank() < r[j].0.Rank()
  }

  lemma {:induction false} BreakdownOfOrdered(order: seq<Severity>, counts: map<Severity, nat>)
    requires forall i, j :: 0 <= i < j < |order| ==> order[i].Rank() < order[j].Rank()
    ensures RanksIncreasing(BreakdownOf(order, counts))
    ensures forall e :: e in BreakdownOf(order, counts) ==> e.0.Rank() <= order[|order| - 1].Rank()
    decreases |order|
  {
    if order != [] {
      var init := order[..|order| - 1];
      var r0, r := BreakdownOf(init, counts), BreakdownOf(order, counts);
      BreakdownOfOrdered(init, counts);
      var last := order[|order| - 1];
      assert r == r0 + (if last in counts && counts[last] > 0 then [(last, counts[last])] else []);
      forall i, j | 0 <= i < j < |r| ensures r[i].0.Rank() < r[j].0.Rank() {
        if j < |r0| {
          assert r[i] == r0[i] && r[j] == r0[j];
          assert r0[i].0.Rank() < r0[j].0.Rank();
        } else {
          assert r[i] == r0[i] && r0[i] in r0;
          assert r0[i].0.Rank() <= init[|init| - 1].Rank();
          assert r[j].0 == order[|order| - 1];
          assert init[|init| - 1].Rank() < order[|order| - 1].Rank();
        }
      }
    }
  }

  /** The summary lists a severity exactly when its count is non-zero,
      with that count, and strictly in enum order. */
  lemma BreakdownSpec(counts: map<Severity, nat>)
    ensures forall e :: e in Breakdown(counts) <==> e.0 in counts && e.1 == counts[e.0] && e.1 > 0
    ensures RanksIncreasing(Breakdown(counts))
  {
    AllSeveritiesInOrder();
    forall e ensures e in Breakdown(counts) <==> e.0 in counts && e.1 == counts[e.0] && e.1 > 0 {
      BreakdownOfMembers(AllSeverities, counts, e);
      assert AllSeverities[e.0.Rank()] == e.0;
    }
    BreakdownOfOrdered(AllSeverities, counts);
  }
}
