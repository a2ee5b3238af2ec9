/** Small generic helpers shared by every part of the scanner model. */
module Common {

  /** The value a Python call returns, or None when the call raised. */
  datatype Option<+T> = None | Some(value: T) {
    function GetOr(default: T): T {
      if Some? then value else default
    }
  }

  /** The concatenation of a list of lists, in order: what a loop of
      `results.extend(part)` or `[x for part in parts for x in part]` builds. */
  function Flatten<T>(parts: seq<seq<T>>): seq<T>
    decreases |parts|
  {
    if parts == [] then [] else Flatten(parts[..|parts| - 1]) + parts[|parts| - 1]
  }

  /** The sum of the lengths of a list of lists. */
  function SumLengths<T>(parts: seq<seq<T>>): nat
    decreases |parts|
  {
    if parts == [] then 0 else SumLengths(parts[..|parts| - 1]) + |parts[|parts| - 1]|
  }

  lemma FlattenSnoc<T>(parts: seq<seq<T>>, last: seq<T>)
    ensures Flatten(parts + [last]) == Flatten(parts) + last
    ensures SumLengths(parts + [last]) == SumLengths(parts) + |last|
  {
    assert (parts + [last])[..|parts|] == parts;
  }

  /** Flattening keeps every element: its length is the sum of the lengths. */
  lemma {:induction false} FlattenLength<T>(parts: seq<seq<T>>)
    ensures |Flatten(parts)| == SumLengths(parts)
    decreases |parts|
  {
    if parts != [] {
      FlattenLength(parts[..|parts| - 1]);
    }
  }

  /** An element is in the flattening exactly when it is in one of the parts. */
  lemma {:induction false} FlattenMembership<T>(parts: seq<seq<T>>, x: T)
    ensures x in Flatten(parts) <==> exists i :: 0 <= i < |parts| && x in parts[i]
    decreases |parts|
  {
    if parts != [] {
      var init := parts[..|parts| - 1];
      FlattenMembership(init, x);
      if x in Flatten(parts) && x !in parts[|parts| - 1] {
        var i :| 0 <= i < |init| && x in init[i];
        assert x in parts[i];
      }
      if exists i :: 0 <= i < |parts| && x in parts[i] {
        var i :| 0 <= i < |parts| && x in parts[i];
        if i < |init| {
          assert x in init[i];
        }
      }
    }
  }

  function Max(a: int, b: int): int { if a < b then b else a }
  function Min(a: int, b: int): int { if a < b then a else b }
}
