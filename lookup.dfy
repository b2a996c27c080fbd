/**
  The governing-cycle lookup (`cycle_start_for_date` in
  scripts/generate_ics.py, built on Python's `bisect_right`).
 */
module Lookup {
  import opened Wrappers

  /** Non-decreasing, which is what `bisect_right` assumes of its list. */
  predicate Sorted(s: seq<int>) {
    forall i, j :: 0 <= i < j < |s| ==> s[i] <= s[j]
  }

  /** The last element of `s`, by position, that is at most `x`. */
  function LastAtMost(s: seq<int>, x: int): (r: Option<int>)
    ensures r.None? <==> forall i :: 0 <= i < |s| ==> s[i] > x
    ensures r.Some? ==> exists k :: 0 <= k < |s| && s[k] == r.value <= x
                                    && forall i :: k < i < |s| ==> s[i] > x
  {
    if s == [] then None
    else if s[|s| - 1] <= x then Some(s[|s| - 1])
    else
      var r := LastAtMost(s[..|s| - 1], x);
      assert forall i :: 0 <= i < |s| - 1 ==> s[..|s| - 1][i] == s[i];
      r
  }

  /**
    The start of the cycle that day `current` belongs to: the last start not
    after it; the first start when every start is later; `current` itself
    when there are no starts.
   */
  function GoverningStart(current: int, starts: seq<int>): int {
    if starts == [] then current
    else
      match LastAtMost(starts, current)
      case Some(s) => s
      case None => starts[0]
  }

  /** On a sorted list, the governing start is the greatest start not after the day. */
  lemma GoverningStartIsLatestStart(current: int, starts: seq<int>)
    requires Sorted(starts) && starts != []
    ensures GoverningStart(current, starts) in starts
    ensures starts[0] <= current ==> GoverningStart(current, starts) <= current
    ensures starts[0] <= current ==>
              forall i :: 0 <= i < |starts| && starts[i] <= current ==> starts[i] <= GoverningStart(current, starts)
    ensures current < starts[0] ==> GoverningStart(current, starts) == starts[0]
  {
    match LastAtMost(starts, current)
    case Some(s) =>
      var k :| 0 <= k < |starts| && starts[k] == s <= current
               && forall i :: k < i < |starts| ==> starts[i] > current;
      forall i | 0 <= i < |starts| && starts[i] <= current ensures starts[i] <= s {
        if i < k { assert starts[i] <= starts[k]; }
      }
    case None =>
  }

  /** Nothing in the list lies strictly between the governing start and the day. */
  lemma NoStartBetween(current: int, starts: seq<int>, i: int)
    requires Sorted(starts) && starts != []
    requires 0 <= i < |starts|
    ensures !(GoverningStart(current, starts) < starts[i] <= current)
  {
    GoverningStartIsLatestStart(current, starts);
  }

  /** Where the list switches from "at most x" to "above x", the last one at most x sits just before. */
  lemma {:induction false} LastAtMostAtBoundary(s: seq<int>, x: int, k: nat)
    requires k <= |s|
    requires forall i :: 0 <= i < k ==> s[i] <= x
    requires forall i :: k <= i < |s| ==> s[i] > x
    ensures LastAtMost(s, x) == if k == 0 then None else Some(s[k - 1])
    decreases |s|
  {
    if s != [] && k < |s| {
      var init := s[..|s| - 1];
      assert forall i :: 0 <= i < |init| ==> init[i] == s[i];
      LastAtMostAtBoundary(init, x, k);
    }
  }

  /** Python's `bisect_right(a, x)`: the index just past every element at most `x`. */
  method BisectRight(a: seq<int>, x: int) returns (lo: nat)
    requires Sorted(a)
    ensures lo <= |a|
    ensures forall i :: 0 <= i < lo ==> a[i] <= x
    ensures forall i :: lo <= i < |a| ==> a[i] > x
  {
    lo := 0;
    var hi := |a|;
    while lo < hi
      invariant 0 <= lo <= hi <= |a|
      invariant forall i :: 0 <= i < lo ==> a[i] <= x
      invariant forall i :: hi <= i < |a| ==> a[i] > x
    {
      var mid := (lo + hi) / 2;
      if x < a[mid] {
        hi := mid;
      } else {
        lo := mid + 1;
      }
    }
  }

  /** `cycle_start_for_date`: `bisect_right` minus one, with the two fallbacks. */
  method CycleStartForDate(current: int, starts: seq<int>) returns (s: int)
    requires Sorted(starts)
    ensures s == GoverningStart(current, starts)
  {
    if starts == [] {
      return current;
    }
    var after := BisectRight(starts, current);
    LastAtMostAtBoundary(starts, current, after);
    var index := (after as int) - 1;
    if index < 0 {
      return starts[0];
    }
    return starts[index];
  }
}
