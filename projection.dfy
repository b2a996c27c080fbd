/**
  The cycle-start list of `generate_one` (scripts/generate_ics.py): the
  known starts, deduplicated and sorted, followed by starts projected every
  `cycleLength` days from the last known one up to the end of the range.
 */
module Projection {
  import opened Wrappers
  import opened Ordering

  /** The dates among `items` that parse, in order; the others are skipped. */
  function ParsedDates(items: seq<string>, parse: string -> Option<int>): (r: seq<int>)
    ensures |r| <= |items|
  {
    if items == [] then []
    else
      var prev := ParsedDates(items[..|items| - 1], parse);
      match parse(items[|items| - 1])
      case Some(d) => prev + [d]
      case None => prev
  }

  /** Every parsed date comes from an item, and every item that parses contributes its date. */
  lemma {:induction false} ParsedDatesElems(items: seq<string>, parse: string -> Option<int>, d: int)
    ensures d in ParsedDates(items, parse) <==> exists i :: 0 <= i < |items| && parse(items[i]) == Some(d)
  {
    if items != [] {
      var init := items[..|items| - 1];
      ParsedDatesElems(init, parse, d);
      if exists i :: 0 <= i < |items| && parse(items[i]) == Some(d) {
        var i :| 0 <= i < |items| && parse(items[i]) == Some(d);
        if i < |init| {
          assert init[i] == items[i];
        }
      }
      if exists i :: 0 <= i < |init| && parse(init[i]) == Some(d) {
        var i :| 0 <= i < |init| && parse(init[i]) == Some(d);
        assert items[i] == init[i];
      }
    }
  }

  /** Lines 299-304: the last period start, then every history entry that parses. */
  method CollectStarts(lastPeriodStart: int, history: seq<string>, parse: string -> Option<int>)
    returns (starts: seq<int>)
    ensures starts == [lastPeriodStart] + ParsedDates(history, parse)
  {
    starts := [lastPeriodStart];
    var i := 0;
    while i < |history|
      invariant 0 <= i <= |history|
      invariant starts == [lastPeriodStart] + ParsedDates(history[..i], parse)
    {
      assert history[..i + 1][..i] == history[..i];
      match parse(history[i]) {
        case Some(d) => starts := starts + [d];
        case None =>
      }
      i := i + 1;
    }
    assert history[..i] == history;
  }

  /** Line 305: `sorted(set(cycle_starts))`. */
  function KnownStarts(lastPeriodStart: int, history: seq<string>, parse: string -> Option<int>): (r: seq<int>)
    ensures StrictlySorted(r, IntLess)
    ensures Elems(r) == {lastPeriodStart} + Elems(ParsedDates(history, parse))
  {
    IntLessIsStrictTotalOrder();
    var collected := [lastPeriodStart] + ParsedDates(history, parse);
    assert Elems(collected) == {lastPeriodStart} + Elems(ParsedDates(history, parse));
    SortUnique(collected, IntLess)
  }

  /**
    The known starts run from the earliest known date to the latest one,
    and the last period start is among them.
   */
  lemma KnownStartsBounds(lastPeriodStart: int, history: seq<string>, parse: string -> Option<int>)
    ensures var r := KnownStarts(lastPeriodStart, history, parse);
            && r != []
            && lastPeriodStart in r
            && r[0] <= lastPeriodStart <= r[|r| - 1]
            && forall d :: d in ParsedDates(history, parse) ==> r[0] <= d <= r[|r| - 1]
  {
    var r := KnownStarts(lastPeriodStart, history, parse);
    assert lastPeriodStart in Elems(r);
    forall d | d in r ensures r[0] <= d <= r[|r| - 1] {
      var k :| 0 <= k < |r| && r[k] == d;
      assert k == 0 || IntLess(r[0], r[k]);
      assert k == |r| - 1 || IntLess(r[k], r[|r| - 1]);
    }
    forall d | d in ParsedDates(history, parse) ensures d in r {
      assert d in Elems(ParsedDates(history, parse));
    }
  }

  /**
    The starts projected from `next` on, every `cycleLength` days, while they
    are not after `endDate`. A non-positive cycle length would make the loop
    that produces them run forever unless the first one is already too late.
   */
  function Projected(next: int, cycleLength: int, endDate: int): (r: seq<int>)
    requires cycleLength >= 1 || next > endDate
    decreases endDate - next
  {
    if next > endDate then [] else [next] + Projected(next + cycleLength, cycleLength, endDate)
  }

  /** The projected starts are `next + k * cycleLength`, consecutive from k = 0, all up to the end, and the next one would be past it. */
  lemma {:induction false} ProjectedShape(next: int, cycleLength: int, endDate: int)
    requires cycleLength >= 1 || next > endDate
    ensures var r := Projected(next, cycleLength, endDate);
            && (forall k :: 0 <= k < |r| ==> r[k] == next + k * cycleLength && r[k] <= endDate)
            && next + |r| * cycleLength > endDate
    decreases endDate - next
  {
    if next <= endDate {
      var r := Projected(next, cycleLength, endDate);
      var tail := Projected(next + cycleLength, cycleLength, endDate);
      ProjectedShape(next + cycleLength, cycleLength, endDate);
      forall k | 0 <= k < |r| ensures r[k] == next + k * cycleLength && r[k] <= endDate {
        if k > 0 {
          assert r[k] == tail[k - 1];
          assert (next + cycleLength) + (k - 1) * cycleLength == next + k * cycleLength;
        }
      }
      assert (next + cycleLength) + |tail| * cycleLength == next + |r| * cycleLength;
    }
  }

  /** Lines 309-312: appends the projected starts after the known ones. */
  method ProjectStarts(knownStarts: seq<int>, cycleLength: int, endDate: int) returns (cycleStarts: seq<int>)
    requires knownStarts != []
    requires cycleLength >= 1 || knownStarts[|knownStarts| - 1] + cycleLength > endDate
    ensures cycleStarts
            == knownStarts + Projected(knownStarts[|knownStarts| - 1] + cycleLength, cycleLength, endDate)
  {
    cycleStarts := knownStarts;
    var lastKnownStart := knownStarts[|knownStarts| - 1];
    var nextStart := lastKnownStart + cycleLength;
    while nextStart <= endDate
      invariant cycleLength >= 1 || nextStart > endDate
      invariant cycleStarts + Projected(nextStart, cycleLength, endDate)
                == knownStarts + Projected(lastKnownStart + cycleLength, cycleLength, endDate)
      decreases endDate - nextStart
    {
      assert Projected(nextStart, cycleLength, endDate)
             == [nextStart] + Projected(nextStart + cycleLength, cycleLength, endDate);
      assert cycleStarts + ([nextStart] + Projected(nextStart + cycleLength, cycleLength, endDate))
             == (cycleStarts + [nextStart]) + Projected(nextStart + cycleLength, cycleLength, endDate);
      cycleStarts := cycleStarts + [nextStart];
      nextStart := nextStart + cycleLength;
    }
    assert cycleStarts + [] == cycleStarts;
  }

  /**
    With a positive cycle length the full list stays strictly increasing; it
    begins with the known starts and every later entry is the last known start
    plus a positive multiple of the cycle length, not after the end date.
   */
  lemma ProjectedListIncreasing(knownStarts: seq<int>, cycleLength: int, endDate: int)
    requires knownStarts != [] && StrictlySorted(knownStarts, IntLess)
    requires cycleLength >= 1
    ensures var last := knownStarts[|knownStarts| - 1];
            var all := knownStarts + Projected(last + cycleLength, cycleLength, endDate);
            && StrictlySorted(all, IntLess)
            && all[..|knownStarts|] == knownStarts
            && forall k :: |knownStarts| <= k < |all| ==>
                 all[k] == last + (k - |knownStarts| + 1) * cycleLength && all[k] <= endDate
  {
    var last := knownStarts[|knownStarts| - 1];
    ProjectedListValues(knownStarts, last, cycleLength, endDate);
    ProjectedListSorted(knownStarts, last, cycleLength, endDate);
  }

  /** Entry `k` past the known starts is the last known start plus `k - n + 1` cycles. */
  lemma ProjectedListValues(knownStarts: seq<int>, last: int, cycleLength: int, endDate: int)
    requires cycleLength >= 1
    ensures var all := knownStarts + Projected(last + cycleLength, cycleLength, endDate);
            forall k :: |knownStarts| <= k < |all| ==>
              all[k] == last + (k - |knownStarts| + 1) * cycleLength && all[k] <= endDate
  {
    var all := knownStarts + Projected(last + cycleLength, cycleLength, endDate);
    forall k | |knownStarts| <= k < |all|
      ensures all[k] == last + (k - |knownStarts| + 1) * cycleLength && all[k] <= endDate
    {
      ProjectedEntry(knownStarts, last, cycleLength, endDate, k);
    }
  }

  lemma ProjectedEntry(knownStarts: seq<int>, last: int, cycleLength: int, endDate: int, k: int)
    requires cycleLength >= 1
    requires |knownStarts| <= k < |knownStarts + Projected(last + cycleLength, cycleLength, endDate)|
    ensures var all := knownStarts + Projected(last + cycleLength, cycleLength, endDate);
            all[k] == last + (k - |knownStarts| + 1) * cycleLength && all[k] <= endDate
  {
    var p := Projected(last + cycleLength, cycleLength, endDate);
    var all := knownStarts + p;
    var m := k - |knownStarts|;
    ProjectedShape(last + cycleLength, cycleLength, endDate);
    assert all[k] == p[m];
    assert p[m] == last + cycleLength + m * cycleLength;
    assert cycleLength + m * cycleLength == (m + 1) * cycleLength;
  }

  lemma StepsIncrease(a: int, b: int, cycleLength: int)
    requires a < b && cycleLength >= 1
    ensures a * cycleLength < b * cycleLength
  {
    assert b * cycleLength - a * cycleLength == (b - a) * cycleLength;
  }

  lemma ProjectedListSorted(knownStarts: seq<int>, last: int, cycleLength: int, endDate: int)
    requires knownStarts != [] && StrictlySorted(knownStarts, IntLess)
    requires cycleLength >= 1 && last == knownStarts[|knownStarts| - 1]
    ensures StrictlySorted(knownStarts + Projected(last + cycleLength, cycleLength, endDate), IntLess)
  {
    var all := knownStarts + Projected(last + cycleLength, cycleLength, endDate);
    var n := |knownStarts|;
    forall i, j | 0 <= i < j < |all| ensures IntLess(all[i], all[j]) {
      if j < n {
        assert all[i] == knownStarts[i] && all[j] == knownStarts[j];
      } else if i < n {
        assert all[i] == knownStarts[i];
        assert i == n - 1 || IntLess(knownStarts[i], knownStarts[n - 1]);
        ProjectedEntry(knownStarts, last, cycleLength, endDate, j);
        StepsIncrease(0, j - n + 1, cycleLength);
      } else {
        ProjectedEntry(knownStarts, last, cycleLength, endDate, i);
        ProjectedEntry(knownStarts, last, cycleLength, endDate, j);
        StepsIncrease(i - n + 1, j - n + 1, cycleLength);
      }
    }
  }
}
