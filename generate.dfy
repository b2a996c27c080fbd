/**
  The start list of `generate_one` (scripts/generate_ics.py, lines 291-312):
  the stored last period start is parsed, the non-blank string entries of the
  history are kept, the dates among them join the last period start, the
  result is deduplicated and sorted, the first and last of it are taken as the
  calendar's first day and last known start, and starts are projected every
  `cycleLength` days up to the end date.
 */
module Generate {
  import opened Wrappers
  import opened Text
  import opened Ordering
  import opened Lookup
  import opened History
  import opened Projection
  import opened Ics
  import opened Labels

  /** What lines 291-312 hand to `build_ics`: its first day, the last known start and every start. */
  datatype StartPlan = StartPlan(startDate: int, lastKnownStart: int, cycleStarts: seq<int>)

  /** Line 293: the history entries that are strings with non-blank text, as they are (not stripped). */
  function NonBlankEntries(items: seq<HistoryItem>): (r: seq<string>)
    ensures |r| <= |items|
  {
    if items == [] then []
    else
      var prev := NonBlankEntries(items[..|items| - 1]);
      var item := items[|items| - 1];
      if item.Str? && Strip(item.s) != "" then prev + [item.s] else prev
  }

  /** An entry is kept exactly when it is a string with non-blank text. */
  lemma {:induction false} NonBlankEntriesElems(items: seq<HistoryItem>, s: string)
    ensures s in NonBlankEntries(items) <==> Str(s) in items && Strip(s) != ""
  {
    if items != [] {
      var init := items[..|items| - 1];
      NonBlankEntriesElems(init, s);
      assert items == init + [items[|items| - 1]];
    }
  }

  /**
    Lines 291-312. A last period start that does not parse raises, which is
    the error here, carrying the text. The projection loop ends only for a
    positive cycle length.
   */
  function PlanStarts(lastPeriodStartText: string, historyValues: seq<HistoryItem>, cycleLength: int,
                      endDate: int, parse: string -> Option<int>): (r: Result<StartPlan, string>)
    requires cycleLength >= 1
    ensures r.Err? <==> parse(lastPeriodStartText).None?
    ensures r.Err? ==> r.error == lastPeriodStartText
  {
    match parse(lastPeriodStartText)
    case None => Err(lastPeriodStartText)
    case Some(lastPeriodStart) =>
      var known := KnownStarts(lastPeriodStart, NonBlankEntries(historyValues), parse);
      KnownStartsBounds(lastPeriodStart, NonBlankEntries(historyValues), parse);
      var lastKnownStart := known[|known| - 1];
      Ok(StartPlan(known[0], lastKnownStart,
                   known + Projected(lastKnownStart + cycleLength, cycleLength, endDate)))
  }

  /** The start-list part of `generate_one`, step by step. */
  method GenerateStarts(lastPeriodStartText: string, historyValues: seq<HistoryItem>, cycleLength: int,
                        endDate: int, parse: string -> Option<int>) returns (r: Result<StartPlan, string>)
    requires cycleLength >= 1
    ensures r == PlanStarts(lastPeriodStartText, historyValues, cycleLength, endDate, parse)
  {
    var parsed := parse(lastPeriodStartText);
    if parsed.None? {
      return Err(lastPeriodStartText);
    }
    var lastPeriodStart := parsed.value;
    var history := NonBlankEntries(historyValues);
    var collected := CollectStarts(lastPeriodStart, history, parse);
    IntLessIsStrictTotalOrder();
    var cycleStarts := SortUnique(collected, IntLess);
    KnownStartsBounds(lastPeriodStart, history, parse);
    var startDate := cycleStarts[0];
    var lastKnownStart := cycleStarts[|cycleStarts| - 1];
    cycleStarts := ProjectStarts(cycleStarts, cycleLength, endDate);
    r := Ok(StartPlan(startDate, lastKnownStart, cycleStarts));
  }

  /** A start `m >= 1` cycles after `from`. */
  function Step(from: int, m: int, cycleLength: int): int {
    from + m * cycleLength
  }

  /** Up to the last known start, the full list holds the known starts; after it, whole cycles up to the end date. */
  lemma StartListShape(known: seq<int>, cycleLength: int, endDate: int, x: int)
    requires known != [] && StrictlySorted(known, IntLess) && cycleLength >= 1
    ensures var last := known[|known| - 1];
            var all := known + Projected(last + cycleLength, cycleLength, endDate);
            && (x <= last ==> (x in all <==> x in known))
            && (x > last && x in all ==> x <= endDate && exists m :: 1 <= m && x == Step(last, m, cycleLength))
  {
    var n := |known|;
    var last := known[n - 1];
    var all := known + Projected(last + cycleLength, cycleLength, endDate);
    ProjectedListIncreasing(known, cycleLength, endDate);
    if x in all {
      var k :| 0 <= k < |all| && all[k] == x;
      if k < n {
        assert all[k] == known[k];
        assert k == n - 1 || IntLess(known[k], known[n - 1]);
      } else {
        assert x == Step(last, k - n + 1, cycleLength);
        assert (k - n + 1) * cycleLength >= 1;
      }
    }
  }

  /**
    The start list is strictly increasing and begins at the calendar's first
    day; up to the last known start it holds exactly the last period start
    and the history dates that parse; after it, only starts a whole number
    of cycles later, none past the end date.
   */
  lemma PlanShape(lastPeriodStartText: string, historyValues: seq<HistoryItem>, cycleLength: int,
                  endDate: int, parse: string -> Option<int>, x: int)
    requires cycleLength >= 1
    requires PlanStarts(lastPeriodStartText, historyValues, cycleLength, endDate, parse).Ok?
    ensures var p := PlanStarts(lastPeriodStartText, historyValues, cycleLength, endDate, parse).value;
            var lastPeriodStart := parse(lastPeriodStartText).value;
            && StrictlySorted(p.cycleStarts, IntLess)
            && p.cycleStarts != [] && p.startDate == p.cycleStarts[0]
            && p.startDate <= lastPeriodStart <= p.lastKnownStart
            && p.lastKnownStart in p.cycleStarts
            && (x <= p.lastKnownStart ==>
                  (x in p.cycleStarts <==> x == lastPeriodStart || x in ParsedDates(NonBlankEntries(historyValues), parse)))
            && (x > p.lastKnownStart && x in p.cycleStarts ==>
                  x <= endDate && exists m :: 1 <= m && x == Step(p.lastKnownStart, m, cycleLength))
  {
    var lastPeriodStart := parse(lastPeriodStartText).value;
    var history := NonBlankEntries(historyValues);
    var known := KnownStarts(lastPeriodStart, history, parse);
    KnownStartsBounds(lastPeriodStart, history, parse);
    var last := known[|known| - 1];
    var all := known + Projected(last + cycleLength, cycleLength, endDate);
    var p := PlanStarts(lastPeriodStartText, historyValues, cycleLength, endDate, parse).value;
    assert p == StartPlan(known[0], last, all);
    ProjectedListIncreasing(known, cycleLength, endDate);
    StartListShape(known, cycleLength, endDate, x);
    assert all[0] == known[0] && all[|known| - 1] == last;
    assert x in known <==> x == lastPeriodStart || x in ParsedDates(history, parse) by {
      assert x in known <==> x in Elems(known);
      assert x in ParsedDates(history, parse) <==> x in Elems(ParsedDates(history, parse));
    }
  }

  /**
    No day of the calendar, which starts at the earliest start, is labelled
    with a number starting with "0": every day in a cycle counts from 1.
   */
  lemma PlanLabelsHaveNoLeadingZero(lastPeriodStartText: string, historyValues: seq<HistoryItem>, cycleLength: int,
                                    periodLength: int, endDate: int, parse: string -> Option<int>, day: int)
    requires cycleLength >= 1
    requires PlanStarts(lastPeriodStartText, historyValues, cycleLength, endDate, parse).Ok?
    requires PlanStarts(lastPeriodStartText, historyValues, cycleLength, endDate, parse).value.startDate <= day
    ensures var p := PlanStarts(lastPeriodStartText, historyValues, cycleLength, endDate, parse).value;
            DaySummary(day, p.cycleStarts, p.lastKnownStart, cycleLength, periodLength)[0] != '0'
  {
    var p := PlanStarts(lastPeriodStartText, historyValues, cycleLength, endDate, parse).value;
    PlanShape(lastPeriodStartText, historyValues, cycleLength, endDate, parse, day);
    assert Sorted(p.cycleStarts) by {
      forall i, j | 0 <= i < j < |p.cycleStarts| ensures p.cycleStarts[i] <= p.cycleStarts[j] {
        assert IntLess(p.cycleStarts[i], p.cycleStarts[j]);
      }
    }
    NoLeadingZero(day, p.cycleStarts, p.lastKnownStart, cycleLength, periodLength);
  }
}
