/**
  The fixed scenario of the check script (`main` in
  scripts/test_generation.py): a 28-day cycle with a 3-day period, a range of
  41 days from a first start, the starts projected every 28 days, and the
  calendar named "Cycle" built and read back.
 */
module Scenario {
  import opened Text
  import opened Phases
  import opened Lookup
  import opened Ics
  import opened Labels
  import opened Reader
  import opened RoundTrip
  import opened Projection

  const CycleLength: int := 28
  const PeriodLength: int := 3
  const RangeDays: int := 40

  /** Lines 28-32: the first start, then every start 28 days later up to the end of the range. */
  function ScenarioStarts(first: int): seq<int> {
    [first] + Projected(first + CycleLength, CycleLength, first + RangeDays)
  }

  lemma ScenarioStartsValue(first: int)
    ensures ScenarioStarts(first) == [first, first + 28]
  {
    assert Projected(first + 56, CycleLength, first + RangeDays) == [];
  }

  /** The text `main` builds and the map it reads back. */
  function ScenarioEvents(first: int): map<string, string> {
    ReadEvents(IcsText("Cycle", first, first + RangeDays, ScenarioStarts(first), first, CycleLength, PeriodLength))
  }

  /** The label `build_ics` writes for day `day` of the scenario. */
  function ScenarioLabel(first: int, day: int): string {
    DaySummary(day, ScenarioStarts(first), first, CycleLength, PeriodLength)
  }

  lemma NameHasNoMarker()
    ensures !Contains("Cycle", EventMarker)
  {
    MissingCharNotContained("Cycle", EventMarker, 'B');
  }

  /** Before the second start the first one governs; from it on, the second one. */
  lemma ScenarioGoverningStart(first: int, current: int)
    requires first <= current <= first + RangeDays
    ensures GoverningStart(current, ScenarioStarts(first)) == if current < first + 28 then first else first + 28
  {
    ScenarioStartsValue(first);
    var starts := ScenarioStarts(first);
    assert Sorted(starts);
    GoverningStartIsLatestStart(current, starts);
  }

  lemma NumbersOfScenario()
    ensures IntToString(1) == "1" && IntToString(5) == "5" && IntToString(6) == "6"
    ensures IntToString(14) == "14" && IntToString(28) == "28"
    ensures IntToString(29) == "29" && IntToString(33) == "33"
  {
    assert NatToString(1) == "1" && NatToString(2) == "2" && NatToString(3) == "3";
    assert NatToString(4) == "4" && NatToString(8) == "8" && NatToString(9) == "9";
  }

  /**
    Outside the window and the period, a day shows its day in the governing
    cycle, a space, its phase's glyph, a space and its phase's code.
   */
  lemma ScenarioCycleLabel(first: int, current: int, dayInCycle: int, p: Phase, digits: string)
    requires first <= current <= first + RangeDays && !(first + 28 <= current <= first + 32)
    requires dayInCycle == if current < first + 28 then current - first + 1 else current - first - 27
    requires p == PhaseForDayShort(dayInCycle, CycleLength, PeriodLength) && p != Men
    requires digits == IntToString(dayInCycle)
    ensures ScenarioLabel(first, current) == digits + [' ', p.Emoji(), ' '] + p.Code()
  {
    var starts := ScenarioStarts(first);
    ScenarioGoverningStart(first, current);
    CycleLabelText(current, starts, first, CycleLength, PeriodLength, dayInCycle, p, digits);
  }

  /** Day 28 closes the first cycle in the luteal phase. */
  lemma Day28Label(first: int, day: int)
    requires day == first + 27
    ensures ScenarioLabel(first, day) == "28" + [' ', Moon, ' '] + "Lut"
  {
    NumbersOfScenario();
    ScenarioCycleLabel(first, day, 28, Lut, "28");
  }

  /** Day 14 is the ovulation estimate, 28 - 14. */
  lemma Day14Label(first: int, day: int)
    requires day == first + 13
    ensures ScenarioLabel(first, day) == "14" + [' ', Star, ' '] + "Ovl"
  {
    NumbersOfScenario();
    ScenarioCycleLabel(first, day, 14, Ovl, "14");
  }

  /** Day 34 is past the window: day 6 of the second cycle, follicular. */
  lemma Day34Label(first: int, day: int)
    requires day == first + 33
    ensures ScenarioLabel(first, day) == "6" + [' ', Leaf, ' '] + "Fol"
  {
    NumbersOfScenario();
    ScenarioCycleLabel(first, day, 6, Fol, "6");
  }

  /** Day 29 opens the window: day 29 of the old cycle, day 1 of a possible new one, inside the period. */
  lemma Day29Label(first: int, day: int)
    requires day == first + 28
    ensures ScenarioLabel(first, day) == "29 " + [Moon] + " Lut (1" + [Drop] + ")"
  {
    NumbersOfScenario();
  }

  /** Day 33 closes the window: day 5 of a possible new cycle, after the period. */
  lemma Day33Label(first: int, day: int)
    requires day == first + 32
    ensures ScenarioLabel(first, day) == "33 " + [Moon] + " Lut (5" + [Leaf] + ")"
  {
    NumbersOfScenario();
  }

  /** The map `main` reads back holds one entry per day of the range, each under the day's stamp with the day's label. */
  lemma ScenarioReadBack(first: int)
    ensures |ScenarioEvents(first)| == RangeDays + 1
    ensures forall d :: first <= d <= first + RangeDays ==>
              DateStamp(d) in ScenarioEvents(first)
              && ScenarioEvents(first)[DateStamp(d)] == ScenarioLabel(first, d)
    ensures forall key :: key in ScenarioEvents(first) ==>
              exists d :: first <= d <= first + RangeDays && key == DateStamp(d)
  {
    NameHasNoMarker();
    ReadBackCalendar("Cycle", first, first + RangeDays, ScenarioStarts(first), first, CycleLength, PeriodLength);
  }

  /** No label of the scenario shows " Men" or " Ovu", and none starts with "0". */
  lemma ScenarioLabelInvariants(first: int, d: int)
    requires first <= d
    ensures var s := ScenarioLabel(first, d);
            !Contains(s, " Men") && !Contains(s, " Ovu") && s != [] && s[0] != '0'
  {
    var starts := ScenarioStarts(first);
    ScenarioStartsValue(first);
    assert Sorted(starts);
    NoMenInSummary(d, starts, first, CycleLength, PeriodLength);
    NoOvuInSummary(d, starts, first, CycleLength, PeriodLength);
    DaySummaryClean(d, starts, first, CycleLength, PeriodLength);
    NoLeadingZero(d, starts, first, CycleLength, PeriodLength);
  }

  /** No label read back shows " Men" or " Ovu", and none starts with "0". */
  lemma ScenarioInvariants(first: int)
    ensures forall s :: s in ScenarioEvents(first).Values ==>
              !Contains(s, " Men") && !Contains(s, " Ovu") && s != [] && s[0] != '0'
  {
    var events := ScenarioEvents(first);
    ScenarioReadBack(first);
    forall s | s in events.Values ensures !Contains(s, " Men") && !Contains(s, " Ovu") && s != [] && s[0] != '0' {
      var key :| key in events && events[key] == s;
      var d :| first <= d <= first + RangeDays && key == DateStamp(d);
      ScenarioLabelInvariants(first, d);
    }
  }

  /**
    What `main` checks, for any first day: 41 events, none labelled " Men"
    or " Ovu", none starting with "0", and the labels of days 14, 28, 29, 33
    and 34 as `build_ics` writes them.
   */
  lemma ScenarioChecks(first: int)
    ensures |ScenarioEvents(first)| == RangeDays + 1
    ensures forall s :: s in ScenarioEvents(first).Values ==>
              !Contains(s, " Men") && !Contains(s, " Ovu") && s != [] && s[0] != '0'
    ensures DateStamp(first + 13) in ScenarioEvents(first)
            && ScenarioEvents(first)[DateStamp(first + 13)] == "14" + [' ', Star, ' '] + "Ovl"
    ensures DateStamp(first + 27) in ScenarioEvents(first)
            && ScenarioEvents(first)[DateStamp(first + 27)] == "28" + [' ', Moon, ' '] + "Lut"
    ensures DateStamp(first + 28) in ScenarioEvents(first)
            && ScenarioEvents(first)[DateStamp(first + 28)] == "29 " + [Moon] + " Lut (1" + [Drop] + ")"
    ensures DateStamp(first + 32) in ScenarioEvents(first)
            && ScenarioEvents(first)[DateStamp(first + 32)] == "33 " + [Moon] + " Lut (5" + [Leaf] + ")"
    ensures DateStamp(first + 33) in ScenarioEvents(first)
            && ScenarioEvents(first)[DateStamp(first + 33)] == "6" + [' ', Leaf, ' '] + "Fol"
  {
    ScenarioReadBack(first);
    ScenarioInvariants(first);
    var d14, d28, d29, d33, d34 := first + 13, first + 27, first + 28, first + 32, first + 33;
    Day14Label(first, d14);
    Day28Label(first, d28);
    Day29Label(first, d29);
    Day33Label(first, d33);
    Day34Label(first, d34);
  }
}
