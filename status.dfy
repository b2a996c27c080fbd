/**
  The status record (`compute_status` in scripts/generate_ics.py): the day
  of the current cycle, its phase, the average cycle length over the history
  and the two predicted dates.
 */
module Status {
  import opened Wrappers
  import opened Phases
  import opened Projection

  /** The status's phases; unlike the calendar, ovulation is coded "Ovu". */
  datatype StatusPhase = Menstruation | Ovulation | Luteal | Follicular {
    function Short(): string {
      match this
      case Menstruation => "Men"
      case Ovulation => "Ovu"
      case Luteal => "Lut"
      case Follicular => "Fol"
    }

    function Name(): string {
      match this
      case Menstruation => "Menstruation"
      case Ovulation => "Ovulation"
      case Luteal => "Luteal"
      case Follicular => "Follicular"
    }

    function Emoji(): char {
      match this
      case Menstruation => Drop
      case Ovulation => Star
      case Luteal => Moon
      case Follicular => Leaf
    }
  }

  /** The record `compute_status` returns, without its clock-derived and echoed fields. */
  datatype StatusRecord = StatusRecord(
    today: int,
    lastPeriodStart: int,
    previousPeriodStart: Option<string>,
    history: seq<string>,
    cycleLength: int,
    cycleDay: int,
    phase: StatusPhase,
    lastCycleLengthDays: Option<int>,
    avgCycleLengthDays: int,
    predictedNextStart: int,
    predictedOvulationDay: int,
    source: string)

  // ---------------------------------------------------------------------
  // Average cycle length
  // ---------------------------------------------------------------------

  /**
    Python's `round(num / den)` on an exact quotient: the nearest integer,
    ties to the even one.
   */
  function RoundHalfEven(num: int, den: int): (r: int)
    requires den > 0
    ensures 2 * (r * den - num) <= den && 2 * (num - r * den) <= den
    ensures 2 * (r * den - num) == den || 2 * (num - r * den) == den ==> r % 2 == 0
  {
    var q := num / den;
    var rem := num % den;
    if 2 * rem < den then q
    else if 2 * rem > den then q + 1
    else if q % 2 == 0 then q
    else q + 1
  }

  /** The gaps between consecutive dates that are positive, in order. */
  function PositiveGaps(dates: seq<int>): (r: seq<int>)
    ensures forall k :: 0 <= k < |r| ==> r[k] > 0
  {
    if |dates| < 2 then []
    else
      var prev := PositiveGaps(dates[..|dates| - 1]);
      var gap := dates[|dates| - 1] - dates[|dates| - 2];
      if gap > 0 then prev + [gap] else prev
  }

  function Sum(s: seq<int>): int {
    if s == [] then 0 else Sum(s[..|s| - 1]) + s[|s| - 1]
  }

  /** `avg_cycle_length_days`: the rounded mean positive gap, or the configured length. */
  function AverageCycleLength(dates: seq<int>, cycleLength: int): int {
    var gaps := PositiveGaps(dates);
    if |dates| >= 3 && gaps != [] then RoundHalfEven(Sum(gaps), |gaps|) else cycleLength
  }

  /** Lines 144-148: the loop over consecutive dates that keeps the positive gaps. */
  method CollectGaps(dates: seq<int>) returns (diffs: seq<int>)
    ensures diffs == PositiveGaps(dates)
  {
    diffs := [];
    var index := 1;
    while index < |dates|
      invariant 1 <= index <= |dates| || (|dates| < 2 && index == 1)
      invariant diffs == if index <= |dates| then PositiveGaps(dates[..index]) else []
    {
      assert dates[..index + 1][..index] == dates[..index];
      var diff := dates[index] - dates[index - 1];
      if diff > 0 {
        diffs := diffs + [diff];
      }
      index := index + 1;
    }
    if |dates| >= 1 {
      assert dates[..index] == dates;
    }
  }

  /** Lines 128-133: the dates among the history entries that parse. */
  method CollectDates(history: seq<string>, parse: string -> Option<int>) returns (dates: seq<int>)
    ensures dates == ParsedDates(history, parse)
  {
    dates := [];
    var i := 0;
    while i < |history|
      invariant 0 <= i <= |history|
      invariant dates == ParsedDates(history[..i], parse)
    {
      assert history[..i + 1][..i] == history[..i];
      match parse(history[i]) {
        case Some(d) => dates := dates + [d];
        case None =>
      }
      i := i + 1;
    }
    assert history[..i] == history;
  }

  // ---------------------------------------------------------------------
  // Day of cycle and phase
  // ---------------------------------------------------------------------

  /** Day of the current cycle, from 1; 0 when `today` is before the cycle's start. */
  function CycleDay(today: int, lastPeriodStart: int): (r: int)
    ensures r == 0 <==> today < lastPeriodStart
    ensures r != 0 ==> r == today - lastPeriodStart + 1 && r >= 1
  {
    var deltaDays := today - lastPeriodStart;
    if deltaDays >= 0 then deltaDays + 1 else 0
  }

  /**
    Menstruation first, then ovulation, then the luteal phase, which in the
    status also needs a positive cycle day; follicular otherwise.
   */
  function StatusPhaseFor(cycleDay: int, avgCycleLength: int, periodLength: int): (p: StatusPhase)
    ensures p == Menstruation <==> 1 <= cycleDay <= periodLength
    ensures p != Menstruation ==> (p == Ovulation <==> cycleDay == avgCycleLength - 14)
    ensures p != Menstruation && p != Ovulation ==>
              (p == Luteal <==> cycleDay > avgCycleLength - 14 && cycleDay > 0)
  {
    var ovulationDay := avgCycleLength - 14;
    if 1 <= cycleDay <= periodLength then Menstruation
    else if cycleDay == ovulationDay then Ovulation
    else if cycleDay > ovulationDay && cycleDay > 0 then Luteal
    else Follicular
  }

  /** The calendar's code for the phase the status reports. */
  function CalendarPhase(p: StatusPhase): Phase {
    match p
    case Menstruation => Men
    case Ovulation => Ovl
    case Luteal => Lut
    case Follicular => Fol
  }

  /**
    From day 1 on, the status and the calendar classify a day alike, with
    the same glyph. On day 0 the status says ovulation when the average
    length is 14 and follicular otherwise, never luteal.
   */
  lemma StatusAgreesWithCalendar(cycleDay: int, cycleLength: int, periodLength: int)
    requires cycleDay >= 0
    ensures cycleDay >= 1 ==>
              CalendarPhase(StatusPhaseFor(cycleDay, cycleLength, periodLength))
              == PhaseForDayShort(cycleDay, cycleLength, periodLength)
    ensures StatusPhaseFor(cycleDay, cycleLength, periodLength).Emoji()
            == CalendarPhase(StatusPhaseFor(cycleDay, cycleLength, periodLength)).Emoji()
    ensures cycleDay == 0 ==>
              StatusPhaseFor(cycleDay, cycleLength, periodLength)
              == (if cycleLength == 14 then Ovulation else Follicular)
  {
  }

  // ---------------------------------------------------------------------
  // The record
  // ---------------------------------------------------------------------

  /** `previous_period_start`: the second-to-last history entry, if any. */
  function PreviousPeriodStart(history: seq<string>): Option<string> {
    if |history| >= 2 then Some(history[|history| - 2]) else None
  }

  /** `last_cycle_length_days`: days since the previous start, when it is non-empty and parses. */
  function LastCycleLength(lastPeriodStart: int, previous: Option<string>, parse: string -> Option<int>): Option<int> {
    match previous
    case Some(p) =>
      if p == "" then None
      else (match parse(p) case Some(d) => Some(lastPeriodStart - d) case None => None)
    case None => None
  }

  /** The record `compute_status` returns for its inputs. */
  function StatusOf(today: int, lastPeriodStart: int, history: seq<string>, cycleLength: int,
                    periodLength: int, source: string, parse: string -> Option<int>): StatusRecord
  {
    var avg := AverageCycleLength(ParsedDates(history, parse), cycleLength);
    var cycleDay := CycleDay(today, lastPeriodStart);
    StatusRecord(
      today, lastPeriodStart, PreviousPeriodStart(history), history, cycleLength, cycleDay,
      StatusPhaseFor(cycleDay, avg, periodLength),
      LastCycleLength(lastPeriodStart, PreviousPeriodStart(history), parse),
      avg, lastPeriodStart + avg, lastPeriodStart + avg - 14, source)
  }

  /** `compute_status`: the parsing and gap loops, then the classification. */
  method ComputeStatus(today: int, lastPeriodStart: int, history: seq<string>, cycleLength: int,
                       periodLength: int, source: string, parse: string -> Option<int>)
    returns (status: StatusRecord)
    ensures status == StatusOf(today, lastPeriodStart, history, cycleLength, periodLength, source, parse)
  {
    var previousPeriodStart: Option<string> := if |history| >= 2 then Some(history[|history| - 2]) else None;
    var historyDates := CollectDates(history, parse);

    var lastCycleLengthDays: Option<int> := None;
    if previousPeriodStart.Some? && previousPeriodStart.value != "" {
      match parse(previousPeriodStart.value) {
        case Some(d) => lastCycleLengthDays := Some(lastPeriodStart - d);
        case None => lastCycleLengthDays := None;
      }
    }

    var avgCycleLengthDays := cycleLength;
    if |historyDates| >= 3 {
      var diffs := CollectGaps(historyDates);
      if diffs != [] {
        avgCycleLengthDays := RoundHalfEven(Sum(diffs), |diffs|);
      }
    }

    var deltaDays := today - lastPeriodStart;
    var cycleDay := if deltaDays >= 0 then deltaDays + 1 else 0;
    var ovulationDay := avgCycleLengthDays - 14;

    var phase: StatusPhase;
    if 1 <= cycleDay <= periodLength {
      phase := Menstruation;
    } else if cycleDay == ovulationDay {
      phase := Ovulation;
    } else if cycleDay > ovulationDay && cycleDay > 0 {
      phase := Luteal;
    } else {
      phase := Follicular;
    }

    var predictedNextStart := lastPeriodStart + avgCycleLengthDays;
    var predictedOvulationDay := predictedNextStart - 14;
    status := StatusRecord(
      today, lastPeriodStart, previousPeriodStart, history, cycleLength, cycleDay, phase,
      lastCycleLengthDays, avgCycleLengthDays, predictedNextStart, predictedOvulationDay, source);
  }

  // ---------------------------------------------------------------------
  // Properties of the average
  // ---------------------------------------------------------------------

  lemma MulMonotone(a: int, x: int, y: int)
    requires a > 0 && x <= y
    ensures a * x <= a * y
  {
    assert a * y - a * x == a * (y - x);
  }

  /** Rounding a mean that lies between two integers stays between them. */
  lemma RoundHalfEvenBetween(num: int, den: int, lo: int, hi: int)
    requires den > 0 && den * lo <= num <= den * hi
    ensures lo <= RoundHalfEven(num, den) <= hi
  {
    var q := num / den;
    var rem := num % den;
    assert num == den * q + rem && 0 <= rem < den;
    if q <= lo - 1 {
      MulMonotone(den, q, lo - 1);
      assert false;
    }
    if q >= hi + 1 {
      MulMonotone(den, hi + 1, q);
      assert false;
    }
    if rem > 0 && q >= hi {
      MulMonotone(den, hi, q);
      assert false;
    }
  }

  function Min(s: seq<int>): int
    requires s != []
  {
    if |s| == 1 then s[0] else
      var m := Min(s[..|s| - 1]);
      if s[|s| - 1] < m then s[|s| - 1] else m
  }

  function Max(s: seq<int>): int
    requires s != []
  {
    if |s| == 1 then s[0] else
      var m := Max(s[..|s| - 1]);
      if s[|s| - 1] > m then s[|s| - 1] else m
  }

  /** The sum of a list lies between its length times its minimum and times its maximum. */
  lemma {:induction false} SumBetween(s: seq<int>)
    requires s != []
    ensures |s| * Min(s) <= Sum(s) <= |s| * Max(s)
  {
    if |s| > 1 {
      var init := s[..|s| - 1];
      var n := |init|;
      var x := s[|s| - 1];
      SumBetween(init);
      assert Sum(s) == Sum(init) + x;
      assert Min(s) <= Min(init) && Min(s) <= x;
      assert Max(s) >= Max(init) && Max(s) >= x;
      BoundsStep(n, Sum(init), x, Min(init), Max(init), Min(s), Max(s));
    }
  }

  /** Adding one element between `lo` and `hi` to a sum of `n` elements bounded by `n * lo` and `n * hi`. */
  lemma BoundsStep(n: nat, sum: int, x: int, loInit: int, hiInit: int, lo: int, hi: int)
    requires n * loInit <= sum <= n * hiInit
    requires lo <= loInit && lo <= x && hiInit <= hi && x <= hi
    ensures (n + 1) * lo <= sum + x <= (n + 1) * hi
  {
    if n > 0 {
      MulMonotone(n, lo, loInit);
      MulMonotone(n, hiInit, hi);
    }
    assert (n + 1) * lo == n * lo + lo;
    assert (n + 1) * hi == n * hi + hi;
  }

  /**
    With at least three parsed dates and some positive gap, the average lies
    between the smallest and the largest positive gap; otherwise it is the
    configured length.
   */
  lemma AverageBetweenGaps(dates: seq<int>, cycleLength: int)
    ensures var gaps := PositiveGaps(dates);
            if |dates| >= 3 && gaps != [] then
              Min(gaps) <= AverageCycleLength(dates, cycleLength) <= Max(gaps)
            else AverageCycleLength(dates, cycleLength) == cycleLength
  {
    var gaps := PositiveGaps(dates);
    if |dates| >= 3 && gaps != [] {
      SumBetween(gaps);
      RoundHalfEvenBetween(Sum(gaps), |gaps|, Min(gaps), Max(gaps));
    }
  }

  /** Gaps that are zero or negative are not counted: a repeated or out-of-order date adds nothing. */
  lemma NonPositiveGapIgnored(dates: seq<int>, d: int)
    requires |dates| >= 1 && d <= dates[|dates| - 1]
    ensures PositiveGaps(dates + [d]) == PositiveGaps(dates)
  {
    assert (dates + [d])[..|dates|] == dates;
  }

  /** Two 28-day gaps average to 28. */
  lemma AverageOfRegularCycles()
    ensures AverageCycleLength([0, 28, 56], 30) == 28
  {
    assert PositiveGaps([0, 28, 56]) == [28, 28] by {
      assert [0, 28, 56][..2] == [0, 28];
      assert [0, 28][..1] == [0];
    }
    assert Sum([28, 28]) == 56 by {
      assert [28, 28][..1] == [28];
      assert [28][..0] == [];
    }
  }

  /** A repeated date gives no positive gap at all, so the configured length stays. */
  lemma AverageWithoutPositiveGaps()
    ensures AverageCycleLength([5, 5, 5], 30) == 30
  {
    assert [5, 5, 5][..2] == [5, 5];
    assert [5, 5][..1] == [5];
  }

  /** Ties go to the even neighbour: a mean of 28.5 gives 28, one of 29.5 gives 30. */
  lemma RoundingTiesToEven()
    ensures RoundHalfEven(57, 2) == 28 && RoundHalfEven(59, 2) == 30
  {
  }

  // ---------------------------------------------------------------------
  // What the record says
  // ---------------------------------------------------------------------

  /**
    The record's fields: the cycle day counts from 1 on the last start and is
    0 before it, the phase follows the status precedence on the average
    length and is never luteal before the start, the average lies between
    the smallest and the largest positive gap of the parsed history (or is
    the configured length), the predicted start is one average length after
    the last start and the predicted ovulation 14 days before it, and the
    last cycle length is known exactly when the second-to-last history entry
    is non-empty and parses, and is then measured from it.
   */
  lemma StatusRecordMeaning(today: int, lastPeriodStart: int, history: seq<string>, cycleLength: int,
                            periodLength: int, source: string, parse: string -> Option<int>)
    ensures var st := StatusOf(today, lastPeriodStart, history, cycleLength, periodLength, source, parse);
            var dates := ParsedDates(history, parse);
            var gaps := PositiveGaps(dates);
            && (st.cycleDay == 0 <==> today < lastPeriodStart)
            && (st.cycleDay != 0 ==> st.cycleDay == today - lastPeriodStart + 1)
            && (st.cycleDay == 0 ==> st.phase != Luteal && st.phase != Menstruation)
            && (st.phase == Ovulation <==> !(1 <= st.cycleDay <= periodLength) && st.cycleDay == st.avgCycleLengthDays - 14)
            && (if |dates| >= 3 && gaps != [] then Min(gaps) <= st.avgCycleLengthDays <= Max(gaps)
                else st.avgCycleLengthDays == cycleLength)
            && st.predictedNextStart - lastPeriodStart == st.avgCycleLengthDays
            && st.predictedNextStart - st.predictedOvulationDay == 14
            && (st.lastCycleLengthDays.Some? <==>
                  |history| >= 2 && history[|history| - 2] != "" && parse(history[|history| - 2]).Some?)
            && (st.lastCycleLengthDays.Some? ==>
                  parse(history[|history| - 2]) == Some(lastPeriodStart - st.lastCycleLengthDays.value))
  {
    AverageBetweenGaps(ParsedDates(history, parse), cycleLength);
  }
}
