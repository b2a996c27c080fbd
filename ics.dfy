/**
  The calendar builder (`build_ics` in scripts/generate_ics.py): one all-day
  event per day of an inclusive range, labelled by the phase of the day, with
  a five-day window after the next predicted cycle start shown both ways.
  The layout is that of an iCalendar object (RFC 5545): content lines ended
  by CRLF (section 3.1), VEVENT components (section 3.6.1) whose DTSTART and
  DTEND carry values of type DATE (section 3.3.4). No line folding is done.
 */
module Ics {
  import opened Text
  import opened Phases
  import opened Lookup

  /** Days covered by the hypothetical window. */
  const HypotheticalWindowDays: int := 5

  /** The line that opens every event. */
  const EventBegin: string := "BEGIN:VEVENT"

  /**
    The `%Y%m%d` rendering of a day. The model writes the day number in
    decimal; what matters to the calendar and its reader is that distinct
    days get distinct stamps, made of digits only.
   */
  function DateStamp(day: int): (r: string)
    ensures r != [] && forall i :: 0 <= i < |r| ==> IsDigit(r[i]) || r[i] == '-'
  {
    IntToString(day)
  }

  /** Distinct days are rendered as distinct stamps. */
  lemma DateStampInjective(a: int, b: int)
    requires DateStamp(a) == DateStamp(b)
    ensures a == b
  {
    IntToStringInjective(a, b);
  }

  // ---------------------------------------------------------------------
  // The label of one day
  // ---------------------------------------------------------------------

  function NextCycleStart(lastKnownStart: int, cycleLength: int): int {
    lastKnownStart + cycleLength
  }

  /** The window: from the next predicted start through the four days after it. */
  predicate InHypotheticalWindow(current: int, lastKnownStart: int, cycleLength: int) {
    var next := NextCycleStart(lastKnownStart, cycleLength);
    next <= current <= next + HypotheticalWindowDays - 1
  }

  /**
    Label of day `hypotheticalDay` of the window: day `cycleLength + h` of
    the old cycle, luteal, and in parentheses day `h` of the possible new
    cycle with a drop inside the period and a leaf after it.
   */
  function HypotheticalSummary(cycleLength: int, hypotheticalDay: int, periodLength: int): string {
    var emoji := if hypotheticalDay <= periodLength then Drop else Leaf;
    IntToString(cycleLength + hypotheticalDay) + " " + [Moon] + " Lut "
      + "(" + FormatHypothetical(hypotheticalDay, emoji) + ")"
  }

  /** Label of a day outside the window: its day in the governing cycle and that day's phase. */
  function CycleSummary(current: int, cycleStarts: seq<int>, cycleLength: int, periodLength: int): string {
    var dayInCycle := current - GoverningStart(current, cycleStarts) + 1;
    var phase := PhaseForDayShort(dayInCycle, cycleLength, periodLength);
    FormatSummary(dayInCycle, phase.Code(), phase.Emoji())
  }

  /** The SUMMARY that `build_ics` writes for day `current`. */
  function DaySummary(current: int, cycleStarts: seq<int>, lastKnownStart: int,
                      cycleLength: int, periodLength: int): string
  {
    if InHypotheticalWindow(current, lastKnownStart, cycleLength) then
      HypotheticalSummary(cycleLength, current - NextCycleStart(lastKnownStart, cycleLength) + 1, periodLength)
    else
      CycleSummary(current, cycleStarts, cycleLength, periodLength)
  }

  // ---------------------------------------------------------------------
  // The calendar text
  // ---------------------------------------------------------------------

  function HeaderLines(calendarName: string): seq<string> {
    [ "BEGIN:VCALENDAR",
      "VERSION:2.0",
      "PRODID:-//cycle-overlay//Cycle Calendar//EN",
      "CALSCALE:GREGORIAN",
      "X-WR-CALNAME:" + calendarName ]
  }

  const Footer: string := "END:VCALENDAR"

  /** The six lines of the all-day event for `day`. */
  function EventLines(day: int, summary: string): seq<string> {
    var dtstart := DateStamp(day);
    var uid := dtstart + "-cycle-overlay";
    [ EventBegin,
      "UID:" + uid,
      "DTSTART;VALUE=DATE:" + dtstart,
      "DTEND;VALUE=DATE:" + DateStamp(day + 1),
      "SUMMARY:" + summary,
      "END:VEVENT" ]
  }

  /** `(end_date - start_date).days + 1`, as a count of loop rounds. */
  function TotalDays(startDate: int, endDate: int): nat {
    if endDate - startDate + 1 > 0 then endDate - startDate + 1 else 0
  }

  /** The label function of a calendar: the summary of each day. */
  function Labeller(cycleStarts: seq<int>, lastKnownStart: int, cycleLength: int, periodLength: int): int -> string {
    day => DaySummary(day, cycleStarts, lastKnownStart, cycleLength, periodLength)
  }

  lemma LabellerAt(cycleStarts: seq<int>, lastKnownStart: int, cycleLength: int, periodLength: int, day: int)
    ensures Labeller(cycleStarts, lastKnownStart, cycleLength, periodLength)(day)
            == DaySummary(day, cycleStarts, lastKnownStart, cycleLength, periodLength)
  {
  }

  /** The labels of the first `count` days from `startDate`, in order. */
  function Summaries(startDate: int, count: nat, labelOf: int -> string): (r: seq<string>)
    ensures |r| == count
  {
    if count == 0 then []
    else Summaries(startDate, count - 1, labelOf) + [labelOf(startDate + count - 1)]
  }

  /** The events of consecutive days from `startDate`, labelled by `summaries`. */
  function EventsOf(startDate: int, summaries: seq<string>): seq<string>
  {
    if summaries == [] then []
    else
      var k := |summaries| - 1;
      EventsOf(startDate, summaries[..k]) + EventLines(startDate + k, summaries[k])
  }

  function CalendarLines(calendarName: string, startDate: int, endDate: int, cycleStarts: seq<int>,
                         lastKnownStart: int, cycleLength: int, periodLength: int): seq<string>
  {
    HeaderLines(calendarName)
      + EventsOf(startDate, Summaries(startDate, TotalDays(startDate, endDate),
                                     Labeller(cycleStarts, lastKnownStart, cycleLength, periodLength)))
      + [Footer]
  }

  /** The calendar: its lines joined by CRLF, plus a final CRLF. */
  function IcsText(calendarName: string, startDate: int, endDate: int, cycleStarts: seq<int>,
                   lastKnownStart: int, cycleLength: int, periodLength: int): string
  {
    Join(CalendarLines(calendarName, startDate, endDate, cycleStarts, lastKnownStart, cycleLength, periodLength), CRLF)
      + CRLF
  }

  /** The body of `build_ics`'s loop up to the SUMMARY value: the label of day `current`. */
  method SummaryForDay(current: int, cycleStarts: seq<int>, lastKnownStart: int, nextCycleStart: int,
                       windowEnd: int, cycleLength: int, periodLength: int) returns (summary: string)
    requires Sorted(cycleStarts)
    requires nextCycleStart == NextCycleStart(lastKnownStart, cycleLength)
    requires windowEnd == nextCycleStart + HypotheticalWindowDays - 1
    ensures summary == DaySummary(current, cycleStarts, lastKnownStart, cycleLength, periodLength)
  {
    if nextCycleStart <= current <= windowEnd {
      var hypotheticalDay := current - nextCycleStart + 1;
      var hypotheticalEmoji := if hypotheticalDay <= periodLength then Drop else Leaf;
      var currentCycleDay := cycleLength + hypotheticalDay;
      summary := IntToString(currentCycleDay) + " " + [Moon] + " Lut "
                 + "(" + FormatHypothetical(hypotheticalDay, hypotheticalEmoji) + ")";
      assert summary == HypotheticalSummary(cycleLength, hypotheticalDay, periodLength);
      assert InHypotheticalWindow(current, lastKnownStart, cycleLength);
    } else {
      var cycleStart := CycleStartForDate(current, cycleStarts);
      var dayInCycle := current - cycleStart + 1;
      var phase := PhaseForDayShort(dayInCycle, cycleLength, periodLength);
      summary := FormatSummary(dayInCycle, phase.Code(), phase.Emoji());
      assert summary == CycleSummary(current, cycleStarts, cycleLength, periodLength);
      assert !InHypotheticalWindow(current, lastKnownStart, cycleLength);
    }
  }

  /** `build_ics`: extends the line list day by day, then joins it. */
  method BuildIcs(calendarName: string, startDate: int, endDate: int, cycleStarts: seq<int>,
                  lastKnownStart: int, cycleLength: int, periodLength: int) returns (text: string)
    requires Sorted(cycleStarts)
    ensures text == IcsText(calendarName, startDate, endDate, cycleStarts, lastKnownStart, cycleLength, periodLength)
  {
    var lines := HeaderLines(calendarName);
    ghost var header := lines;
    ghost var labelOf := Labeller(cycleStarts, lastKnownStart, cycleLength, periodLength);
    ghost var done: seq<string> := [];
    var totalDays := endDate - startDate + 1;
    var nextCycleStart := lastKnownStart + cycleLength;
    var windowEnd := nextCycleStart + HypotheticalWindowDays - 1;
    var offset := 0;
    while offset < totalDays
      invariant 0 <= offset <= TotalDays(startDate, endDate) && |done| == offset
      invariant forall k {:trigger done[k]} :: 0 <= k < |done| ==> done[k] == labelOf(startDate + k)
      invariant lines == header + EventsOf(startDate, done)
    {
      var current := startDate + offset;
      var summary := SummaryForDay(current, cycleStarts, lastKnownStart, nextCycleStart, windowEnd,
                                   cycleLength, periodLength);
      LabellerAt(cycleStarts, lastKnownStart, cycleLength, periodLength, current);
      var dtstart := DateStamp(current);
      var dtend := DateStamp(current + 1);
      var uid := dtstart + "-cycle-overlay";
      var event := [ EventBegin,
                     "UID:" + uid,
                     "DTSTART;VALUE=DATE:" + dtstart,
                     "DTEND;VALUE=DATE:" + dtend,
                     "SUMMARY:" + summary,
                     "END:VEVENT" ];
      DayStep(header, startDate, labelOf, done, summary, event);
      lines := lines + event;
      done := done + [summary];
      offset := offset + 1;
    }
    SummariesOfLabels(startDate, |done|, labelOf, done);
    assert |done| == TotalDays(startDate, endDate);
    lines := lines + [Footer];
    assert lines == CalendarLines(calendarName, startDate, endDate, cycleStarts, lastKnownStart, cycleLength, periodLength);
    text := Join(lines, CRLF) + CRLF;
  }

  /** One round of `build_ics`'s loop: the next day's label and event extend what was built. */
  lemma DayStep(header: seq<string>, startDate: int, labelOf: int -> string,
                done: seq<string>, summary: string, event: seq<string>)
    requires forall k {:trigger done[k]} :: 0 <= k < |done| ==> done[k] == labelOf(startDate + k)
    requires summary == labelOf(startDate + |done|)
    requires event == EventLines(startDate + |done|, summary)
    ensures forall k {:trigger (done + [summary])[k]} :: 0 <= k < |done + [summary]| ==>
              (done + [summary])[k] == labelOf(startDate + k)
    ensures (header + EventsOf(startDate, done)) + event == header + EventsOf(startDate, done + [summary])
  {
    forall k | 0 <= k < |done + [summary]| ensures (done + [summary])[k] == labelOf(startDate + k) {
      if k < |done| {
        assert (done + [summary])[k] == done[k];
      }
    }
    EventsOfAppend(startDate, done, summary);
    AppendAssociative(header, EventsOf(startDate, done), event);
  }

  /** A sequence holding the label of day `startDate + k` at each position `k` is `Summaries`. */
  lemma {:induction false} SummariesOfLabels(startDate: int, count: nat, labelOf: int -> string, done: seq<string>)
    requires |done| == count
    requires forall k {:trigger done[k]} :: 0 <= k < |done| ==> done[k] == labelOf(startDate + k)
    ensures done == Summaries(startDate, count, labelOf)
  {
    if count > 0 {
      SummariesOfLabels(startDate, count - 1, labelOf, done[..count - 1]);
      assert done == done[..count - 1] + [done[count - 1]];
    }
  }

  // ---------------------------------------------------------------------
  // Layout of the calendar
  // ---------------------------------------------------------------------

  lemma AppendAssociative<T>(a: seq<T>, b: seq<T>, c: seq<T>)
    ensures (a + b) + c == a + (b + c)
  {
  }

  lemma EventsOfAppend(startDate: int, summaries: seq<string>, summary: string)
    ensures EventsOf(startDate, summaries + [summary])
            == EventsOf(startDate, summaries) + EventLines(startDate + |summaries|, summary)
  {
    assert (summaries + [summary])[..|summaries|] == summaries;
  }

  /** The events of a run of days end with the last day's event. */
  lemma EventsOfLast(startDate: int, summaries: seq<string>, lastDay: int)
    requires summaries != [] && lastDay == startDate + |summaries| - 1
    ensures EventsOf(startDate, summaries)
            == EventsOf(startDate, summaries[..|summaries| - 1]) + EventLines(lastDay, summaries[|summaries| - 1])
  {
  }

  /** Day `startDate + i` gets its own label. */
  lemma {:induction false} SummariesAt(startDate: int, count: nat, labelOf: int -> string, i: int)
    requires 0 <= i < count
    ensures Summaries(startDate, count, labelOf)[i] == labelOf(startDate + i)
  {
    if i < count - 1 {
      SummariesAt(startDate, count - 1, labelOf, i);
    }
  }

  /** Six lines per day. */
  lemma {:induction false} EventsOfLength(startDate: int, summaries: seq<string>)
    ensures |EventsOf(startDate, summaries)| == 6 * |summaries|
  {
    if summaries != [] {
      var k := |summaries| - 1;
      EventsOfLast(startDate, summaries, startDate + k);
      EventsOfLength(startDate, summaries[..k]);
    }
  }

  /** The event of day `day`, `i` days after `startDate`, is block `i` of the events. */
  lemma {:induction false} EventsOfLayout(startDate: int, summaries: seq<string>, i: int, day: int)
    requires 0 <= i < |summaries| && day == startDate + i
    ensures |EventsOf(startDate, summaries)| == 6 * |summaries|
    ensures EventsOf(startDate, summaries)[6 * i .. 6 * i + 6] == EventLines(day, summaries[i])
  {
    var k := |summaries| - 1;
    var init := summaries[..k];
    var lastDay := startDate + k;
    var prev := EventsOf(startDate, init);
    var last := EventLines(lastDay, summaries[k]);
    EventsOfLength(startDate, summaries);
    EventsOfLength(startDate, init);
    EventsOfLast(startDate, summaries, lastDay);
    var lo, hi := 6 * i, 6 * i + 6;
    if i < k {
      EventsOfLayout(startDate, init, i, day);
      assert init[i] == summaries[i];
      assert prev[lo .. hi] == EventLines(day, summaries[i]);
      SliceOfPrefix(prev, last, lo, 6);
    } else {
      assert |prev| == lo && |last| == 6 && lastDay == day;
      SecondPart(prev, last);
    }
  }

  lemma SecondPart<T>(a: seq<T>, b: seq<T>)
    ensures (a + b)[|a| .. |a| + |b|] == b
  {
  }

  /** A slice inside the first part of `a + b`. */
  lemma SliceOfPrefix<T>(a: seq<T>, b: seq<T>, lo: int, len: int)
    requires 0 <= lo && 0 <= len && lo + len <= |a|
    ensures (a + b)[lo .. lo + len] == a[lo .. lo + len]
  {
  }

  /**
    The calendar is five header lines, six lines for each day of the range
    and one closing line; the event of day `day`, `i` days after `startDate`,
    occupies lines `5 + 6 * i` to `5 + 6 * i + 5` and carries that day's
    summary.
   */
  lemma CalendarLayout(calendarName: string, startDate: int, endDate: int, cycleStarts: seq<int>,
                       lastKnownStart: int, cycleLength: int, periodLength: int, i: int, day: int)
    requires 0 <= i < TotalDays(startDate, endDate) && day == startDate + i
    ensures var lines := CalendarLines(calendarName, startDate, endDate, cycleStarts, lastKnownStart, cycleLength, periodLength);
            && |lines| == 5 + 6 * TotalDays(startDate, endDate) + 1
            && lines[..5] == HeaderLines(calendarName)
            && lines[|lines| - 1] == "END:VCALENDAR"
            && lines[5 + 6 * i .. 5 + 6 * i + 6]
               == EventLines(day, DaySummary(day, cycleStarts, lastKnownStart, cycleLength, periodLength))
  {
    var n := TotalDays(startDate, endDate);
    var labelOf := Labeller(cycleStarts, lastKnownStart, cycleLength, periodLength);
    LabellerAt(cycleStarts, lastKnownStart, cycleLength, periodLength, day);
    assert CalendarLines(calendarName, startDate, endDate, cycleStarts, lastKnownStart, cycleLength, periodLength)
           == HeaderLines(calendarName) + EventsOf(startDate, Summaries(startDate, n, labelOf)) + [Footer];
    LinesLayout(calendarName, startDate, n, labelOf, i, day);
  }

  /** The layout of the lines for any label function. */
  lemma LinesLayout(calendarName: string, startDate: int, n: nat, labelOf: int -> string, i: int, day: int)
    requires 0 <= i < n && day == startDate + i
    ensures var lines := HeaderLines(calendarName) + EventsOf(startDate, Summaries(startDate, n, labelOf)) + [Footer];
            && |lines| == 5 + 6 * n + 1
            && lines[..5] == HeaderLines(calendarName)
            && lines[|lines| - 1] == "END:VCALENDAR"
            && lines[5 + 6 * i .. 5 + 6 * i + 6] == EventLines(day, labelOf(day))
  {
    var ss := Summaries(startDate, n, labelOf);
    var lines := HeaderLines(calendarName) + EventsOf(startDate, ss) + [Footer];
    SummariesAt(startDate, n, labelOf, i);
    EventsOfLayout(startDate, ss, i, day);
    SliceOfMiddle(HeaderLines(calendarName), EventsOf(startDate, ss), [Footer], 6 * i, 6);
    assert lines[..5] == HeaderLines(calendarName);
  }

  /** A slice of the middle part of `a + b + c`. */
  lemma SliceOfMiddle<T>(a: seq<T>, b: seq<T>, c: seq<T>, lo: int, len: int)
    requires 0 <= lo && 0 <= len && lo + len <= |b|
    ensures (a + b + c)[|a| + lo .. |a| + lo + len] == b[lo .. lo + len]
  {
    var s := (a + b + c)[|a| + lo .. |a| + lo + len];
    forall j | 0 <= j < len ensures s[j] == b[lo + j] {
      assert s[j] == (a + b + c)[|a| + lo + j];
    }
  }

  /** Every line of the calendar, the last included, ends with CRLF. */
  lemma IcsTextIsTerminated(calendarName: string, startDate: int, endDate: int, cycleStarts: seq<int>,
                            lastKnownStart: int, cycleLength: int, periodLength: int)
    ensures IcsText(calendarName, startDate, endDate, cycleStarts, lastKnownStart, cycleLength, periodLength)
            == Terminated(CalendarLines(calendarName, startDate, endDate, cycleStarts, lastKnownStart, cycleLength, periodLength))
  {
    JoinThenCrlf(CalendarLines(calendarName, startDate, endDate, cycleStarts, lastKnownStart, cycleLength, periodLength));
  }
}
