/**
  Reading a built calendar back (`parse_events` applied to `build_ics`, as
  the check script of scripts/test_generation.py does): one entry per day of
  the range, keyed by the day's DTSTART stamp and holding the day's label.
 */
module RoundTrip {
  import opened Wrappers
  import opened Text
  import opened Phases
  import opened Ics
  import opened Labels
  import opened Reader

  // ---------------------------------------------------------------------
  // Where "BEGIN:VEVENT" cannot start
  // ---------------------------------------------------------------------

  /** Two stretches free of occurrences, one after the other. */
  lemma NoOccurrenceShift(a: string, x: string, t: string, k: int)
    requires NoOccurrenceBefore(a + x, t, |a|) && NoOccurrenceBefore(x, t, k)
    ensures NoOccurrenceBefore(a + x, t, |a| + k)
  {
    forall p | |a| <= p < |a| + k && p <= |a + x|
      ensures !StartsWith((a + x)[p..], t)
    {
      assert (a + x)[p..] == x[p - |a|..];
    }
  }

  /** Text without the letter B holds no occurrence of the marker. */
  lemma NoMarkerWithoutB(a: string, rest: string)
    requires 'B' !in a
    ensures NoOccurrenceBefore(a + rest, EventMarker, |a|)
  {
    NoOccurrenceWithoutFirstChar(a, rest, EventMarker);
  }

  /** A calendar name free of the marker cannot start one that runs past it, across the CRLF. */
  lemma NameHoldsNoMarker(name: string, rest: string)
    requires !Contains(name, EventMarker)
    ensures NoOccurrenceBefore(name + CRLF + rest, EventMarker, |name|)
  {
    var s := name + CRLF + rest;
    forall p | 0 <= p < |name| && p <= |s|
      ensures !StartsWith(s[p..], EventMarker)
    {
      if p + |EventMarker| <= |name| {
        assert s[p..][..|EventMarker|] == name[p..][..|EventMarker|];
      } else {
        var k := |name| - p;
        assert s[p..][k] == '\r';
      }
    }
  }

  lemma FirstLineHoldsNoMarker(rest: string)
    ensures NoOccurrenceBefore("BEGIN:VCALENDAR" + CRLF + rest, EventMarker, |"BEGIN:VCALENDAR" + CRLF|)
  {
    var a := "BEGIN:VCALENDAR" + CRLF;
    var s := a + rest;
    assert 'B' !in a[1..];
    forall p | 0 <= p < |a| && p <= |s|
      ensures !StartsWith(s[p..], EventMarker)
    {
      if p == 0 {
        assert s[..|EventMarker|][7] == 'C';
      } else {
        assert s[p..][0] == a[1..][p - 1];
      }
    }
  }

  /** The header text up to the calendar name. */
  function HeaderBeforeName(): string {
    "BEGIN:VCALENDAR" + CRLF
      + Terminated(["VERSION:2.0", "PRODID:-//cycle-overlay//Cycle Calendar//EN", "CALSCALE:GREGORIAN"])
      + "X-WR-CALNAME:"
  }

  lemma HeaderText(name: string)
    ensures Terminated(HeaderLines(name)) == HeaderBeforeName() + name + CRLF
  {
    var fixed := ["VERSION:2.0", "PRODID:-//cycle-overlay//Cycle Calendar//EN", "CALSCALE:GREGORIAN"];
    var c := "X-WR-CALNAME:";
    assert HeaderLines(name)[1..] == fixed + [c + name];
    TerminatedAppend(fixed, [c + name]);
    assert [c + name][1..] == [];
    assert Terminated([c + name]) == c + name + CRLF;
    assert Terminated(HeaderLines(name)) == "BEGIN:VCALENDAR" + CRLF + Terminated(HeaderLines(name)[1..]);
  }

  lemma ProductIdHasNoB()
    ensures 'B' !in "PRODID:-//cycle-overlay//Cycle Calendar//EN"
  {
  }

  lemma HeaderFieldsHaveNoB()
    ensures 'B' !in "VERSION:2.0" && 'B' !in "CALSCALE:GREGORIAN" && 'B' !in "X-WR-CALNAME:"
  {
  }

  /** The fixed header lines after the first, and the name field's prefix, hold no `B`. */
  lemma FixedHeaderHasNoB()
    ensures 'B' !in Terminated(["VERSION:2.0", "PRODID:-//cycle-overlay//Cycle Calendar//EN", "CALSCALE:GREGORIAN"])
    ensures 'B' !in "X-WR-CALNAME:"
  {
    var ls := ["VERSION:2.0", "PRODID:-//cycle-overlay//Cycle Calendar//EN", "CALSCALE:GREGORIAN"];
    HeaderFieldsHaveNoB();
    ProductIdHasNoB();
    assert forall i :: 0 <= i < |ls| ==> 'B' !in ls[i];
    NoCharInTerminated(ls, 'B');
  }

  lemma HeaderBeforeNameHoldsNoMarker(rest: string)
    ensures NoOccurrenceBefore(HeaderBeforeName() + rest, EventMarker, |HeaderBeforeName()|)
  {
    var a := "BEGIN:VCALENDAR" + CRLF;
    var b := Terminated(["VERSION:2.0", "PRODID:-//cycle-overlay//Cycle Calendar//EN", "CALSCALE:GREGORIAN"]);
    var c := "X-WR-CALNAME:";
    FixedHeaderHasNoB();
    NoMarkerWithoutB(b + c, rest);
    FirstLineHoldsNoMarker(b + c + rest);
    NoOccurrenceShift(a, b + c + rest, EventMarker, |b + c|);
    assert a + (b + c + rest) == HeaderBeforeName() + rest;
  }

  /** The calendar header holds no marker, whatever follows it, when the name holds none. */
  lemma HeaderHoldsNoMarker(name: string, rest: string)
    requires !Contains(name, EventMarker)
    ensures NoOccurrenceBefore(Terminated(HeaderLines(name)) + rest, EventMarker, |Terminated(HeaderLines(name))|)
  {
    var a := HeaderBeforeName();
    var tail := name + CRLF + rest;
    HeaderText(name);
    NameHoldsNoMarker(name, rest);
    NoMarkerWithoutB(CRLF, rest);
    assert tail == name + (CRLF + rest);
    NoOccurrenceShift(name, CRLF + rest, EventMarker, 2);
    HeaderBeforeNameHoldsNoMarker(tail);
    NoOccurrenceShift(a, tail, EventMarker, |name| + 2);
    assert a + tail == Terminated(HeaderLines(name)) + rest;
  }

  // ---------------------------------------------------------------------
  // The events part of the text
  // ---------------------------------------------------------------------

  /** The lines of an event after its "BEGIN:VEVENT". */
  function Body(day: int, summary: string): seq<string> {
    EventLines(day, summary)[1..]
  }

  /** What follows an event's marker up to the next one: the end of the marker's line, then the event's other lines. */
  function BlockText(day: int, summary: string): string {
    CRLF + Terminated(Body(day, summary))
  }

  function FooterText(): string {
    Terminated([Footer])
  }

  /** The calendar text after the first marker, for the events of consecutive days from `day`. */
  function AfterFirstMarker(day: int, summaries: seq<string>): string
    requires summaries != []
    decreases |summaries|
  {
    if |summaries| == 1 then BlockText(day, summaries[0]) + FooterText()
    else BlockText(day, summaries[0]) + EventMarker + AfterFirstMarker(day + 1, summaries[1..])
  }

  /** The pieces the split at the marker yields after the header: one per event, the footer in the last. */
  function BlocksOf(day: int, summaries: seq<string>): seq<string>
    requires summaries != []
    decreases |summaries|
  {
    if |summaries| == 1 then [BlockText(day, summaries[0]) + FooterText()]
    else [BlockText(day, summaries[0])] + BlocksOf(day + 1, summaries[1..])
  }

  /** The first day's event comes first. */
  lemma {:induction false} EventsOfFront(day: int, summaries: seq<string>)
    requires summaries != []
    ensures EventsOf(day, summaries) == EventLines(day, summaries[0]) + EventsOf(day + 1, summaries[1..])
    decreases |summaries|
  {
    var k := |summaries| - 1;
    if k == 0 {
      assert summaries[..0] == [];
      assert summaries[1..] == [];
    } else {
      var init := summaries[..k];
      var next := day + 1;
      var lastDay := day + k;
      var front := EventLines(day, summaries[0]);
      var last := EventLines(lastDay, summaries[k]);
      var tail := init[1..];
      EventsOfLast(day, summaries, lastDay);
      EventsOfFront(day, init);
      assert init[0] == summaries[0];
      assert EventsOf(day, init) == front + EventsOf(next, tail);
      DropFirstOfSnoc(summaries);
      EventsOfLast(next, summaries[1..], lastDay);
      assert EventsOf(next, summaries[1..]) == EventsOf(next, tail) + last;
      AppendAssociative(front, EventsOf(next, tail), last);
    }
  }

  lemma DropFirstOfSnoc<T>(s: seq<T>)
    requires |s| >= 2
    ensures s[1..] == s[..|s| - 1][1..] + [s[|s| - 1]]
  {
  }

  lemma EventText(day: int, summary: string)
    ensures Terminated(EventLines(day, summary)) == EventMarker + BlockText(day, summary)
  {
    var lines := EventLines(day, summary);
    assert Terminated(lines) == lines[0] + CRLF + Terminated(lines[1..]);
  }

  lemma ConcatStep(m: string, b: string, t: string, f: string, after: string)
    requires t + f == m + after
    ensures (m + b) + t + f == m + (b + m + after)
  {
    assert (m + b) + t + f == m + b + (t + f);
  }

  /** The events and the footer, as text, are the first marker and what follows it. */
  lemma {:induction false} EventsText(day: int, summaries: seq<string>)
    requires summaries != []
    ensures Terminated(EventsOf(day, summaries)) + FooterText() == EventMarker + AfterFirstMarker(day, summaries)
    decreases |summaries|
  {
    var first := EventLines(day, summaries[0]);
    var rest := EventsOf(day + 1, summaries[1..]);
    var b := BlockText(day, summaries[0]);
    var f := FooterText();
    EventsOfFront(day, summaries);
    TerminatedAppend(first, rest);
    EventText(day, summaries[0]);
    assert Terminated(EventsOf(day, summaries)) == (EventMarker + b) + Terminated(rest);
    if |summaries| == 1 {
      assert summaries[1..] == [];
      assert Terminated(rest) == "";
      assert AfterFirstMarker(day, summaries) == b + f;
    } else {
      EventsText(day + 1, summaries[1..]);
      ConcatStep(EventMarker, b, Terminated(rest), f, AfterFirstMarker(day + 1, summaries[1..]));
    }
  }

  // ---------------------------------------------------------------------
  // Cutting the events part at the markers
  // ---------------------------------------------------------------------

  /** A date stamp is digits and dashes: no line break, no colon, no space, no `B`. */
  lemma StampChars(day: int)
    ensures NoLineBreak(DateStamp(day)) && 'B' !in DateStamp(day) && ':' !in DateStamp(day)
    ensures !IsSpace(DateStamp(day)[0]) && !IsSpace(DateStamp(day)[|DateStamp(day)| - 1])
  {
    var d := DateStamp(day);
    assert forall i :: 0 <= i < |d| ==> IsDigit(d[i]) || d[i] == '-';
  }

  lemma {:induction false} NoCharInTerminated(lines: seq<string>, c: char)
    requires c != '\r' && c != '\n'
    requires forall i :: 0 <= i < |lines| ==> c !in lines[i]
    ensures c !in Terminated(lines)
  {
    if lines != [] {
      assert forall i :: 0 <= i < |lines[1..]| ==> lines[1..][i] == lines[i + 1];
      NoCharInTerminated(lines[1..], c);
    }
  }

  lemma EventFieldsHaveNoB()
    ensures 'B' !in "UID:" && 'B' !in "-cycle-overlay" && 'B' !in "DTSTART;VALUE=DATE:"
    ensures 'B' !in "DTEND;VALUE=DATE:" && 'B' !in "SUMMARY:" && 'B' !in "END:VEVENT"
  {
  }

  lemma BlockHasNoB(day: int, summary: string)
    requires 'B' !in summary
    ensures 'B' !in BlockText(day, summary)
  {
    var body := Body(day, summary);
    StampChars(day);
    StampChars(day + 1);
    EventFieldsHaveNoB();
    assert forall i :: 0 <= i < |body| ==> 'B' !in body[i];
    NoCharInTerminated(body, 'B');
  }

  lemma FooterHasNoB()
    ensures 'B' !in FooterText()
  {
    assert [Footer][1..] == [];
    assert Terminated([Footer]) == Footer + CRLF + Terminated([]);
    assert 'B' !in Footer && 'B' !in CRLF;
  }

  /** The last event's piece runs to the end of the text, the footer included. */
  lemma SplitLastBlock(b: string)
    requires 'B' !in b
    ensures SplitScan(b + FooterText(), EventMarker, "") == [b + FooterText()]
  {
    var a := b + FooterText();
    FooterHasNoB();
    NoMarkerWithoutB(a, "");
    assert a + "" == a;
    SplitScanNoSeparator(a, EventMarker, "");
    assert "" + a == a;
  }

  /** An event's piece ends at the next marker. */
  lemma SplitBlockStep(b: string, rest: string)
    requires 'B' !in b
    ensures SplitScan(b + EventMarker + rest, EventMarker, "") == [b] + SplitScan(rest, EventMarker, "")
  {
    NoMarkerWithoutB(b, EventMarker + rest);
    AppendAssociative(b, EventMarker, rest);
    SplitScanAtSeparator(b, rest, EventMarker, "");
    assert "" + b == b;
  }

  /** Cutting the text after the first marker at every further marker yields one piece per event. */
  lemma {:induction false} SplitAfterFirstMarker(day: int, summaries: seq<string>)
    requires summaries != []
    requires forall i :: 0 <= i < |summaries| ==> 'B' !in summaries[i]
    ensures SplitScan(AfterFirstMarker(day, summaries), EventMarker, "") == BlocksOf(day, summaries)
    decreases |summaries|
  {
    var b := BlockText(day, summaries[0]);
    BlockHasNoB(day, summaries[0]);
    if |summaries| == 1 {
      SplitLastBlock(b);
    } else {
      var next := day + 1;
      var tail := summaries[1..];
      assert forall i :: 0 <= i < |tail| ==> tail[i] == summaries[i + 1];
      SplitBlockStep(b, AfterFirstMarker(next, tail));
      SplitAfterFirstMarker(next, tail);
    }
  }

  // ---------------------------------------------------------------------
  // Reading one block
  // ---------------------------------------------------------------------

  lemma NoLineBreakAppend(a: string, b: string)
    requires NoLineBreak(a) && NoLineBreak(b)
    ensures NoLineBreak(a + b)
  {
    assert forall i :: |a| <= i < |a + b| ==> (a + b)[i] == b[i - |a|];
  }

  lemma FieldTextsHaveNoLineBreak()
    ensures NoLineBreak("UID:") && NoLineBreak("-cycle-overlay") && NoLineBreak(DtStartPrefix)
    ensures NoLineBreak("DTEND;VALUE=DATE:") && NoLineBreak(SummaryPrefix) && NoLineBreak("END:VEVENT")
  {
  }

  /** No line of an event holds a line break when its label holds none. */
  lemma BodyHasNoLineBreak(day: int, summary: string)
    requires NoLineBreak(summary)
    ensures forall i :: 0 <= i < |Body(day, summary)| ==> NoLineBreak(Body(day, summary)[i])
  {
    var stamp := DateStamp(day);
    StampChars(day);
    StampChars(day + 1);
    FieldTextsHaveNoLineBreak();
    NoLineBreakAppend(stamp, "-cycle-overlay");
    NoLineBreakAppend("UID:", stamp + "-cycle-overlay");
    NoLineBreakAppend(DtStartPrefix, stamp);
    NoLineBreakAppend("DTEND;VALUE=DATE:", DateStamp(day + 1));
    NoLineBreakAppend(SummaryPrefix, summary);
  }

  /** The lines of a block: the empty rest of the marker's line, then the event's other lines, then the footer in the last. */
  lemma BlockLines(day: int, summary: string, last: bool)
    requires NoLineBreak(summary)
    ensures SplitLines(BlockText(day, summary) + (if last then FooterText() else ""))
            == [""] + Body(day, summary) + (if last then [Footer] else [])
  {
    BodyHasNoLineBreak(day, summary);
    LinesAfterMarker(Body(day, summary), last);
  }

  lemma NoBreakLinesAppend(a: seq<string>, b: seq<string>)
    requires forall i :: 0 <= i < |a| ==> NoLineBreak(a[i])
    requires forall i :: 0 <= i < |b| ==> NoLineBreak(b[i])
    ensures forall i :: 0 <= i < |a + b| ==> NoLineBreak((a + b)[i])
  {
    forall i | 0 <= i < |a + b| ensures NoLineBreak((a + b)[i]) {
      if i < |a| {
        assert (a + b)[i] == a[i];
      } else {
        assert (a + b)[i] == b[i - |a|];
      }
    }
  }

  /** Lines without line breaks, after the end of the marker's line, split back into themselves. */
  lemma LinesAfterMarker(body: seq<string>, last: bool)
    requires forall i :: 0 <= i < |body| ==> NoLineBreak(body[i])
    ensures SplitLines(CRLF + Terminated(body) + (if last then FooterText() else ""))
            == [""] + body + (if last then [Footer] else [])
  {
    var tail: seq<string> := if last then [Footer] else [];
    var lines := [""] + body + tail;
    MarkerLineAndFooterHaveNoLineBreak();
    NoBreakLinesAppend([""], body);
    NoBreakLinesAppend([""] + body, tail);
    TextAfterMarker(body, last);
    SplitLinesTerminated(lines);
  }

  lemma MarkerLineAndFooterHaveNoLineBreak()
    ensures forall i :: 0 <= i < |[""]| ==> NoLineBreak([""][i])
    ensures forall i :: 0 <= i < |[Footer]| ==> NoLineBreak([Footer][i])
  {
    assert NoLineBreak("") && NoLineBreak(Footer);
  }

  /** The text after a marker is the empty rest of its line, then the lines that follow. */
  lemma TextAfterMarker(body: seq<string>, last: bool)
    ensures Terminated([""] + body + (if last then [Footer] else []))
            == CRLF + Terminated(body) + (if last then FooterText() else "")
  {
    var tail: seq<string> := if last then [Footer] else [];
    assert ([""] + body)[1..] == body;
    assert Terminated([""] + body) == "" + CRLF + Terminated(body);
    TerminatedAppend([""] + body, tail);
    assert Terminated(tail) == if last then FooterText() else "";
    assert "" + CRLF == CRLF;
  }

  lemma DiffersAt(s: string, p: string, k: int)
    requires 0 <= k < |p| && k < |s| && s[k] != p[k]
    ensures !StartsWith(s, p)
  {
    if |p| <= |s| {
      assert s[..|p|][k] == s[k];
    }
  }

  lemma LabelHasNoLineBreak(summary: string)
    requires CleanLabel(summary)
    ensures NoLineBreak(summary)
  {
    forall i | 0 <= i < |summary| ensures !IsLineBreak(summary[i]) {
      SummaryCharIsPlain(summary[i]);
    }
  }

  /** A field line's value is what follows its prefix, when that is already stripped. */
  lemma FieldValueAfterPrefix(prefix: string, value: string)
    requires FieldPrefix(prefix)
    requires value == [] || (!IsSpace(value[0]) && !IsSpace(value[|value| - 1]))
    ensures StartsWith(prefix + value, prefix)
    ensures FieldValue(prefix + value) == value
  {
    assert (prefix + value)[..|prefix|] == prefix;
    AfterPrefix(prefix, value);
    StripKeepsTrimmed(value);
  }

  /**
    Lines holding a DTSTART line at 2 and a SUMMARY line at 4, followed by
    lines that start neither way, yield those two values.
   */
  lemma EntryOfLines(lines: seq<string>, stamp: string, summary: string)
    requires 5 <= |lines|
    requires lines[2] == DtStartPrefix + stamp && lines[4] == SummaryPrefix + summary
    requires stamp != [] && !IsSpace(stamp[0]) && !IsSpace(stamp[|stamp| - 1])
    requires summary != [] && !IsSpace(summary[0]) && !IsSpace(summary[|summary| - 1])
    requires |lines[3]| > 2 && lines[3][2] == 'E'
    requires forall j :: 5 <= j < |lines| ==> |lines[j]| > 0 && lines[j][0] == 'E'
    ensures Entry(ScanLines(lines, Fields(None, None))) == Some((stamp, summary))
  {
    DtStartOfLines(lines, stamp, summary);
    SummaryOfLines(lines, summary);
  }

  lemma DtStartOfLines(lines: seq<string>, stamp: string, summary: string)
    requires 5 <= |lines|
    requires lines[2] == DtStartPrefix + stamp && lines[4] == SummaryPrefix + summary
    requires stamp == [] || (!IsSpace(stamp[0]) && !IsSpace(stamp[|stamp| - 1]))
    requires |lines[3]| > 2 && lines[3][2] == 'E'
    requires forall j :: 5 <= j < |lines| ==> |lines[j]| > 0 && lines[j][0] == 'E'
    ensures ScanLines(lines, Fields(None, None)).dtstart == Some(stamp)
  {
    PrefixesAreFieldPrefixes();
    PrefixLetters();
    FieldValueAfterPrefix(DtStartPrefix, stamp);
    forall j | 2 < j < |lines| ensures !StartsWith(lines[j], DtStartPrefix) {
      if j == 3 {
        DiffersAt(lines[3], DtStartPrefix, 2);
      } else if j == 4 {
        var line := lines[4];
        assert line[0] == SummaryPrefix[0];
        DiffersAt(line, DtStartPrefix, 0);
      } else {
        DiffersAt(lines[j], DtStartPrefix, 0);
      }
    }
    ScanLinesLastDtStart(lines, Fields(None, None), 2);
  }

  lemma SummaryOfLines(lines: seq<string>, summary: string)
    requires 5 <= |lines| && lines[4] == SummaryPrefix + summary
    requires summary == [] || (!IsSpace(summary[0]) && !IsSpace(summary[|summary| - 1]))
    requires forall j :: 5 <= j < |lines| ==> |lines[j]| > 0 && lines[j][0] == 'E'
    ensures ScanLines(lines, Fields(None, None)).summary == Some(summary)
  {
    PrefixesAreFieldPrefixes();
    PrefixLetters();
    FieldValueAfterPrefix(SummaryPrefix, summary);
    forall j | 4 < j < |lines| ensures !StartsWith(lines[j], SummaryPrefix) {
      DiffersAt(lines[j], SummaryPrefix, 0);
    }
    ScanLinesLastSummary(lines, Fields(None, None), 4);
  }

  lemma PrefixLetters()
    ensures |DtStartPrefix| > 2 && DtStartPrefix[0] == 'D' && DtStartPrefix[2] == 'S'
    ensures |SummaryPrefix| > 0 && SummaryPrefix[0] == 'S'
  {
  }

  /** The lines of an event after its marker: UID, DTSTART, DTEND, SUMMARY and END. */
  lemma BodyFields(day: int, summary: string)
    ensures var body := Body(day, summary);
            && |body| == 5
            && body[1] == DtStartPrefix + DateStamp(day)
            && body[3] == SummaryPrefix + summary
            && |body[2]| > 2 && body[2][2] == 'E'
            && |body[4]| > 0 && body[4][0] == 'E'
  {
  }

  /** Each block yields the day's DTSTART stamp and the day's label. */
  lemma BlockEntryOf(day: int, summary: string, last: bool)
    requires CleanLabel(summary)
    ensures BlockEntry(BlockText(day, summary) + (if last then FooterText() else ""))
            == Some((DateStamp(day), summary))
  {
    var stamp := DateStamp(day);
    var body := Body(day, summary);
    var tail: seq<string> := if last then [Footer] else [];
    var lines := [""] + body + tail;
    LabelHasNoLineBreak(summary);
    BlockLines(day, summary, last);
    StampChars(day);
    BodyFields(day, summary);
    assert |Footer| > 0 && Footer[0] == 'E';
    assert forall j :: 1 <= j < 6 ==> lines[j] == body[j - 1];
    assert forall j :: 6 <= j < |lines| ==> lines[j] == Footer;
    EntryOfLines(lines, stamp, summary);
  }

  // ---------------------------------------------------------------------
  // The map the reader builds
  // ---------------------------------------------------------------------

  /** The map after entering the labels of consecutive days from `day` into `events`, one after the other. */
  function Expected(day: int, summaries: seq<string>, events: map<string, string>): map<string, string>
    decreases |summaries|
  {
    if summaries == [] then events
    else Expected(day + 1, summaries[1..], events[DateStamp(day) := summaries[0]])
  }

  lemma CollectStep(blocks: seq<string>, events: map<string, string>, stamp: string, summary: string)
    requires blocks != [] && BlockEntry(blocks[0]) == Some((stamp, summary))
    ensures Collect(blocks, events) == Collect(blocks[1..], events[stamp := summary])
  {
  }

  lemma BlocksOfFront(day: int, summaries: seq<string>)
    requires summaries != []
    ensures BlocksOf(day, summaries)[0]
            == BlockText(day, summaries[0]) + (if |summaries| == 1 then FooterText() else "")
    ensures |summaries| > 1 ==> BlocksOf(day, summaries)[1..] == BlocksOf(day + 1, summaries[1..])
    ensures |summaries| == 1 ==> BlocksOf(day, summaries)[1..] == []
  {
  }

  /** The first block enters the first day's label under its stamp. */
  lemma CollectFirstBlock(day: int, nextDay: int, summaries: seq<string>, events: map<string, string>)
    requires summaries != [] && CleanLabel(summaries[0]) && nextDay == day + 1
    ensures |summaries| == 1 ==> Collect(BlocksOf(day, summaries), events) == events[DateStamp(day) := summaries[0]]
    ensures |summaries| > 1 ==> Collect(BlocksOf(day, summaries), events)
                                == Collect(BlocksOf(nextDay, summaries[1..]), events[DateStamp(day) := summaries[0]])
  {
    var blocks := BlocksOf(day, summaries);
    BlocksOfFront(day, summaries);
    BlockEntryOf(day, summaries[0], |summaries| == 1);
    CollectStep(blocks, events, DateStamp(day), summaries[0]);
  }

  /** The blocks of the events, read in order, enter each day's label under its stamp. */
  lemma {:induction false} CollectBlocks(day: int, summaries: seq<string>, events: map<string, string>)
    requires summaries != []
    requires forall i :: 0 <= i < |summaries| ==> CleanLabel(summaries[i])
    ensures Collect(BlocksOf(day, summaries), events) == Expected(day, summaries, events)
    decreases |summaries|
  {
    var nextDay := day + 1;
    var tail := summaries[1..];
    var next := events[DateStamp(day) := summaries[0]];
    assert Expected(day, summaries, events) == Expected(nextDay, tail, next);
    CollectFirstBlock(day, nextDay, summaries, events);
    if |summaries| > 1 {
      CleanTail(summaries);
      CollectBlocks(nextDay, tail, next);
    } else {
      assert tail == [];
    }
  }

  lemma CleanTail(summaries: seq<string>)
    requires summaries != []
    requires forall i :: 0 <= i < |summaries| ==> CleanLabel(summaries[i])
    ensures forall i :: 0 <= i < |summaries[1..]| ==> CleanLabel(summaries[1..][i])
  {
    var rest := summaries[1..];
    forall i | 0 <= i < |rest| ensures CleanLabel(rest[i]) {
      assert rest[i] == summaries[i + 1];
    }
  }

  lemma StampsDiffer(a: int, b: int)
    requires a != b
    ensures DateStamp(a) != DateStamp(b)
  {
    if DateStamp(a) == DateStamp(b) {
      DateStampInjective(a, b);
    }
  }

  /** A key that is no day's stamp keeps what it had. */
  lemma {:induction false} ExpectedUntouched(day: int, summaries: seq<string>, events: map<string, string>, key: string)
    requires forall d :: day <= d < day + |summaries| ==> DateStamp(d) != key
    ensures key in Expected(day, summaries, events) <==> key in events
    ensures key in events ==> Expected(day, summaries, events)[key] == events[key]
    decreases |summaries|
  {
    if summaries != [] {
      ExpectedUntouched(day + 1, summaries[1..], events[DateStamp(day) := summaries[0]], key);
    }
  }

  /** Every day of the run is entered under its stamp with its own label: day `d` is the `i`-th. */
  lemma {:induction false} ExpectedAt(day: int, summaries: seq<string>, events: map<string, string>, i: int, d: int)
    requires 0 <= i < |summaries| && d == day + i
    ensures DateStamp(d) in Expected(day, summaries, events)
    ensures Expected(day, summaries, events)[DateStamp(d)] == summaries[i]
    decreases |summaries|
  {
    var next := events[DateStamp(day) := summaries[0]];
    if i == 0 {
      forall e | day + 1 <= e < day + |summaries| ensures DateStamp(e) != DateStamp(day) {
        StampsDiffer(e, day);
      }
      ExpectedUntouched(day + 1, summaries[1..], next, DateStamp(day));
    } else {
      ExpectedAt(day + 1, summaries[1..], next, i - 1, d);
    }
  }

  /** The keys are those of `events` and the days' stamps, and nothing else. */
  lemma {:induction false} ExpectedKeys(day: int, summaries: seq<string>, events: map<string, string>, key: string)
    ensures key in Expected(day, summaries, events)
            <==> key in events || exists d :: day <= d < day + |summaries| && key == DateStamp(d)
    decreases |summaries|
  {
    if summaries != [] {
      ExpectedKeys(day + 1, summaries[1..], events[DateStamp(day) := summaries[0]], key);
    }
  }

  /** Distinct days give distinct keys, so each day adds one entry. */
  lemma {:induction false} ExpectedSize(day: int, summaries: seq<string>, events: map<string, string>)
    requires forall d :: day <= d < day + |summaries| ==> DateStamp(d) !in events
    ensures |Expected(day, summaries, events)| == |events| + |summaries|
    decreases |summaries|
  {
    if summaries != [] {
      var next := events[DateStamp(day) := summaries[0]];
      forall d | day + 1 <= d < day + |summaries| ensures DateStamp(d) !in next {
        StampsDiffer(d, day);
      }
      ExpectedSize(day + 1, summaries[1..], next);
    }
  }

  // ---------------------------------------------------------------------
  // The whole calendar read back
  // ---------------------------------------------------------------------

  lemma LabelHasNoB(summary: string)
    requires CleanLabel(summary)
    ensures 'B' !in summary
  {
    forall i | 0 <= i < |summary| ensures summary[i] != 'B' {
      SummaryCharIsPlain(summary[i]);
    }
  }

  /** The text of a calendar is its header's, its events' and its footer's, one after the other. */
  lemma CalendarTextParts(name: string, day: int, summaries: seq<string>)
    ensures Terminated(HeaderLines(name) + EventsOf(day, summaries) + [Footer])
            == Terminated(HeaderLines(name)) + Terminated(EventsOf(day, summaries)) + FooterText()
  {
    TerminatedAppend(HeaderLines(name) + EventsOf(day, summaries), [Footer]);
    TerminatedAppend(HeaderLines(name), EventsOf(day, summaries));
  }

  /** A calendar without events reads back as no events. */
  lemma ReadEmptyCalendar(name: string, day: int)
    requires !Contains(name, EventMarker)
    ensures ReadEvents(Terminated(HeaderLines(name) + EventsOf(day, []) + [Footer])) == map[]
  {
    var h := Terminated(HeaderLines(name));
    var f := FooterText();
    CalendarTextParts(name, day, []);
    assert Terminated(HeaderLines(name) + EventsOf(day, []) + [Footer]) == h + f;
    HeaderHoldsNoMarker(name, f);
    FooterHasNoB();
    NoMarkerWithoutB(f, "");
    assert f + "" == f;
    NoOccurrenceShift(h, f, EventMarker, |f|);
    SplitScanNoSeparator(h + f, EventMarker, "");
  }

  /** A calendar with events reads back as the map that enters each day's label under its stamp. */
  lemma ReadCalendarWithEvents(name: string, day: int, summaries: seq<string>)
    requires !Contains(name, EventMarker)
    requires summaries != []
    requires forall i :: 0 <= i < |summaries| ==> CleanLabel(summaries[i])
    ensures ReadEvents(Terminated(HeaderLines(name) + EventsOf(day, summaries) + [Footer]))
            == Expected(day, summaries, map[])
  {
    var h := Terminated(HeaderLines(name));
    var after := AfterFirstMarker(day, summaries);
    CalendarTextSplit(name, day, summaries);
    HeaderHoldsNoMarker(name, EventMarker + after);
    AppendAssociative(h, EventMarker, after);
    HeaderIgnored(h, after);
    ReadBlocks(day, summaries);
  }

  /** The text of a calendar with events is its header, the first marker and what follows that marker. */
  lemma CalendarTextSplit(name: string, day: int, summaries: seq<string>)
    requires summaries != []
    ensures Terminated(HeaderLines(name) + EventsOf(day, summaries) + [Footer])
            == Terminated(HeaderLines(name)) + EventMarker + AfterFirstMarker(day, summaries)
  {
    CalendarTextParts(name, day, summaries);
    EventsText(day, summaries);
    JoinParts(Terminated(HeaderLines(name)), Terminated(EventsOf(day, summaries)), FooterText(),
              EventMarker, AfterFirstMarker(day, summaries));
  }

  lemma JoinParts<T>(h: seq<T>, e: seq<T>, f: seq<T>, m: seq<T>, after: seq<T>)
    requires e + f == m + after
    ensures h + e + f == h + m + after
  {
    assert h + e + f == h + (e + f);
  }

  /** What follows the first marker reads as the map that enters each day's label under its stamp. */
  lemma ReadBlocks(day: int, summaries: seq<string>)
    requires summaries != []
    requires forall i :: 0 <= i < |summaries| ==> CleanLabel(summaries[i])
    ensures Collect(Split(AfterFirstMarker(day, summaries), EventMarker), map[]) == Expected(day, summaries, map[])
  {
    forall i | 0 <= i < |summaries| ensures 'B' !in summaries[i] {
      LabelHasNoB(summaries[i]);
    }
    SplitAfterFirstMarker(day, summaries);
    CollectBlocks(day, summaries, map[]);
  }

  /** The map for the labels of `count` days: one entry per day, under its stamp, with its label. */
  lemma ExpectedOfDays(day: int, count: nat, labelOf: int -> string)
    ensures var events := Expected(day, Summaries(day, count, labelOf), map[]);
            && |events| == count
            && (forall d :: day <= d < day + count ==> DateStamp(d) in events && events[DateStamp(d)] == labelOf(d))
            && (forall key :: key in events ==> exists d :: day <= d < day + count && key == DateStamp(d))
  {
    var summaries := Summaries(day, count, labelOf);
    ExpectedSize(day, summaries, map[]);
    forall d | day <= d < day + count
      ensures DateStamp(d) in Expected(day, summaries, map[])
      ensures Expected(day, summaries, map[])[DateStamp(d)] == labelOf(d)
    {
      DayAt(day, count, labelOf, d);
    }
    forall key | key in Expected(day, summaries, map[])
      ensures exists d :: day <= d < day + count && key == DateStamp(d)
    {
      ExpectedKeys(day, summaries, map[], key);
    }
  }

  /** Day `d` of the run is entered under its stamp with its label. */
  lemma DayAt(day: int, count: nat, labelOf: int -> string, d: int)
    requires day <= d < day + count
    ensures DateStamp(d) in Expected(day, Summaries(day, count, labelOf), map[])
    ensures Expected(day, Summaries(day, count, labelOf), map[])[DateStamp(d)] == labelOf(d)
  {
    var i := d - day;
    SummariesAt(day, count, labelOf, i);
    assert day + i == d;
    ExpectedAt(day, Summaries(day, count, labelOf), map[], i, d);
  }

  /** A calendar whose labels are clean reads back as the map of its days' labels. */
  lemma ReadCalendar(name: string, day: int, count: nat, labelOf: int -> string)
    requires !Contains(name, EventMarker)
    requires forall d :: day <= d < day + count ==> CleanLabel(labelOf(d))
    ensures ReadEvents(Terminated(HeaderLines(name) + EventsOf(day, Summaries(day, count, labelOf)) + [Footer]))
            == Expected(day, Summaries(day, count, labelOf), map[])
  {
    var summaries := Summaries(day, count, labelOf);
    if count == 0 {
      assert summaries == [];
      ReadEmptyCalendar(name, day);
    } else {
      forall i | 0 <= i < count ensures CleanLabel(summaries[i]) {
        SummariesAt(day, count, labelOf, i);
      }
      ReadCalendarWithEvents(name, day, summaries);
    }
  }

  /**
    Reading back a built calendar whose name holds no "BEGIN:VEVENT" gives one
    entry per day of the range: each day's DTSTART stamp maps to that day's
    label, and there is no other key.
   */
  lemma ReadBackCalendar(calendarName: string, startDate: int, endDate: int, cycleStarts: seq<int>,
                         lastKnownStart: int, cycleLength: int, periodLength: int)
    requires !Contains(calendarName, EventMarker)
    ensures var events := ReadEvents(IcsText(calendarName, startDate, endDate, cycleStarts,
                                             lastKnownStart, cycleLength, periodLength));
            && |events| == TotalDays(startDate, endDate)
            && (forall d :: startDate <= d <= endDate ==>
                  DateStamp(d) in events
                  && events[DateStamp(d)] == DaySummary(d, cycleStarts, lastKnownStart, cycleLength, periodLength))
            && (forall key :: key in events ==> exists d :: startDate <= d <= endDate && key == DateStamp(d))
  {
    var n := TotalDays(startDate, endDate);
    var labelOf := Labeller(cycleStarts, lastKnownStart, cycleLength, periodLength);
    var events := ReadEvents(IcsText(calendarName, startDate, endDate, cycleStarts,
                                     lastKnownStart, cycleLength, periodLength));
    IcsTextIsTerminated(calendarName, startDate, endDate, cycleStarts, lastKnownStart, cycleLength, periodLength);
    LabelsAreClean(cycleStarts, lastKnownStart, cycleLength, periodLength, startDate, n);
    ReadCalendar(calendarName, startDate, n, labelOf);
    ExpectedOfDays(startDate, n, labelOf);
    assert events == Expected(startDate, Summaries(startDate, n, labelOf), map[]);
    forall d | startDate <= d <= endDate
      ensures DateStamp(d) in events
      ensures events[DateStamp(d)] == DaySummary(d, cycleStarts, lastKnownStart, cycleLength, periodLength)
    {
      assert d < startDate + n;
      LabellerAt(cycleStarts, lastKnownStart, cycleLength, periodLength, d);
    }
    forall key | key in events ensures exists d :: startDate <= d <= endDate && key == DateStamp(d) {
      var d :| startDate <= d < startDate + n && key == DateStamp(d);
      assert d <= endDate;
    }
  }

  /** Every label the calendar's labeller gives is clean. */
  lemma LabelsAreClean(cycleStarts: seq<int>, lastKnownStart: int, cycleLength: int, periodLength: int,
                       day: int, count: nat)
    ensures forall d :: day <= d < day + count ==>
              CleanLabel(Labeller(cycleStarts, lastKnownStart, cycleLength, periodLength)(d))
  {
    forall d | day <= d < day + count
      ensures CleanLabel(Labeller(cycleStarts, lastKnownStart, cycleLength, periodLength)(d))
    {
      LabellerAt(cycleStarts, lastKnownStart, cycleLength, periodLength, d);
      DaySummaryClean(d, cycleStarts, lastKnownStart, cycleLength, periodLength);
    }
  }
}
