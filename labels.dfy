/**
  What every per-day label of the calendar looks like: the window's labels,
  the characters a label is made of, and the invariants the calendar's test
  asserts of every label (no " Men", no " Ovu", no leading "0").
 */
module Labels {
  import opened Text
  import opened Phases
  import opened Lookup
  import opened Ics

  /** The day `h` of the possible new cycle that `current` is, counted from 1. */
  function WindowDay(current: int, lastKnownStart: int, cycleLength: int): int {
    current - NextCycleStart(lastKnownStart, cycleLength) + 1
  }

  /**
    The window is the five days from the next predicted start: inside it the
    label is the hypothetical one, outside it the day's own phase.
   */
  lemma WindowLabels(current: int, cycleStarts: seq<int>, lastKnownStart: int, cycleLength: int, periodLength: int)
    ensures InHypotheticalWindow(current, lastKnownStart, cycleLength)
            <==> 1 <= WindowDay(current, lastKnownStart, cycleLength) <= HypotheticalWindowDays
    ensures InHypotheticalWindow(current, lastKnownStart, cycleLength) ==>
              DaySummary(current, cycleStarts, lastKnownStart, cycleLength, periodLength)
              == HypotheticalSummary(cycleLength, WindowDay(current, lastKnownStart, cycleLength), periodLength)
    ensures !InHypotheticalWindow(current, lastKnownStart, cycleLength) ==>
              DaySummary(current, cycleStarts, lastKnownStart, cycleLength, periodLength)
              == CycleSummary(current, cycleStarts, cycleLength, periodLength)
  {
  }

  /**
    A window label names day `cycleLength + h` of the old cycle as luteal and
    shows day `h` of the new one, with a drop while `h` is within the period
    and a leaf after it.
   */
  lemma HypotheticalSummaryShape(cycleLength: int, h: int, periodLength: int)
    ensures var r := HypotheticalSummary(cycleLength, h, periodLength);
            var n := IntToString(cycleLength + h);
            && StartsWith(r, n)
            && r[|n|..|n| + 8] == [' ', Moon] + " Lut ("
            && r[|n| + 8..|r| - 2] == IntToString(h)
            && r[|r| - 2] == (if h <= periodLength then Drop else Leaf)
            && r[|r| - 1] == ')'
  {
    var emoji := if h <= periodLength then Drop else Leaf;
    WindowLabelShape(IntToString(cycleLength + h), IntToString(h), emoji);
  }

  /** The pieces of a window label built from two numbers and a glyph. */
  lemma WindowLabelShape(n: string, m: string, emoji: char)
    ensures var r := n + " " + [Moon] + " Lut " + "(" + (m + [emoji]) + ")";
            && StartsWith(r, n)
            && r[|n|..|n| + 8] == [' ', Moon] + " Lut ("
            && r[|n| + 8..|r| - 2] == m
            && r[|r| - 2] == emoji
            && r[|r| - 1] == ')'
  {
    var mid := [' ', Moon] + " Lut (";
    var r := n + " " + [Moon] + " Lut " + "(" + (m + [emoji]) + ")";
    assert |mid| == 8;
    assert r == n + (mid + (m + [emoji, ')']));
    assert r[..|n|] == n;
    assert r[|n|..] == mid + (m + [emoji, ')']);
    assert r[|n|..][..8] == mid;
    assert r[|n| + 8..] == m + [emoji, ')'];
    assert r[|n| + 8..|r| - 2] == r[|n| + 8..][..|m|];
  }

  // ---------------------------------------------------------------------
  // The characters of a label
  // ---------------------------------------------------------------------

  lemma SummaryCharsAppend(a: string, b: string)
    requires AllSummaryChars(a) && AllSummaryChars(b)
    ensures AllSummaryChars(a + b)
  {
    forall i | 0 <= i < |a + b| ensures IsSummaryChar((a + b)[i]) {
      if i < |a| { assert (a + b)[i] == a[i]; } else { assert (a + b)[i] == b[i - |a|]; }
    }
  }

  lemma NumberChars(n: int)
    ensures AllSummaryChars(IntToString(n))
  {
  }

  /** A label whose text a reader gets back unchanged from a `SUMMARY:` line. */
  predicate CleanLabel(s: string) {
    && s != []
    && AllSummaryChars(s)
    && !IsSpace(s[0])
    && !IsSpace(s[|s| - 1])
  }

  /** The characters of a label hold no line break, no colon and no `B`. */
  lemma SummaryCharIsPlain(c: char)
    requires IsSummaryChar(c)
    ensures !IsLineBreak(c) && c != 'B' && c != 'M' && c != ':'
  {
  }

  lemma HypotheticalSummaryClean(cycleLength: int, h: int, periodLength: int)
    ensures CleanLabel(HypotheticalSummary(cycleLength, h, periodLength))
  {
    var emoji := if h <= periodLength then Drop else Leaf;
    NumberChars(cycleLength + h);
    NumberChars(h);
    WindowLabelClean(IntToString(cycleLength + h), IntToString(h), emoji);
  }

  /** A window label built from two numbers and a glyph is clean. */
  lemma WindowLabelClean(n: string, m: string, emoji: char)
    requires n != [] && AllSummaryChars(n) && !IsSpace(n[0])
    requires AllSummaryChars(m) && IsGlyph(emoji)
    ensures CleanLabel(n + " " + [Moon] + " Lut " + "(" + (m + [emoji]) + ")")
  {
    var mid := " " + [Moon] + " Lut " + "(";
    var tail := m + [emoji] + ")";
    var r := n + " " + [Moon] + " Lut " + "(" + (m + [emoji]) + ")";
    assert r == n + mid + tail;
    SummaryCharsAppend(m, [emoji] + ")");
    assert tail == m + ([emoji] + ")");
    SummaryCharsAppend(n, mid);
    SummaryCharsAppend(n + mid, tail);
    assert r[0] == n[0];
  }

  lemma CycleSummaryClean(current: int, cycleStarts: seq<int>, cycleLength: int, periodLength: int)
    ensures CleanLabel(CycleSummary(current, cycleStarts, cycleLength, periodLength))
  {
    var day := current - GoverningStart(current, cycleStarts) + 1;
    PhaseLabelClean(day, PhaseForDayShort(day, cycleLength, periodLength));
  }

  /** The label of any day number and phase is clean. */
  lemma PhaseLabelClean(day: int, p: Phase)
    ensures CleanLabel(FormatSummary(day, p.Code(), p.Emoji()))
  {
    var r := FormatSummary(day, p.Code(), p.Emoji());
    FormatSummaryChars(day, p);
    assert r[0] == IntToString(day)[0];
    if p != Men {
      assert r[|r| - 1] == p.Code()[2];
    }
  }

  /** Outside the window and the period, a label is the day's digits, a space, the glyph, a space and the code. */
  lemma CycleLabelText(current: int, cycleStarts: seq<int>, lastKnownStart: int, cycleLength: int, periodLength: int,
                       dayInCycle: int, p: Phase, digits: string)
    requires !InHypotheticalWindow(current, lastKnownStart, cycleLength)
    requires dayInCycle == current - GoverningStart(current, cycleStarts) + 1
    requires p == PhaseForDayShort(dayInCycle, cycleLength, periodLength) && p != Men
    requires digits == IntToString(dayInCycle)
    ensures DaySummary(current, cycleStarts, lastKnownStart, cycleLength, periodLength)
            == digits + [' ', p.Emoji(), ' '] + p.Code()
  {
    assert p.Code() != "Men";
    assert DaySummary(current, cycleStarts, lastKnownStart, cycleLength, periodLength)
           == FormatSummary(dayInCycle, p.Code(), p.Emoji());
  }

  /** Every label of the calendar is clean. */
  lemma DaySummaryClean(current: int, cycleStarts: seq<int>, lastKnownStart: int, cycleLength: int, periodLength: int)
    ensures CleanLabel(DaySummary(current, cycleStarts, lastKnownStart, cycleLength, periodLength))
  {
    if InHypotheticalWindow(current, lastKnownStart, cycleLength) {
      var h := current - NextCycleStart(lastKnownStart, cycleLength) + 1;
      assert DaySummary(current, cycleStarts, lastKnownStart, cycleLength, periodLength)
             == HypotheticalSummary(cycleLength, h, periodLength);
      HypotheticalSummaryClean(cycleLength, h, periodLength);
    } else {
      assert DaySummary(current, cycleStarts, lastKnownStart, cycleLength, periodLength)
             == CycleSummary(current, cycleStarts, cycleLength, periodLength);
      CycleSummaryClean(current, cycleStarts, cycleLength, periodLength);
    }
  }

  // ---------------------------------------------------------------------
  // The test's invariants
  // ---------------------------------------------------------------------

  /** No label shows the text " Men": menstruation days show only the glyph. */
  lemma NoMenInSummary(current: int, cycleStarts: seq<int>, lastKnownStart: int, cycleLength: int, periodLength: int)
    ensures !Contains(DaySummary(current, cycleStarts, lastKnownStart, cycleLength, periodLength), " Men")
  {
    var r := DaySummary(current, cycleStarts, lastKnownStart, cycleLength, periodLength);
    DaySummaryClean(current, cycleStarts, lastKnownStart, cycleLength, periodLength);
    assert 'M' !in r by {
      forall i | 0 <= i < |r| ensures r[i] != 'M' {
        SummaryCharIsPlain(r[i]);
      }
    }
    MissingCharNotContained(r, " Men", 'M');
  }

  lemma HypotheticalHasNoOvu(cycleLength: int, h: int, periodLength: int)
    ensures !Contains(HypotheticalSummary(cycleLength, h, periodLength), " Ovu")
  {
    var r := HypotheticalSummary(cycleLength, h, periodLength);
    HypotheticalSummaryClean(cycleLength, h, periodLength);
    HypotheticalSummaryShape(cycleLength, h, periodLength);
    var n := IntToString(cycleLength + h);
    assert 'O' !in r by {
      forall i | 0 <= i < |r| ensures r[i] != 'O' {
        if i < |n| {
          assert r[i] == n[i];
        } else if i < |n| + 8 {
          assert r[i] == r[|n|..|n| + 8][i - |n|];
        } else if i < |r| - 2 {
          assert r[i] == r[|n| + 8..|r| - 2][i - |n| - 8];
        }
      }
    }
    MissingCharNotContained(r, " Ovu", 'O');
  }

  lemma CycleHasNoOvu(current: int, cycleStarts: seq<int>, cycleLength: int, periodLength: int)
    ensures !Contains(CycleSummary(current, cycleStarts, cycleLength, periodLength), " Ovu")
  {
    var day := current - GoverningStart(current, cycleStarts) + 1;
    PhaseLabelHasNoOvu(day, PhaseForDayShort(day, cycleLength, periodLength));
  }

  /** The label of any day number and phase lacks " Ovu": it has no `O`, or no `u` when the phase is Ovl. */
  lemma PhaseLabelHasNoOvu(day: int, p: Phase)
    ensures !Contains(FormatSummary(day, p.Code(), p.Emoji()), " Ovu")
  {
    var r := FormatSummary(day, p.Code(), p.Emoji());
    var n := IntToString(day);
    var c := if p == Ovl then 'u' else 'O';
    assert c !in r by {
      forall i | 0 <= i < |r| ensures r[i] != c {
        if i < |n| { assert r[i] == n[i]; }
      }
    }
    MissingCharNotContained(r, " Ovu", c);
  }

  /** Where a label holds the ovulation code it is spelled "Ovl"; "Ovu" never appears. */
  lemma NoOvuInSummary(current: int, cycleStarts: seq<int>, lastKnownStart: int, cycleLength: int, periodLength: int)
    ensures !Contains(DaySummary(current, cycleStarts, lastKnownStart, cycleLength, periodLength), " Ovu")
  {
    if InHypotheticalWindow(current, lastKnownStart, cycleLength) {
      HypotheticalHasNoOvu(cycleLength, WindowDay(current, lastKnownStart, cycleLength), periodLength);
    } else {
      CycleHasNoOvu(current, cycleStarts, cycleLength, periodLength);
    }
  }

  /**
    When the day is not before the first start and the cycle length is not
    negative, the label's leading number is at least 1, so it does not start
    with "0".
   */
  lemma NoLeadingZero(current: int, cycleStarts: seq<int>, lastKnownStart: int, cycleLength: int, periodLength: int)
    requires Sorted(cycleStarts)
    requires cycleStarts != [] ==> cycleStarts[0] <= current
    requires cycleLength >= 0
    ensures DaySummary(current, cycleStarts, lastKnownStart, cycleLength, periodLength)[0] != '0'
  {
    DaySummaryClean(current, cycleStarts, lastKnownStart, cycleLength, periodLength);
    if InHypotheticalWindow(current, lastKnownStart, cycleLength) {
      HypotheticalSummaryShape(cycleLength, WindowDay(current, lastKnownStart, cycleLength), periodLength);
    } else {
      if cycleStarts != [] {
        GoverningStartIsLatestStart(current, cycleStarts);
      }
      var day := current - GoverningStart(current, cycleStarts) + 1;
      assert day >= 1;
      var p := PhaseForDayShort(day, cycleLength, periodLength);
      assert StartsWith(FormatSummary(day, p.Code(), p.Emoji()), IntToString(day));
    }
  }
}
