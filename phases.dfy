/**
  Phase classification and summary formatting of the calendar
  (`phase_for_day_short`, `format_summary`, `format_hypothetical` in
  scripts/generate_ics.py).
 */
module Phases {
  import opened Text

  /** The four glyphs the calendar uses. */
  const Drop: char := '\U{1FA78}'
  const Star: char := '\U{2B50}'
  const Moon: char := '\U{1F319}'
  const Leaf: char := '\U{1F33F}'

  /** How many days of a cycle the ovulation estimate lies before its end. */
  const LutealDays: int := 14

  /** The calendar's phases, by the short code it prints. */
  datatype Phase = Men | Ovl | Lut | Fol {
    function Code(): string {
      match this
      case Men => "Men"
      case Ovl => "Ovl"
      case Lut => "Lut"
      case Fol => "Fol"
    }

    function Emoji(): char {
      match this
      case Men => Drop
      case Ovl => Star
      case Lut => Moon
      case Fol => Leaf
    }

    /** Position of the phase within one cycle. */
    function Rank(): nat {
      match this
      case Men => 0
      case Fol => 1
      case Ovl => 2
      case Lut => 3
    }
  }

  function OvulationDay(cycleLength: int): int {
    cycleLength - LutealDays
  }

  /**
    The phase of day `day` of a cycle. Menstruation is tested first, then
    ovulation, then the luteal phase; what is left is follicular.
   */
  function PhaseForDayShort(day: int, cycleLength: int, periodLength: int): (p: Phase)
    ensures p == Men <==> 1 <= day <= periodLength
    ensures p != Men ==> (p == Ovl <==> day == cycleLength - 14)
    ensures p != Men ==> (p == Lut <==> day > cycleLength - 14)
    ensures p != Men ==> (p == Fol <==> day < cycleLength - 14)
  {
    if 1 <= day <= periodLength then Men
    else if day == OvulationDay(cycleLength) then Ovl
    else if day > OvulationDay(cycleLength) then Lut
    else Fol
  }

  /** When the ovulation estimate falls inside the period, the period label wins. */
  lemma MenstruationWinsOverOvulation(cycleLength: int, periodLength: int)
    requires 1 <= OvulationDay(cycleLength) <= periodLength
    ensures PhaseForDayShort(OvulationDay(cycleLength), cycleLength, periodLength) == Men
    ensures forall day :: PhaseForDayShort(day, cycleLength, periodLength) != Ovl
  {
  }

  /** From day 1 on, the phases follow each other in the order Men, Fol, Ovl, Lut. */
  lemma PhasesInCycleOrder(d1: int, d2: int, cycleLength: int, periodLength: int)
    requires 1 <= d1 <= d2
    ensures PhaseForDayShort(d1, cycleLength, periodLength).Rank()
            <= PhaseForDayShort(d2, cycleLength, periodLength).Rank()
  {
  }

  /**
    `format_summary`: the cycle day, the glyph, and the code unless it is
    menstruation. A menstruation label is the number and the glyph, joined
    by a space only after day 3; any other label is the number, a space, the
    glyph, a space and the code.
   */
  function FormatSummary(day: int, phaseShort: string, emoji: char): (r: string)
    ensures StartsWith(r, IntToString(day))
    ensures phaseShort == "Men" ==> r[|r| - 1] == emoji
    ensures phaseShort == "Men" ==> (|r| == |IntToString(day)| + 1 <==> day <= 3)
    ensures phaseShort == "Men" && day <= 3 ==> r == IntToString(day) + [emoji]
    ensures phaseShort == "Men" && day > 3 ==> r == IntToString(day) + [' ', emoji]
    ensures phaseShort != "Men" ==> |r| > |phaseShort| && r[|r| - |phaseShort|..] == phaseShort
    ensures phaseShort != "Men" ==> r[|r| - |phaseShort| - 1] == ' '
    ensures phaseShort != "Men" ==> r == IntToString(day) + [' ', emoji, ' '] + phaseShort
  {
    if phaseShort == "Men" then
      if day <= 3 then IntToString(day) + [emoji] else IntToString(day) + " " + [emoji]
    else IntToString(day) + " " + [emoji] + " " + phaseShort
  }

  /** `format_hypothetical`: the day of the possible new cycle and its glyph, with no space. */
  function FormatHypothetical(day: int, emoji: char): (r: string)
    ensures |r| == |IntToString(day)| + 1
    ensures r[..|r| - 1] == IntToString(day) && r[|r| - 1] == emoji
  {
    IntToString(day) + [emoji]
  }

  // ---------------------------------------------------------------------
  // The characters a summary is made of
  // ---------------------------------------------------------------------

  predicate IsGlyph(c: char) {
    c == Drop || c == Star || c == Moon || c == Leaf
  }

  /**
    Every character a calendar summary can hold: digits and the minus sign of
    a number, spaces, parentheses, the glyphs and the letters of the codes
    Ovl, Lut and Fol.
   */
  predicate IsSummaryChar(c: char) {
    IsDigit(c) || c == '-' || c == ' ' || c == '(' || c == ')' || IsGlyph(c)
    || c == 'O' || c == 'v' || c == 'l' || c == 'L' || c == 'u' || c == 't' || c == 'F' || c == 'o'
  }

  predicate AllSummaryChars(s: string) {
    forall i :: 0 <= i < |s| ==> IsSummaryChar(s[i])
  }

  /** The summary characters other than the parentheses, which only window labels use. */
  predicate IsCycleLabelChar(c: char) {
    IsDigit(c) || c == '-' || c == ' ' || IsGlyph(c)
    || c == 'O' || c == 'v' || c == 'l' || c == 'L' || c == 'u' || c == 't' || c == 'F' || c == 'o'
  }

  /** A string of cycle-label characters is a string of summary characters without parentheses. */
  lemma CycleLabelCharsPlain(r: string)
    requires forall i :: 0 <= i < |r| ==> IsCycleLabelChar(r[i])
    ensures AllSummaryChars(r)
    ensures '(' !in r && ')' !in r
  {
  }

  /** Shown for a phase with its own code, the summary uses only summary characters, and no parentheses. */
  lemma FormatSummaryChars(day: int, p: Phase)
    ensures AllSummaryChars(FormatSummary(day, p.Code(), p.Emoji()))
    ensures '(' !in FormatSummary(day, p.Code(), p.Emoji()) && ')' !in FormatSummary(day, p.Code(), p.Emoji())
  {
    var r := FormatSummary(day, p.Code(), p.Emoji());
    var n := IntToString(day);
    forall i | 0 <= i < |r| ensures IsCycleLabelChar(r[i]) {
      if i < |n| {
        assert r[i] == n[i];
      }
    }
    CycleLabelCharsPlain(r);
  }
}
