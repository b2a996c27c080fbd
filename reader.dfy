/**
  The calendar reader of the generator's check script (`parse_events` in
  scripts/test_generation.py): the text is cut at every "BEGIN:VEVENT", the
  part before the first cut is dropped, and each block yields its DTSTART
  date and its SUMMARY, which go into a map from date to summary.
 */
module Reader {
  import opened Wrappers
  import opened Text

  const EventMarker: string := "BEGIN:VEVENT"
  const DtStartPrefix: string := "DTSTART;VALUE=DATE:"
  const SummaryPrefix: string := "SUMMARY:"

  /** `line.split(":", 1)[1]`: what follows the first colon. */
  function AfterFirstColon(line: string): (r: string)
    requires ':' in line
    ensures |r| < |line| && line[|line| - |r| - 1] == ':'
    ensures line[|line| - |r|..] == r
    ensures ':' !in line[..|line| - |r| - 1]
  {
    if line[0] == ':' then line[1..]
    else
      var r := AfterFirstColon(line[1..]);
      assert line[1..][..|line[1..]| - |r| - 1] == line[1..|line| - |r| - 1];
      r
  }

  /** A prefix that ends with its only colon. */
  predicate FieldPrefix(prefix: string) {
    |prefix| > 0 && prefix[|prefix| - 1] == ':' && ':' !in prefix[..|prefix| - 1]
  }

  /** After a field prefix, the value is everything that follows it, colons included. */
  lemma AfterPrefix(prefix: string, value: string)
    requires FieldPrefix(prefix)
    ensures ':' in prefix + value
    ensures AfterFirstColon(prefix + value) == value
  {
    var line := prefix + value;
    assert line[|prefix| - 1] == ':';
  }

  lemma PrefixesAreFieldPrefixes()
    ensures FieldPrefix(DtStartPrefix) && FieldPrefix(SummaryPrefix)
  {
    assert DtStartPrefix[..|DtStartPrefix| - 1] == "DTSTART;VALUE=DATE";
    assert SummaryPrefix[..|SummaryPrefix| - 1] == "SUMMARY";
  }

  /** A line that starts with a field prefix holds a colon. */
  lemma PrefixedHasColon(line: string, prefix: string)
    requires FieldPrefix(prefix) && StartsWith(line, prefix)
    ensures ':' in line
  {
    assert line[|prefix| - 1] == prefix[|prefix| - 1];
  }

  /** The stripped value of a field line (a line without a colon has none). */
  function FieldValue(line: string): string {
    if ':' in line then Strip(AfterFirstColon(line)) else ""
  }

  // ---------------------------------------------------------------------
  // One block
  // ---------------------------------------------------------------------

  /** The two variables the inner loop keeps: the last DTSTART and SUMMARY values seen. */
  datatype Fields = Fields(dtstart: Option<string>, summary: Option<string>)

  /** One round of the inner loop: each test applies on its own. */
  function ScanLine(f: Fields, line: string): Fields {
    var f1 := if StartsWith(line, DtStartPrefix) then f.(dtstart := Some(FieldValue(line))) else f;
    if StartsWith(line, SummaryPrefix) then f1.(summary := Some(FieldValue(line))) else f1
  }

  /** The inner loop over the lines of a block, from the values `f`. */
  function ScanLines(lines: seq<string>, f: Fields): Fields {
    if lines == [] then f else ScanLines(lines[1..], ScanLine(f, lines[0]))
  }

  /** What a block contributes: its date and summary when both are present and non-empty. */
  function Entry(f: Fields): Option<(string, string)> {
    if f.dtstart.Some? && f.dtstart.value != "" && f.summary.Some? && f.summary.value != ""
    then Some((f.dtstart.value, f.summary.value))
    else None
  }

  function BlockEntry(block: string): Option<(string, string)> {
    Entry(ScanLines(SplitLines(block), Fields(None, None)))
  }

  /** With no DTSTART line, the DTSTART value is left as it was. */
  lemma {:induction false} ScanLinesNoDtStart(lines: seq<string>, f: Fields)
    requires forall j :: 0 <= j < |lines| ==> !StartsWith(lines[j], DtStartPrefix)
    ensures ScanLines(lines, f).dtstart == f.dtstart
  {
    if lines != [] {
      var g := ScanLine(f, lines[0]);
      assert g.dtstart == f.dtstart;
      assert forall j :: 0 <= j < |lines[1..]| ==> lines[1..][j] == lines[j + 1];
      ScanLinesNoDtStart(lines[1..], g);
    }
  }

  /** The DTSTART value of a block is that of its last DTSTART line. */
  lemma {:induction false} ScanLinesLastDtStart(lines: seq<string>, f: Fields, k: int)
    requires 0 <= k < |lines| && StartsWith(lines[k], DtStartPrefix)
    requires forall j :: k < j < |lines| ==> !StartsWith(lines[j], DtStartPrefix)
    ensures ScanLines(lines, f).dtstart == Some(FieldValue(lines[k]))
  {
    var g := ScanLine(f, lines[0]);
    assert forall j :: 0 <= j < |lines[1..]| ==> lines[1..][j] == lines[j + 1];
    if k == 0 {
      assert g.dtstart == Some(FieldValue(lines[0]));
      ScanLinesNoDtStart(lines[1..], g);
    } else {
      ScanLinesLastDtStart(lines[1..], g, k - 1);
    }
  }

  /** With no SUMMARY line, the SUMMARY value is left as it was. */
  lemma {:induction false} ScanLinesNoSummary(lines: seq<string>, f: Fields)
    requires forall j :: 0 <= j < |lines| ==> !StartsWith(lines[j], SummaryPrefix)
    ensures ScanLines(lines, f).summary == f.summary
  {
    if lines != [] {
      var g := ScanLine(f, lines[0]);
      assert g.summary == f.summary;
      assert forall j :: 0 <= j < |lines[1..]| ==> lines[1..][j] == lines[j + 1];
      ScanLinesNoSummary(lines[1..], g);
    }
  }

  /** The SUMMARY value of a block is that of its last SUMMARY line. */
  lemma {:induction false} ScanLinesLastSummary(lines: seq<string>, f: Fields, k: int)
    requires 0 <= k < |lines| && StartsWith(lines[k], SummaryPrefix)
    requires forall j :: k < j < |lines| ==> !StartsWith(lines[j], SummaryPrefix)
    ensures ScanLines(lines, f).summary == Some(FieldValue(lines[k]))
  {
    var g := ScanLine(f, lines[0]);
    assert forall j :: 0 <= j < |lines[1..]| ==> lines[1..][j] == lines[j + 1];
    if k == 0 {
      assert g.summary == Some(FieldValue(lines[0]));
      ScanLinesNoSummary(lines[1..], g);
    } else {
      ScanLinesLastSummary(lines[1..], g, k - 1);
    }
  }

  // ---------------------------------------------------------------------
  // All blocks
  // ---------------------------------------------------------------------

  /** The outer loop over the blocks, from the map `events`: later blocks overwrite earlier ones. */
  function Collect(blocks: seq<string>, events: map<string, string>): map<string, string> {
    if blocks == [] then events
    else
      var next := match BlockEntry(blocks[0])
                  case Some((d, s)) => events[d := s]
                  case None => events;
      Collect(blocks[1..], next)
  }

  /** What `parse_events` returns for a text. */
  function ReadEvents(icsText: string): map<string, string> {
    Collect(Split(icsText, EventMarker)[1..], map[])
  }

  /** `parse_events`: the nested loops over blocks and lines. */
  method ParseEvents(icsText: string) returns (events: map<string, string>)
    ensures events == ReadEvents(icsText)
  {
    events := map[];
    var blocks := Split(icsText, EventMarker)[1..];
    var i := 0;
    while i < |blocks|
      invariant 0 <= i <= |blocks|
      invariant Collect(blocks[i..], events) == Collect(blocks, map[])
    {
      var block := blocks[i];
      var dtstart: Option<string> := None;
      var summary: Option<string> := None;
      var lines := SplitLines(block);
      var j := 0;
      while j < |lines|
        invariant 0 <= j <= |lines|
        invariant ScanLines(lines[j..], Fields(dtstart, summary)) == ScanLines(lines, Fields(None, None))
      {
        var line := lines[j];
        assert lines[j..][1..] == lines[j + 1..];
        PrefixesAreFieldPrefixes();
        if StartsWith(line, DtStartPrefix) {
          PrefixedHasColon(line, DtStartPrefix);
          dtstart := Some(Strip(AfterFirstColon(line)));
        }
        if StartsWith(line, SummaryPrefix) {
          PrefixedHasColon(line, SummaryPrefix);
          summary := Some(Strip(AfterFirstColon(line)));
        }
        j := j + 1;
      }
      assert blocks[i..][1..] == blocks[i + 1..];
      if dtstart.Some? && dtstart.value != "" && summary.Some? && summary.value != "" {
        events := events[dtstart.value := summary.value];
      }
      i := i + 1;
    }
  }

  // ---------------------------------------------------------------------
  // Properties of the reader
  // ---------------------------------------------------------------------

  /** Whatever precedes the first "BEGIN:VEVENT" is never read, so the calendar header cannot create an event. */
  lemma HeaderIgnored(header: string, rest: string)
    requires NoOccurrenceBefore(header + EventMarker + rest, EventMarker, |header|)
    ensures ReadEvents(header + EventMarker + rest) == Collect(Split(rest, EventMarker), map[])
  {
    SplitScanAtSeparator(header, rest, EventMarker, "");
  }

  /** A date that no block yields keeps the entry it had. */
  lemma {:induction false} CollectUntouched(blocks: seq<string>, events: map<string, string>, d: string)
    requires forall j :: 0 <= j < |blocks| ==> BlockEntry(blocks[j]).None? || BlockEntry(blocks[j]).value.0 != d
    ensures d in Collect(blocks, events) <==> d in events
    ensures d in events ==> Collect(blocks, events)[d] == events[d]
  {
    if blocks != [] {
      var next := match BlockEntry(blocks[0])
                  case Some((e, s)) => events[e := s]
                  case None => events;
      assert forall j :: 0 <= j < |blocks[1..]| ==> blocks[1..][j] == blocks[j + 1];
      CollectUntouched(blocks[1..], next, d);
    }
  }

  /**
    A block enters the map only with a non-empty date and summary, and the
    last block that yields a date decides its summary.
   */
  lemma {:induction false} CollectLastWins(blocks: seq<string>, events: map<string, string>, k: int)
    requires 0 <= k < |blocks| && BlockEntry(blocks[k]).Some?
    requires forall j :: k < j < |blocks| ==>
               BlockEntry(blocks[j]).None? || BlockEntry(blocks[j]).value.0 != BlockEntry(blocks[k]).value.0
    ensures BlockEntry(blocks[k]).value.0 != "" && BlockEntry(blocks[k]).value.1 != ""
    ensures BlockEntry(blocks[k]).value.0 in Collect(blocks, events)
    ensures Collect(blocks, events)[BlockEntry(blocks[k]).value.0] == BlockEntry(blocks[k]).value.1
  {
    var next := match BlockEntry(blocks[0])
                case Some((e, s)) => events[e := s]
                case None => events;
    var d := BlockEntry(blocks[k]).value.0;
    if k == 0 {
      assert forall j :: 0 <= j < |blocks[1..]| ==> blocks[1..][j] == blocks[j + 1];
      CollectUntouched(blocks[1..], next, d);
    } else {
      assert blocks[1..][k - 1] == blocks[k];
      assert forall j :: k - 1 < j < |blocks[1..]| ==> blocks[1..][j] == blocks[j + 1];
      CollectLastWins(blocks[1..], next, k - 1);
    }
  }
}
