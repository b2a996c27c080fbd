# cycle-overlay calendar generator, modelled in Dafny

The cycle-overlay generator turns a history of cycle start dates into an
iCalendar feed with one all-day event per day, plus a status record. Each
event's SUMMARY is a short label for the day:

- its day in the cycle, a glyph and a phase code (Men, Ovl, Lut, Fol);
- or, during the five days after the next predicted start, a "hypothetical"
  label that shows both the old cycle continuing and a new one having begun.

The status record reports the current cycle day and phase, the average cycle
length over the history, and two predicted dates. A small reader in the
generator's check script parses the built calendar back into a map from
DTSTART to SUMMARY.

This project models that core in Dafny:

- **Phases.** Day classification and label formatting.
- **Lookup.** The governing-cycle lookup: a binary search with `bisect_right` semantics.
- **Ics.** `build_ics`: a method proved equal to a specification of the calendar text.
- **Labels.** The label window and the character sets of labels.
- **History.** History normalisation.
- **Projection** and **Generate.** The start-list building and forward projection of `generate_one`.
- **Status.** The arithmetic and classification of `compute_status`.
- **Reader.** The reader `parse_events`.
- **RoundTrip.** A proof that reading a built calendar back gives exactly one entry per day, holding the label `build_ics` chose.
- **Scenario.** The fixed scenario the check script asserts.

How library pieces are represented:

- Dates are integer day numbers.
- The `%Y%m%d` rendering is `Ics.DateStamp`, an injective day-to-string function.
- `strptime` is a parameter `parse: string -> Option<int>`, which is `None` where the library raises.
- Python's `str.strip`, `str.split`, `str.splitlines`, string `<` and `sorted(set(...))` are written out as functions in `Text` and `Ordering`.

## Model

| member | source | states |
|---|---|---|
| Phases.PhaseForDayShort | scripts/generate_ics.py:32-40 | Men exactly when 1 ≤ day ≤ period length; otherwise Ovl exactly when day = cycle length − 14, Lut exactly when it is later, Fol exactly when it is earlier |
| Phases.MenstruationWinsOverOvulation | scripts/generate_ics.py:34-37 | when the ovulation day falls inside the period, that day is Men and no day is ever Ovl |
| Phases.PhasesInCycleOrder | scripts/generate_ics.py:32-40 | from day 1 on, later days never get an earlier phase in the order Men, Fol, Ovl, Lut |
| Phases.FormatSummary | scripts/generate_ics.py:43-48 | a Men label is the day number followed by the glyph, with a space between them exactly when the day is after 3; any other label is the day number, a space, the glyph, a space and the phase code |
| Phases.FormatHypothetical | scripts/generate_ics.py:51-52 | the day number immediately followed by the glyph |
| Phases.FormatSummaryChars | scripts/generate_ics.py:43-48 | a label uses only digits, '-', spaces, the four glyphs and the letters of the codes Ovl, Lut and Fol; in particular it holds no parentheses |
| Lookup.GoverningStart | scripts/generate_ics.py:55-61 | the specification of the governing start; Lookup.GoverningStartIsLatestStart and Lookup.NoStartBetween give its meaning |
| Lookup.BisectRight | scripts/generate_ics.py:58 | on a sorted list, returns the index before which every element is at most the date and from which every element is greater |
| Lookup.LastAtMostAtBoundary | scripts/generate_ics.py:58-61 | the element just before the `bisect_right` index is the last one at most the date, and there is none when the index is 0 |
| Lookup.CycleStartForDate | scripts/generate_ics.py:55-61 | the result is the governing start: the date itself for no starts, else the last start not after the date, else the first start |
| Lookup.GoverningStartIsLatestStart | scripts/generate_ics.py:55-61 | on a sorted non-empty list the governing start is a list element; when some start is not after the date it is the greatest such start; otherwise it is the first start |
| Lookup.NoStartBetween | scripts/generate_ics.py:55-61 | no start lies strictly between the governing start and the date |
| Ics.DateStamp | scripts/generate_ics.py:100 | the stamp is non-empty and made of digits and '-' |
| Ics.DateStampInjective | scripts/generate_ics.py:100-101 | distinct days get distinct stamps |
| Ics.HypotheticalSummary | scripts/generate_ics.py:87-93 | the window label; Labels.HypotheticalSummaryShape and Labels.HypotheticalSummaryClean give its text and characters |
| Ics.CycleSummary | scripts/generate_ics.py:95-98 | the governing cycle's label; Labels.CycleLabelText and Labels.CycleSummaryClean give its text and characters |
| Ics.DaySummary | scripts/generate_ics.py:84-98 | the label of a day; Labels.WindowLabels says which of the two labels applies, and Labels.DaySummaryClean, Labels.NoMenInSummary and Labels.NoOvuInSummary what it never holds |
| Ics.SummaryForDay | scripts/generate_ics.py:85-98 | the loop body's if/else yields the hypothetical label inside the window and the governing cycle's label outside it |
| Ics.SummariesAt | scripts/generate_ics.py:84-98 | the label at position i is the label of day start + i |
| Ics.BuildIcs | scripts/generate_ics.py:64-116 | the returned text is the header, one six-line event per day of the inclusive range, and the footer, joined with CRLF plus a final CRLF |
| Ics.EventsOfLength | scripts/generate_ics.py:84-113 | the loop adds exactly six event lines per day |
| Ics.EventsOfLayout | scripts/generate_ics.py:104-113 | the events are six lines per day; block i is the event of day start + i, with BEGIN, a UID made of the stamp and "-cycle-overlay", DTSTART, DTEND on the next day, SUMMARY and END |
| Ics.CalendarLayout | scripts/generate_ics.py:73-115 | the calendar has 5 + 6·(days in range) + 1 lines; the five header lines come first, END:VCALENDAR comes last, and block i is the event of day start + i with that day's label |
| Ics.IcsTextIsTerminated | scripts/generate_ics.py:116 | joining with CRLF and appending CRLF ends every line, the last included, with CRLF |
| Labels.WindowLabels | scripts/generate_ics.py:82-98 | a day is in the window exactly when its window day h is 1 to 5; inside, the label is the hypothetical one; outside, it is the governing cycle's |
| Labels.HypotheticalSummaryShape | scripts/generate_ics.py:87-93 | a window label is the number cycle length + h, then " 🌙 Lut (", then h, then a drop when h is within the period (a leaf otherwise), then ")" |
| Labels.HypotheticalSummaryClean | scripts/generate_ics.py:87-93 | a window label is non-empty, uses only label characters, and neither starts nor ends with whitespace |
| Labels.CycleSummaryClean | scripts/generate_ics.py:95-98 | a label outside the window is non-empty, uses only label characters, and neither starts nor ends with whitespace |
| Labels.CycleLabelText | scripts/generate_ics.py:95-98 | outside the window, a day whose phase is not Men is labelled with its day in the governing cycle, a space, the phase's glyph, a space and the phase's code |
| Labels.DaySummaryClean | scripts/generate_ics.py:84-98 | every day's label is non-empty, uses only label characters, and neither starts nor ends with whitespace |
| Labels.NoMenInSummary | scripts/generate_ics.py:43-48 | no label contains " Men" |
| Labels.NoOvuInSummary | scripts/generate_ics.py:36-37 | no label contains " Ovu" |
| Labels.NoLeadingZero | scripts/generate_ics.py:95-96 | on sorted starts with the day not before the first start, and a non-negative cycle length, the label does not start with "0" |
| History.Normalized | scripts/generate_ics.py:225-245 | the normalised history; History.NormalizedContents, History.StartOnce and History.NormalizeIdempotent give its meaning |
| History.AcceptedValues | scripts/generate_ics.py:228-241 | the kept values hold no duplicates |
| History.AcceptedValuesElems | scripts/generate_ics.py:228-241 | a value is kept exactly when some entry is a string whose stripped text is non-blank, parses, and equals it |
| History.NormalizeHistory | scripts/generate_ics.py:225-245 | the filtering loop with its seen set, the start, and the sort yield the normalised history |
| History.NormalizedContents | scripts/generate_ics.py:225-245 | the result is strictly increasing in string order; it holds the start, and any other string exactly when an accepted entry strips to it |
| History.StartOnce | scripts/generate_ics.py:242-243 | the start appears exactly once |
| History.RejectedLeaveNoTrace | scripts/generate_ics.py:229-237 | appending a non-string, blank or unparseable entry does not change the result |
| History.NormalizeIdempotent | scripts/generate_ics.py:225-245 | with an already stripped start, normalising the normalised history returns it unchanged |
| Projection.ParsedDatesElems | scripts/generate_ics.py:300-304 | a date is collected exactly when some history entry parses to it |
| Projection.CollectStarts | scripts/generate_ics.py:299-304 | the loop yields the last period start followed by the parsed history dates, in order |
| Projection.KnownStarts | scripts/generate_ics.py:305 | `sorted(set(...))` is strictly increasing and holds exactly the last period start and the parsed dates |
| Projection.KnownStartsBounds | scripts/generate_ics.py:305-307 | the known starts are non-empty, contain the last period start, and run from the earliest to the latest known date |
| Projection.Projected | scripts/generate_ics.py:309-312 | the starts the projection loop appends; Projection.ProjectedShape gives its elements |
| Projection.ProjectedShape | scripts/generate_ics.py:309-312 | the k-th projected start is next + k·length and is not after the end date; the first one skipped is after it |
| Projection.ProjectStarts | scripts/generate_ics.py:309-312 | the loop appends exactly the projected starts to the known ones |
| Projection.ProjectedListIncreasing | scripts/generate_ics.py:305-312 | with a positive length the whole list stays strictly increasing; every appended start is the last known start plus k ≥ 1 lengths and is not after the end date |
| Generate.NonBlankEntriesElems | scripts/generate_ics.py:293 | an entry is kept, unstripped, exactly when it is a string with non-blank text |
| Generate.PlanStarts | scripts/generate_ics.py:291 | the start list fails, with the text, exactly when the last period start does not parse |
| Generate.GenerateStarts | scripts/generate_ics.py:291-312 | the steps of lines 291-312 yield the plan: first day, last known start and every start |
| Generate.StartListShape | scripts/generate_ics.py:305-312 | up to the last known start the list holds the known starts and nothing else; after it, only starts whole cycles later and not after the end date |
| Generate.PlanShape | scripts/generate_ics.py:291-312 | the list is strictly increasing and starts at the calendar's first day, which is not after the last period start; up to the last known start it holds exactly the last period start and the parsed history dates; after it, whole cycles up to the end date |
| Generate.PlanLabelsHaveNoLeadingZero | scripts/generate_ics.py:306 | because the range starts at the earliest start, no label of the built calendar starts with "0" |
| Status.AverageCycleLength | scripts/generate_ics.py:142-150 | the average cycle length; Status.AverageBetweenGaps bounds it and the three examples below pin it down |
| Status.StatusOf | scripts/generate_ics.py:127-174 | the status record; Status.StatusRecordMeaning states what each field means |
| Status.RoundHalfEven | scripts/generate_ics.py:150 | `round` of an exact quotient: within half of the quotient, and even on a tie |
| Status.RoundHalfEvenBetween | scripts/generate_ics.py:150 | a rounded quotient between two integer bounds stays between them |
| Status.CollectDates | scripts/generate_ics.py:128-133 | the loop keeps the history dates that parse, in order |
| Status.CollectGaps | scripts/generate_ics.py:144-148 | the loop keeps the positive gaps between consecutive dates, in order |
| Status.AverageBetweenGaps | scripts/generate_ics.py:142-150 | with at least three dates and a positive gap, the average lies between the smallest and the largest positive gap; otherwise it is the configured length |
| Status.NonPositiveGapIgnored | scripts/generate_ics.py:146-148 | a date not after the previous one adds no gap |
| Status.AverageOfRegularCycles | scripts/generate_ics.py:142-150 | dates 0, 28 and 56 average to 28 |
| Status.AverageWithoutPositiveGaps | scripts/generate_ics.py:143-149 | three equal dates leave the configured length |
| Status.RoundingTiesToEven | scripts/generate_ics.py:150 | a mean of 28.5 rounds to 28 and one of 29.5 to 30 |
| Status.CycleDay | scripts/generate_ics.py:152-153 | 0 exactly when today is before the last start, else the days since it plus one |
| Status.StatusPhaseFor | scripts/generate_ics.py:156-171 | Menstruation exactly when 1 ≤ day ≤ period length; then Ovulation exactly when day = average − 14; then Luteal exactly when the day is later and positive |
| Status.StatusAgreesWithCalendar | scripts/generate_ics.py:156-171 | from day 1 on, the status phase is the calendar's phase (Ovu standing for Ovl) with the same glyph; on day 0 it is Ovulation or Follicular, never Luteal |
| Status.ComputeStatus | scripts/generate_ics.py:127-174 | the parsing and gap loops and the classification yield the status record |
| Status.StatusRecordMeaning | scripts/generate_ics.py:127-174 | in the record: the cycle day as above; the phase precedence, with no luteal or menstruation on day 0; the average between the gaps; the predicted start one average after the last start; predicted ovulation 14 days before that; the last cycle length present exactly when the second-to-last entry is non-empty and parses, and then measured from it |
| Reader.AfterFirstColon | scripts/test_generation.py:14 | the result is what follows the first colon, with no colon before it |
| Reader.AfterPrefix | scripts/test_generation.py:14 | after a prefix ending in its only colon, the value is everything that follows, colons included |
| Reader.ScanLinesNoDtStart | scripts/test_generation.py:12-14 | a block with no DTSTART line leaves the DTSTART value unchanged |
| Reader.ScanLinesLastDtStart | scripts/test_generation.py:12-14 | a block's DTSTART value is that of its last DTSTART line, stripped |
| Reader.ScanLinesNoSummary | scripts/test_generation.py:15-16 | a block with no SUMMARY line leaves the SUMMARY value unchanged |
| Reader.ScanLinesLastSummary | scripts/test_generation.py:15-16 | a block's SUMMARY value is that of its last SUMMARY line, stripped |
| Reader.ReadEvents | scripts/test_generation.py:7-19 | the map the reader returns; Reader.HeaderIgnored, Reader.CollectUntouched and Reader.CollectLastWins give its meaning |
| Reader.ParseEvents | scripts/test_generation.py:7-19 | the nested loops over blocks and lines yield the reader's map |
| Reader.HeaderIgnored | scripts/test_generation.py:9 | text before the first "BEGIN:VEVENT" is never read |
| Reader.CollectUntouched | scripts/test_generation.py:17-18 | a date no block yields keeps its entry |
| Reader.CollectLastWins | scripts/test_generation.py:17-18 | an entry needs a non-empty date and summary, and the last block with a given date decides its summary |
| RoundTrip.HeaderHoldsNoMarker | scripts/generate_ics.py:73-79 | when the calendar name holds no "BEGIN:VEVENT", the header holds none, whatever follows it |
| RoundTrip.EventsText | scripts/generate_ics.py:104-116 | the events and footer, as text, are a marker followed by the blocks the reader cuts |
| RoundTrip.SplitAfterFirstMarker | scripts/test_generation.py:9 | cutting at the markers yields exactly one block per day, in order |
| RoundTrip.BlockLines | scripts/test_generation.py:12 | a block's lines are the empty rest of the marker line, then the event's other five lines, then the footer in the last block |
| RoundTrip.BlockEntryOf | scripts/test_generation.py:10-18 | each block yields the day's stamp and the day's label |
| RoundTrip.CollectBlocks | scripts/test_generation.py:9-18 | reading the blocks in order enters each day's label under that day's stamp |
| RoundTrip.ExpectedAt | scripts/test_generation.py:18 | every day of the run is entered with its own label |
| RoundTrip.ExpectedKeys | scripts/test_generation.py:18 | no key other than the days' stamps is entered |
| RoundTrip.ExpectedSize | scripts/test_generation.py:18 | distinct days give distinct keys, so each day adds one entry |
| RoundTrip.ReadBackCalendar | scripts/test_generation.py:43-47 | reading a built calendar back gives one entry per day of the range: each day's stamp maps to that day's label, and there is no other key |
| Scenario.ScenarioStartsValue | scripts/test_generation.py:28-32 | the scenario's starts are the first day and the day 28 days later |
| Scenario.ScenarioReadBack | scripts/test_generation.py:43-47 | the scenario's map has 41 entries, one per day, each holding that day's label |
| Scenario.ScenarioLabelInvariants | scripts/test_generation.py:49-54 | the label of any day from the first start on holds neither " Men" nor " Ovu", is non-empty and does not start with "0" |
| Scenario.ScenarioInvariants | scripts/test_generation.py:49-54 | no label read back contains " Men" or " Ovu", and none starts with "0" |
| Scenario.Day28Label | scripts/test_generation.py:62-63 | day 28 is "28 🌙 Lut" |
| Scenario.Day34Label | scripts/test_generation.py:68-69 | day 34 is "6 🌿 Fol" |
| Scenario.Day14Label | scripts/test_generation.py:70-71 | day 14 is "14 ⭐ Ovl" |
| Scenario.Day29Label | scripts/generate_ics.py:86-93 | day 29, which opens the window, is "29 🌙 Lut (1🩸)" |
| Scenario.Day33Label | scripts/generate_ics.py:86-93 | day 33, which closes the window, is "33 🌙 Lut (5🌿)" |
| Scenario.ScenarioChecks | scripts/test_generation.py:43-71 | everything the script's `main` checks: the count, the three forbidden forms, and the five labels as the generator writes them |
| Text.JoinThenCrlf | scripts/generate_ics.py:116 | joining with CRLF and adding a CRLF ends every line with CRLF |
| Text.SplitLinesTerminated | scripts/test_generation.py:12 | `splitlines` of CRLF-terminated lines without line breaks gives those lines back |
| Text.SplitScanAtSeparator | scripts/test_generation.py:9 | `split` cuts at the first separator occurrence and keeps the text before it as one piece |
| Text.StripIdempotent | scripts/generate_ics.py:231 | stripping twice is stripping once |

## Left out

- File and process plumbing is not modelled. This covers `main`, `load_json`, `write_text`, `write_json`, directory creation, the path constants and the `STATUS_SOURCE` lookup; the source string is a parameter.
- `load_user_rows` is not modelled: it is a thin wrapper over CSV reading.
- The file read, JSON fallback and write of `ensure_user_source` are not modelled. Its merge rule would need dynamically typed JSON values.
- The clock is a parameter. `today` and the end date are inputs, so `datetime.utcnow()`, the `generatedAt`/`generated_at` timestamps and the float `months_ahead` → days mapping are not modelled.
- Calendar dates are day numbers:
  - `Ics.DateStamp` writes the day number in decimal, standing in for `%Y%m%d`. The reader and the proofs only use that stamps are distinct, non-empty and made of digits and '-'.
  - `isoformat` strings in the status record are kept as day numbers.
  - Day numbers are unbounded. Python's `date` ends at year 9999, where `current + timedelta(days=1)` (scripts/generate_ics.py:101) and `next_start += timedelta(...)` (scripts/generate_ics.py:312) raise `OverflowError`. The model never fails there.
- `strptime` is a parameter. Which strings it accepts is not modelled.
  - `History.NormalizedContents` orders by string comparison, as the code does, not by date.
- Status.AverageCycleLength models the float mean and `round` of line 150 as exact round-half-to-even of sum / count. Float rounding error on huge sums is not modelled.
- Status.StatusOf leaves out fields that only echo inputs or constants:
  - the `cycleStart` and `last_period_start` strings;
  - the `note` text;
  - the generation timestamps;
  - the `token` and `label` fields that `generate_one` adds.
- The glyphs are the four code points U+1FA78, U+2B50, U+1F319 and U+1F33F. The generator's file shows them as mis-decoded byte sequences.
- No line folding is applied, as in the code. Neither the code nor the model folds lines longer than 75 octets.
- Projection.Projected and Projection.ProjectStarts require a positive cycle length, or a first projected start already past the end date. In the code, any other length makes the `while next_start <= end_date` loop run forever.
- Generate.PlanStarts and Generate.GenerateStarts require a cycle length of at least 1 outright. They do not admit the other case `Projected` allows, a non-positive length whose first projected start is already past the end date; for those inputs the code's start list is just the known starts. The lemmas about the plan use the positive length too.
- Lines 314-336 of `generate_one` are not modelled. They build the calendar title and call `build_ics` and `compute_status` on the plan; those two are modelled on their own.
- RoundTrip.ReadBackCalendar requires that the calendar name not contain "BEGIN:VEVENT". The code does not check the name, and a name holding the marker would add a block to what the reader sees.
- Scenario.Day29Label and Scenario.Day33Label disagree with the script. Lines 64-67 of the check script expect "🌙 Lut (1🩸)" and "🌙 Lut (5🌿)". The code at lines 89-93 of the generator writes the number `cycle_length + h` in front. The model follows the code and proves the labels the code writes.
