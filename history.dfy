/**
  History normalisation (`normalize_history` in scripts/generate_ics.py):
  the stored history keeps the stripped, valid date strings, each once, plus
  the current start, in string order.
 */
module History {
  import opened Wrappers
  import opened Text
  import opened Ordering

  /** An entry of a stored history list: a string, or some other JSON value. */
  datatype HistoryItem = Str(s: string) | NonStr

  /**
    An entry is kept when it is a string whose stripped text is not blank
    and parses as a date. `parse` stands for `strptime(value, "%Y-%m-%d")`:
    `None` where it raises.
   */
  predicate IsAccepted(item: HistoryItem, parse: string -> Option<int>) {
    item.Str? && Strip(item.s) != "" && parse(Strip(item.s)).Some?
  }

  /** The values the loop keeps: accepted entries, stripped, first occurrence only, in input order. */
  function AcceptedValues(history: seq<HistoryItem>, parse: string -> Option<int>): (r: seq<string>)
    ensures forall i, j :: 0 <= i < j < |r| ==> r[i] != r[j]
  {
    if history == [] then []
    else
      var prev := AcceptedValues(history[..|history| - 1], parse);
      var item := history[|history| - 1];
      if IsAccepted(item, parse) && Strip(item.s) !in prev then prev + [Strip(item.s)] else prev
  }

  /** Some entry of `history` is accepted and strips to `x`. */
  predicate HasEntryFor(history: seq<HistoryItem>, parse: string -> Option<int>, x: string) {
    exists i :: 0 <= i < |history| && IsAccepted(history[i], parse) && Strip(history[i].s) == x
  }

  lemma HasEntryForAppend(history: seq<HistoryItem>, item: HistoryItem, parse: string -> Option<int>, x: string)
    ensures HasEntryFor(history + [item], parse, x)
            <==> HasEntryFor(history, parse, x) || (IsAccepted(item, parse) && Strip(item.s) == x)
  {
    var h := history + [item];
    if HasEntryFor(h, parse, x) {
      var i :| 0 <= i < |h| && IsAccepted(h[i], parse) && Strip(h[i].s) == x;
      if i < |history| {
        assert history[i] == h[i];
      }
    }
    if HasEntryFor(history, parse, x) {
      var i :| 0 <= i < |history| && IsAccepted(history[i], parse) && Strip(history[i].s) == x;
      assert h[i] == history[i];
    }
    assert h[|history|] == item;
  }

  /** A value is kept exactly when some entry is accepted and strips to it. */
  lemma {:induction false} AcceptedValuesElems(history: seq<HistoryItem>, parse: string -> Option<int>, x: string)
    ensures x in AcceptedValues(history, parse) <==> HasEntryFor(history, parse, x)
  {
    if history != [] {
      var init := history[..|history| - 1];
      var item := history[|history| - 1];
      AcceptedValuesElems(init, parse, x);
      assert history == init + [item];
      HasEntryForAppend(init, item, parse, x);
    }
  }

  lemma StrLessIsStrictTotalOrder()
    ensures IsStrictTotalOrder(StrLess)
  {
    forall a ensures !StrLess(a, a) {
      StrLessIrreflexive(a);
    }
    forall a, b, c | StrLess(a, b) && StrLess(b, c) ensures StrLess(a, c) {
      StrLessTransitive(a, b, c);
    }
    forall a, b | a != b ensures StrLess(a, b) || StrLess(b, a) {
      StrLessTotal(a, b);
    }
  }

  /** The normalised history: the kept values and the start, sorted as strings, each once. */
  function Normalized(history: seq<HistoryItem>, startDate: string, parse: string -> Option<int>): seq<string>
  {
    StrLessIsStrictTotalOrder();
    SortUnique(AcceptedValues(history, parse) + [startDate], StrLess)
  }

  /** `normalize_history`: the filtering loop with its `seen` set, the start, then the sort. */
  method NormalizeHistory(history: seq<HistoryItem>, startDate: string, parse: string -> Option<int>)
    returns (values: seq<string>)
    ensures values == Normalized(history, startDate, parse)
  {
    values := [];
    var seen: set<string> := {};
    var i := 0;
    while i < |history|
      invariant 0 <= i <= |history|
      invariant values == AcceptedValues(history[..i], parse)
      invariant seen == Elems(values)
    {
      var item := history[i];
      assert history[..i + 1][..i] == history[..i];
      if !item.Str? {
        i := i + 1;
        continue;
      }
      var value := Strip(item.s);
      if value == "" {
        i := i + 1;
        continue;
      }
      if parse(value).None? {
        i := i + 1;
        continue;
      }
      if value in seen {
        i := i + 1;
        continue;
      }
      seen := seen + {value};
      values := values + [value];
      i := i + 1;
    }
    assert history[..i] == history;
    ghost var kept := values;
    if startDate !in seen {
      values := values + [startDate];
    }
    StrLessIsStrictTotalOrder();
    values := SortUnique(values, StrLess);
    assert Elems(values) == Elems(kept + [startDate]);
    StrictlySortedUnique(values, Normalized(history, startDate, parse), StrLess);
  }

  // ---------------------------------------------------------------------
  // Properties of the normalised history
  // ---------------------------------------------------------------------

  /**
    The result is strictly increasing in string order, holds the start, and
    holds any other string exactly when some entry is accepted and strips to it.
   */
  lemma NormalizedContents(history: seq<HistoryItem>, startDate: string, parse: string -> Option<int>, x: string)
    ensures StrictlySorted(Normalized(history, startDate, parse), StrLess)
    ensures x in Normalized(history, startDate, parse) <==> x == startDate || HasEntryFor(history, parse, x)
  {
    var n := Normalized(history, startDate, parse);
    var kept := AcceptedValues(history, parse);
    assert x in n <==> x in Elems(n);
    assert Elems(kept + [startDate]) == Elems(kept) + {startDate};
    AcceptedValuesElems(history, parse, x);
  }

  /** The start appears exactly once. */
  lemma StartOnce(history: seq<HistoryItem>, startDate: string, parse: string -> Option<int>)
    ensures multiset(Normalized(history, startDate, parse))[startDate] == 1
  {
    NormalizedContents(history, startDate, parse, startDate);
    StrLessIsStrictTotalOrder();
    StrictlySortedOnce(Normalized(history, startDate, parse), startDate, StrLess);
  }

  /** Entries that are not strings, blank or not dates leave no trace. */
  lemma RejectedLeaveNoTrace(history: seq<HistoryItem>, item: HistoryItem, startDate: string, parse: string -> Option<int>)
    requires !IsAccepted(item, parse)
    ensures Normalized(history + [item], startDate, parse) == Normalized(history, startDate, parse)
  {
    assert (history + [item])[..|history|] == history;
  }

  function AsItems(values: seq<string>): (r: seq<HistoryItem>)
    ensures |r| == |values| && forall i :: 0 <= i < |values| ==> r[i] == Str(values[i])
  {
    if values == [] then [] else [Str(values[0])] + AsItems(values[1..])
  }

  /** Normalising a normalised history with the same, already stripped, start changes nothing. */
  lemma NormalizeIdempotent(history: seq<HistoryItem>, startDate: string, parse: string -> Option<int>)
    requires Strip(startDate) == startDate
    ensures Normalized(AsItems(Normalized(history, startDate, parse)), startDate, parse)
            == Normalized(history, startDate, parse)
  {
    var n := Normalized(history, startDate, parse);
    var m := Normalized(AsItems(n), startDate, parse);
    StrLessIsStrictTotalOrder();
    NormalizedContents(history, startDate, parse, startDate);
    NormalizedContents(AsItems(n), startDate, parse, startDate);
    forall x ensures x in m <==> x in n {
      if x in n {
        RenormalizedKeeps(history, startDate, parse, x);
      }
      if x in m {
        RenormalizedAddsNothing(history, startDate, parse, x);
      }
    }
    assert Elems(m) == Elems(n);
    StrictlySortedUnique(m, n, StrLess);
  }

  /** A value of the normalised history survives a second normalisation. */
  lemma RenormalizedKeeps(history: seq<HistoryItem>, startDate: string, parse: string -> Option<int>, x: string)
    requires x in Normalized(history, startDate, parse)
    ensures x in Normalized(AsItems(Normalized(history, startDate, parse)), startDate, parse)
  {
    var n := Normalized(history, startDate, parse);
    var items := AsItems(n);
    NormalizedContents(history, startDate, parse, x);
    NormalizedContents(items, startDate, parse, x);
    if x != startDate {
      var i :| 0 <= i < |history| && IsAccepted(history[i], parse) && Strip(history[i].s) == x;
      StripIdempotent(history[i].s);
      var k :| 0 <= k < |n| && n[k] == x;
      assert IsAccepted(items[k], parse) && Strip(items[k].s) == x;
    }
  }

  /** A second normalisation brings in no value the first did not have. */
  lemma RenormalizedAddsNothing(history: seq<HistoryItem>, startDate: string, parse: string -> Option<int>, x: string)
    requires Strip(startDate) == startDate
    requires x in Normalized(AsItems(Normalized(history, startDate, parse)), startDate, parse)
    ensures x in Normalized(history, startDate, parse)
  {
    var n := Normalized(history, startDate, parse);
    var items := AsItems(n);
    NormalizedContents(history, startDate, parse, x);
    NormalizedContents(items, startDate, parse, x);
    if x != startDate {
      var k :| 0 <= k < |items| && IsAccepted(items[k], parse) && Strip(items[k].s) == x;
      var y := n[k];
      NormalizedContents(history, startDate, parse, y);
      if y != startDate {
        var i :| 0 <= i < |history| && IsAccepted(history[i], parse) && Strip(history[i].s) == y;
        StripIdempotent(history[i].s);
      }
    }
  }
}
