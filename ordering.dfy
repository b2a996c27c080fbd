/**
  Sorting without duplicates, as Python's `sorted(set(xs))` and, for a list
  that holds no duplicates, `xs.sort()`. Generic over a strict total order
  `lt`, so that it serves both dates (`<` on day numbers) and strings
  (Python's string comparison).
 */
module Ordering {

  ghost predicate IsStrictTotalOrder<T(!new)>(lt: (T, T) -> bool) {
    && (forall a :: !lt(a, a))
    && (forall a, b, c :: lt(a, b) && lt(b, c) ==> lt(a, c))
    && (forall a, b :: a != b ==> lt(a, b) || lt(b, a))
  }

  /** Each element is below every later one: sorted and duplicate-free. */
  predicate StrictlySorted<T>(s: seq<T>, lt: (T, T) -> bool) {
    forall i, j :: 0 <= i < j < |s| ==> lt(s[i], s[j])
  }

  function Elems<T>(s: seq<T>): set<T> {
    set x | x in s
  }

  /** Inserts `x` at its place in a strictly sorted list, unless it is there already. */
  function InsertSorted<T(==,!new)>(x: T, s: seq<T>, lt: (T, T) -> bool): (r: seq<T>)
    requires IsStrictTotalOrder(lt) && StrictlySorted(s, lt)
    ensures StrictlySorted(r, lt)
    ensures Elems(r) == Elems(s) + {x}
  {
    if s == [] then [x]
    else if x == s[0] then s
    else if lt(x, s[0]) then [x] + s
    else
      var tail := InsertSorted(x, s[1..], lt);
      assert Elems(s) == {s[0]} + Elems(s[1..]);
      assert lt(s[0], x);
      assert forall k :: 0 <= k < |tail| ==> lt(s[0], tail[k]) by {
        forall k | 0 <= k < |tail| ensures lt(s[0], tail[k]) {
          assert tail[k] in Elems(tail);
        }
      }
      assert Elems([s[0]] + tail) == {s[0]} + Elems(tail);
      [s[0]] + tail
  }

  /** `sorted(set(xs))`: the elements of `xs` in increasing order, each once. */
  function SortUnique<T(==,!new)>(xs: seq<T>, lt: (T, T) -> bool): (r: seq<T>)
    requires IsStrictTotalOrder(lt)
    ensures StrictlySorted(r, lt)
    ensures Elems(r) == Elems(xs)
  {
    if xs == [] then []
    else
      var init := xs[..|xs| - 1];
      assert xs == init + [xs[|xs| - 1]];
      assert Elems(xs) == Elems(init) + {xs[|xs| - 1]};
      InsertSorted(xs[|xs| - 1], SortUnique(init, lt), lt)
  }

  /** A strictly sorted list is determined by its set of elements. */
  lemma {:induction false} StrictlySortedUnique<T(!new)>(a: seq<T>, b: seq<T>, lt: (T, T) -> bool)
    requires IsStrictTotalOrder(lt)
    requires StrictlySorted(a, lt) && StrictlySorted(b, lt)
    requires Elems(a) == Elems(b)
    ensures a == b
  {
    assert a != [] ==> a[0] in Elems(a);
    assert b != [] ==> b[0] in Elems(b);
    if a != [] && b != [] {
      assert a[0] in Elems(b) && b[0] in Elems(a);
      if a[0] != b[0] {
        assert false;
      }
      assert Elems(a) == {a[0]} + Elems(a[1..]);
      assert Elems(b) == {b[0]} + Elems(b[1..]);
      assert a[0] !in Elems(a[1..]) && b[0] !in Elems(b[1..]);
      assert Elems(a[1..]) == Elems(b[1..]);
      StrictlySortedUnique(a[1..], b[1..], lt);
      assert a == [a[0]] + a[1..] && b == [b[0]] + b[1..];
    }
  }

  /** A strictly sorted list holds each element exactly once. */
  lemma StrictlySortedOnce<T(!new)>(s: seq<T>, x: T, lt: (T, T) -> bool)
    requires IsStrictTotalOrder(lt) && StrictlySorted(s, lt) && x in s
    ensures multiset(s)[x] == 1
  {
    var i :| 0 <= i < |s| && s[i] == x;
    assert s == s[..i] + [x] + s[i + 1..];
    assert x !in s[..i] && x !in s[i + 1..] by {
      forall k | 0 <= k < |s| && k != i ensures s[k] != x {
        if k < i { assert lt(s[k], s[i]); } else { assert lt(s[i], s[k]); }
      }
    }
    assert multiset(s[..i])[x] == 0 && multiset(s[i + 1..])[x] == 0;
    assert multiset(s) == multiset(s[..i]) + multiset{x} + multiset(s[i + 1..]);
  }

  function IntLess(a: int, b: int): bool { a < b }

  lemma IntLessIsStrictTotalOrder()
    ensures IsStrictTotalOrder(IntLess)
  {
  }
}
