/** The sizes of the arrays the materializer allocates, as a function of the
    length hint and of the number of elements the iterator produces. */
module SegmentLayout {

  /** Default hint used by the delegators, and the first segment's length
      when the hint is 0. */
  const DefaultExpectedLength: nat := 16

  function Sum(s: seq<nat>): nat
  {
    if s == [] then 0 else s[0] + Sum(s[1..])
  }

  lemma {:induction false} SumConcat(a: seq<nat>, b: seq<nat>)
    ensures Sum(a + b) == Sum(a) + Sum(b)
  {
    if a == [] {
      assert a + b == b;
    } else {
      assert (a + b)[1..] == a[1..] + b;
      SumConcat(a[1..], b);
    }
  }

  /** Length of the first segment: the hint, or the default when the hint is 0. */
  function InitialCapacity(expectedLength: nat): (c: nat)
    ensures c > 0
    ensures expectedLength > 0 ==> c == expectedLength
  {
    if expectedLength == 0 then DefaultExpectedLength else expectedLength
  }

  /** Lengths of the segments allocated from a segment of length `cap` onwards,
      when `written` elements are already held by earlier (full) segments and
      `n` elements are produced in all. A segment is retired only when it is
      full and more elements remain; its successor is as long as everything
      written so far. */
  function LayoutFrom(cap: nat, written: nat, n: nat): seq<nat>
    requires 0 < cap && written < n
    decreases n - written
  {
    if n - written <= cap then [cap]
    else [cap] + LayoutFrom(written + cap, written + cap, n)
  }

  /** Lengths of all segments, oldest first, for `n > 0` elements and the given hint. */
  function Layout(expectedLength: nat, n: nat): seq<nat>
    requires n > 0
  {
    LayoutFrom(InitialCapacity(expectedLength), 0, n)
  }

  /** The fast path: a single segment that is exactly full. */
  predicate FastPath(expectedLength: nat, n: nat)
    requires n > 0
  {
    var l := Layout(expectedLength, n);
    |l| == 1 && l[0] == n
  }

  /** Lengths of every array the materializer allocates: the segments, then
      the result array unless the fast path is taken. */
  function Allocations(expectedLength: nat, n: nat): seq<nat>
    requires n > 0
  {
    Layout(expectedLength, n) + (if FastPath(expectedLength, n) then [] else [n])
  }

  /** Every segment but the last is full and together they hold fewer than
      `n` elements; with the last one there is room for all `n`. */
  lemma {:induction false} LayoutFromHolds(cap: nat, written: nat, n: nat)
    requires 0 < cap && written < n
    ensures var l := LayoutFrom(cap, written, n);
      && |l| >= 1 && l[0] == cap
      && written + Sum(l[..|l| - 1]) < n <= written + Sum(l)
    decreases n - written
  {
    var l := LayoutFrom(cap, written, n);
    if n - written <= cap {
      assert l == [cap];
      assert Sum([cap]) == cap + Sum([]);
    } else {
      var rest := LayoutFrom(written + cap, written + cap, n);
      LayoutFromHolds(written + cap, written + cap, n);
      assert l[..|l| - 1] == [cap] + rest[..|rest| - 1];
    }
  }

  /** Each segment after the first is as long as the elements written before it. */
  lemma {:induction false} LayoutFromGrows(cap: nat, written: nat, n: nat, i: nat)
    requires 0 < cap && written < n
    requires 0 < i < |LayoutFrom(cap, written, n)|
    ensures var l := LayoutFrom(cap, written, n); l[i] == written + Sum(l[..i])
    decreases n - written
  {
    var l := LayoutFrom(cap, written, n);
    var w := written + cap;
    var rest := LayoutFrom(w, w, n);
    assert l == [cap] + rest;
    assert l[..i] == [cap] + rest[..i - 1];
    assert Sum(l[..i]) == cap + Sum(rest[..i - 1]) by {
      assert ([cap] + rest[..i - 1])[1..] == rest[..i - 1];
    }
    if i == 1 {
      assert rest[0] == w;
      assert rest[..0] == [];
    } else {
      LayoutFromGrows(w, w, n, i - 1);
    }
  }

  /** Every segment is non-empty, the first has the initial capacity, and
      each later one is exactly as long as all segments before it together. */
  lemma LayoutGrowth(expectedLength: nat, n: nat)
    requires n > 0
    ensures var l := Layout(expectedLength, n);
      && l[0] == InitialCapacity(expectedLength)
      && (forall i :: 0 < i < |l| ==> l[i] == Sum(l[..i]))
      && (forall i :: 0 <= i < |l| ==> l[i] > 0)
  {
    var l := Layout(expectedLength, n);
    LayoutFromHolds(InitialCapacity(expectedLength), 0, n);
    forall i | 0 < i < |l|
      ensures l[i] == Sum(l[..i]) && l[i] > 0
    {
      LayoutFromGrows(InitialCapacity(expectedLength), 0, n, i);
      assert l[..i] == [l[0]] + l[1..i];
    }
  }

  /** From the third segment on, each segment doubles its predecessor. */
  lemma LayoutDoubles(expectedLength: nat, n: nat, i: nat)
    requires n > 0
    requires 2 <= i < |Layout(expectedLength, n)|
    ensures var l := Layout(expectedLength, n); l[i] == 2 * l[i - 1]
  {
    var l := Layout(expectedLength, n);
    LayoutGrowth(expectedLength, n);
    assert l[..i] == l[..i - 1] + [l[i - 1]];
    SumConcat(l[..i - 1], [l[i - 1]]);
  }

  /** The segments hold all `n` elements: the full ones fewer than `n`, the
      last one the rest, which fits. */
  lemma LayoutHoldsAll(expectedLength: nat, n: nat)
    requires n > 0
    ensures var l := Layout(expectedLength, n);
      && Sum(l[..|l| - 1]) < n <= Sum(l)
      && 0 < n - Sum(l[..|l| - 1]) <= l[|l| - 1]
  {
    var l := Layout(expectedLength, n);
    LayoutFromHolds(InitialCapacity(expectedLength), 0, n);
    assert l == l[..|l| - 1] + [l[|l| - 1]];
    SumConcat(l[..|l| - 1], [l[|l| - 1]]);
  }

  /** Once the elements still to come fit into the segment of length `cap`
      starting at `written`, that segment is the last one of the layout, and the
      fast path is taken exactly when it is also the first and is exactly full. */
  lemma LastSegment(lengths: seq<nat>, cap: nat, written: nat, expectedLength: nat, n: nat)
    requires 0 < cap && written < n <= written + cap
    requires lengths + LayoutFrom(cap, written, n) == Layout(expectedLength, n)
    ensures lengths + [cap] == Layout(expectedLength, n)
    ensures FastPath(expectedLength, n) <==> lengths == [] && cap == n
  {
  }

  /** The fast path is taken exactly when the initial capacity equals the
      element count: a hint equal to the count, or no hint and 16 elements. */
  lemma FastPathIff(expectedLength: nat, n: nat)
    requires n > 0
    ensures FastPath(expectedLength, n) <==> InitialCapacity(expectedLength) == n
  {
    LayoutFromHolds(InitialCapacity(expectedLength), 0, n);
  }

  /** Once a segment has been retired, all segments together are shorter
      than twice the element count, however the hint missed. */
  lemma AllocationBound(expectedLength: nat, n: nat)
    requires n > 0
    requires |Layout(expectedLength, n)| > 1
    ensures Sum(Layout(expectedLength, n)) < 2 * n
    ensures Sum(Allocations(expectedLength, n)) < 3 * n
  {
    var l := Layout(expectedLength, n);
    LayoutGrowth(expectedLength, n);
    LayoutHoldsAll(expectedLength, n);
    assert l == l[..|l| - 1] + [l[|l| - 1]];
    SumConcat(l[..|l| - 1], [l[|l| - 1]]);
    SumConcat(l, [n]);
    assert Sum([n]) == n + Sum([]);
  }
}
