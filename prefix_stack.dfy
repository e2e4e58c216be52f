/** The linked stack of full segments that `IteratorToArray.of` keeps while
    it drains an iterator, and the arithmetic of where each segment lands in
    the concatenation. */
module PrefixStack {
  /** One node of the singly linked stack of retired (full) segments. Both
      fields are final; `segments` lists the stack's arrays oldest first. */
  class Prefix<T> {
    const prefix: Prefix?<T>
    const segment: array<T>
    ghost const segments: seq<array<T>>

    ghost predicate Valid()
      decreases |segments|
    {
      if prefix == null then segments == [segment]
      else segments == prefix.segments + [segment] && prefix.Valid()
    }

    constructor (prefix: Prefix?<T>, segment: array<T>)
      requires prefix != null ==> prefix.Valid()
      ensures Valid() && this.prefix == prefix && this.segment == segment
      ensures segments == Segments(prefix) + [segment]
    {
      this.prefix := prefix;
      this.segment := segment;
      segments := Segments(prefix) + [segment];
    }
  }

  /** The arrays of a (possibly empty) stack, oldest first. */
  ghost function Segments<T>(p: Prefix?<T>): seq<array<T>>
  {
    if p == null then [] else p.segments
  }

  /** The parts concatenated in order. */
  function Flatten<T>(parts: seq<seq<T>>): seq<T>
  {
    if parts == [] then [] else Flatten(parts[..|parts| - 1]) + parts[|parts| - 1]
  }

  /** The lengths of `arrays`, in order. */
  function Lengths<T>(arrays: seq<array<T>>): seq<nat>
  {
    if arrays == [] then [] else Lengths(arrays[..|arrays| - 1]) + [arrays[|arrays| - 1].Length]
  }

  lemma LengthsPush<T>(arrays: seq<array<T>>, a: array<T>)
    ensures Lengths(arrays + [a]) == Lengths(arrays) + [a.Length]
  {
    assert (arrays + [a])[..|arrays|] == arrays;
  }

  /** Each of `arrays` currently holds the corresponding part. */
  ghost predicate Holds<T>(arrays: seq<array<T>>, parts: seq<seq<T>>)
    reads arrays
    decreases |arrays|
  {
    && |arrays| == |parts|
    && (arrays != [] ==>
         && arrays[|arrays| - 1][..] == parts[|parts| - 1]
         && Holds(arrays[..|arrays| - 1], parts[..|parts| - 1]))
  }

  lemma HoldsExtend<T>(arrays: seq<array<T>>, parts: seq<seq<T>>, a: array<T>)
    requires Holds(arrays, parts)
    ensures Holds(arrays + [a], parts + [a[..]])
  {
    assert (arrays + [a])[..|arrays|] == arrays;
    assert (parts + [a[..]])[..|parts|] == parts;
  }

  lemma {:induction false} HoldsAt<T>(arrays: seq<array<T>>, parts: seq<seq<T>>, i: nat)
    requires Holds(arrays, parts) && i < |arrays|
    ensures arrays[i][..] == parts[i]
    decreases |arrays|
  {
    var m := |arrays| - 1;
    if i < m {
      HoldsAt(arrays[..m], parts[..m], i);
    }
  }

  /** `Ends(parts)[k]` is where the first `k` parts end in their concatenation. */
  function Ends<T>(parts: seq<seq<T>>): (r: seq<nat>)
    ensures |r| == |parts| + 1 && r[0] == 0 && r[|parts|] == |Flatten(parts)|
  {
    if parts == [] then [0] else Ends(parts[..|parts| - 1]) + [|Flatten(parts)|]
  }

  /** The `k`-th (1-based) part occupies `whole[Ends(parts)[k - 1]..Ends(parts)[k]]`
      of anything that starts with the concatenation of `parts`. */
  lemma {:induction false} PieceAt<T>(parts: seq<seq<T>>, k: nat, whole: seq<T>)
    requires 0 < k <= |parts|
    requires Flatten(parts) <= whole
    ensures Ends(parts)[k - 1] + |parts[k - 1]| == Ends(parts)[k] <= |whole|
    ensures whole[Ends(parts)[k - 1]..Ends(parts)[k]] == parts[k - 1]
    decreases |parts|
  {
    var m := |parts| - 1;
    var init := parts[..m];
    assert Flatten(parts) == Flatten(init) + parts[m];
    if k == |parts| {
      assert whole[|Flatten(init)|..|Flatten(parts)|] == Flatten(parts)[|Flatten(init)|..];
    } else {
      assert Ends(parts)[..m + 1] == Ends(init);
      PieceAt(init, k, whole);
      assert init[k - 1] == parts[k - 1];
    }
  }

  /** The merge loop's view of the stack: `node` is the top of what is left
      of it, its arrays are the first `k` of `all` (which hold `parts`), and
      `offset` is where the first `k` parts end in their concatenation. */
  ghost predicate Popping<T>(node: Prefix?<T>, all: seq<array<T>>, k: nat, parts: seq<seq<T>>, offset: nat)
  {
    && (node != null ==> node.Valid())
    && k == |Segments(node)| <= |all| == |parts|
    && Segments(node) == all[..k]
    && offset == Ends(parts)[k]
  }

  /** Popping `node` uncovers the part its array holds, which occupies
      `whole[start..offset]`, and leaves the rest of the stack ending at `start`. */
  lemma PopStep<T>(node: Prefix<T>, all: seq<array<T>>, k: nat, parts: seq<seq<T>>, offset: nat, whole: seq<T>)
    returns (start: nat)
    requires Popping(node, all, k, parts, offset) && Flatten(parts) <= whole
    ensures k > 0 && all[k - 1] == node.segment
    ensures start + |parts[k - 1]| == offset <= |whole| && whole[start..offset] == parts[k - 1]
    ensures Popping(node.prefix, all, k - 1, parts, start)
  {
    assert Segments(node) == Segments(node.prefix) + [node.segment];
    assert all[..k][..k - 1] == all[..k - 1];
    PieceAt(parts, k, whole);
    start := Ends(parts)[k - 1];
  }
}
