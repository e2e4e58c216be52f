/** The lemmas that carry the invariant of the loop of `IteratorToArray.of`
    from its start, through each retirement of a full array, to its end. */
module DrainSteps {
  import opened SegmentLayout
  import opened PrefixStack
  import opened Drain

  /** A slice grows by the element just past its end. */
  lemma Extend<T>(s: seq<T>, from: nat, to: nat)
    requires from <= to < |s|
    ensures s[from..to + 1] == s[from..to] + [s[to]]
  {
  }

  /** Dropping the head of a suffix. */
  lemma Advance<T>(s: seq<T>, from: nat)
    requires from < |s|
    ensures s[from..][0] == s[from] && s[from..][1..] == s[from + 1..]
  {
  }

  /** Retiring a full segment that holds `input`'s next `|segment|` elements
      after the first `resultLength` keeps the retired elements a prefix of
      the input. */
  lemma RetireElements<T>(parts: seq<seq<T>>, segment: seq<T>, input: seq<T>, resultLength: nat)
    requires resultLength + |segment| <= |input|
    requires Flatten(parts) == input[..resultLength]
    requires segment == input[resultLength..resultLength + |segment|]
    ensures Flatten(parts + [segment]) == input[..resultLength + |segment|]
  {
    assert (parts + [segment])[..|parts|] == parts;
    assert input[..resultLength + |segment|] == input[..resultLength] + input[resultLength..resultLength + |segment|];
  }

  /** Retiring a segment of length `length` when more elements remain moves
      the layout still to come one segment on. */
  lemma RetireLayout(lengths: seq<nat>, length: nat, resultLength: nat, n: nat, expectedLength: nat)
    requires 0 < length && resultLength + length < n
    requires lengths + LayoutFrom(length, resultLength, n) == Layout(expectedLength, n)
    ensures (lengths + [length]) + LayoutFrom(resultLength + length, resultLength + length, n)
      == Layout(expectedLength, n)
  {
    var rest := LayoutFrom(resultLength + length, resultLength + length, n);
    assert LayoutFrom(length, resultLength, n) == [length] + rest;
    assert lengths + ([length] + rest) == (lengths + [length]) + rest;
  }

  /** Retiring a full segment holding the next elements of `input`, when more
      remain, keeps the loop's facts about what is retired. */
  lemma RetireFilling<T>(parts: seq<seq<T>>, lengths: seq<nat>, contents: seq<T>, resultLength: nat,
                         input: seq<T>, expectedLength: nat)
    requires Filling(parts, lengths, |contents|, resultLength, input, expectedLength)
    requires resultLength + |contents| < |input|
    requires contents == input[resultLength..resultLength + |contents|]
    ensures Filling(parts + [contents], lengths + [|contents|], resultLength + |contents|,
                    resultLength + |contents|, input, expectedLength)
  {
    RetireElements(parts, contents, input, resultLength);
    RetireLayout(lengths, |contents|, resultLength, |input|, expectedLength);
  }

  /** Pushing the full array `current` as the node `pushed` and continuing
      with the empty array `next` keeps the loop's facts. */
  lemma Retired<T>(prefixArrays: Prefix?<T>, current: array<T>, pushed: Prefix<T>, next: array<T>,
                   resultLength: nat, parts: seq<seq<T>>, lengths: seq<nat>,
                   input: seq<T>, expectedLength: nat)
    requires Draining(prefixArrays, current, current.Length, resultLength, parts, lengths, input, expectedLength)
    requires resultLength + current.Length < |input|
    requires pushed.Valid() && pushed.segments == Segments(prefixArrays) + [current]
    requires next != current && next !in Segments(prefixArrays)
    requires next.Length == resultLength + current.Length
    ensures Draining(pushed, next, 0, resultLength + current.Length, parts + [current[..]],
                     lengths + [current.Length], input, expectedLength)
  {
    ghost var contents := current[..];
    assert contents == input[resultLength..resultLength + current.Length] by {
      assert contents == current[..current.Length];
    }
    RetireFilling(parts, lengths, contents, resultLength, input, expectedLength);
    HoldsExtend(Segments(prefixArrays), parts, current);
    assert next[..0] == input[next.Length..next.Length];
  }

  /** Before the first element is pulled, only the first segment exists. */
  lemma StartDraining<T>(current: array<T>, input: seq<T>, expectedLength: nat)
    requires current.Length == InitialCapacity(expectedLength) && input != []
    ensures Draining(null, current, 0, 0, [], [], input, expectedLength)
  {
    assert current[..0] == input[0..0];
  }

  /** Once `input` is drained, the retired arrays followed by the filled part
      of the last one hold it, and their lengths are its whole layout. */
  lemma Drained<T>(prefixArrays: Prefix?<T>, current: array<T>, arraySize: nat, resultLength: nat,
                   parts: seq<seq<T>>, lengths: seq<nat>, input: seq<T>, expectedLength: nat)
    requires Draining(prefixArrays, current, arraySize, resultLength, parts, lengths, input, expectedLength)
    requires resultLength + arraySize == |input| && 0 < arraySize
    ensures prefixArrays == null <==> lengths == []
    ensures resultLength == |Flatten(parts)|
    ensures Flatten(parts) + current[..arraySize] == input
    ensures lengths + [current.Length] == Layout(expectedLength, |input|)
  {
    LastSegment(lengths, current.Length, resultLength, expectedLength, |input|);
    assert Segments(prefixArrays) != [] ==> prefixArrays != null;
    assert input == input[..resultLength] + input[resultLength..];
  }
}
