/** What the loop of `IteratorToArray.of` keeps true while it drains an
    iterator of the elements `input`. */
module Drain {
  import opened SegmentLayout
  import opened PrefixStack

  /** A well-formed (possibly empty) stack whose arrays hold `parts` and do not
      include `current`, the array being filled. */
  ghost predicate Stacked<T>(prefixArrays: Prefix?<T>, current: array<T>, parts: seq<seq<T>>)
    reads Segments(prefixArrays)
  {
    && (prefixArrays != null ==> prefixArrays.Valid())
    && current !in Segments(prefixArrays)
    && Holds(Segments(prefixArrays), parts)
  }

  /** What the loop of `IteratorToArray.of` keeps about the elements retired
      so far, when the array being filled has length `arrayLength`: they are
      the first `resultLength` of `input`, more remain, and the lengths of the
      retired arrays followed by the layout still to come give the whole layout. */
  ghost predicate Filling<T>(parts: seq<seq<T>>, lengths: seq<nat>, arrayLength: nat, resultLength: nat,
                             input: seq<T>, expectedLength: nat)
  {
    && 0 < arrayLength && resultLength < |input|
    && Flatten(parts) == input[..resultLength]
    && lengths + LayoutFrom(arrayLength, resultLength, |input|) == Layout(expectedLength, |input|)
  }

  /** The invariant of the loop of `IteratorToArray.of` about its arrays
      while it drains `input`: the retired arrays hold its first `resultLength`
      elements and the array being filled holds the next `arraySize`. */
  ghost predicate Draining<T>(prefixArrays: Prefix?<T>, current: array<T>, arraySize: nat,
                              resultLength: nat, parts: seq<seq<T>>, lengths: seq<nat>,
                              input: seq<T>, expectedLength: nat)
    reads current, Segments(prefixArrays)
  {
    && resultLength + arraySize <= |input| && arraySize <= current.Length
    && current[..arraySize] == input[resultLength..resultLength + arraySize]
    && Stacked(prefixArrays, current, parts) && |lengths| == |Segments(prefixArrays)|
    && Filling(parts, lengths, current.Length, resultLength, input, expectedLength)
  }
}
