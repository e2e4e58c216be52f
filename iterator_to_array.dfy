/** The materializer: drains an iterator of unknown length into one array of
    exactly the right length. Each element is written once into a segment and,
    unless a single segment turns out exactly full, copied once more into the
    result; the ghost counter `copied` tracks the copies. */
module IteratorToArray {
  import opened Java
  import opened Producers
  import opened SegmentLayout
  import opened PrefixStack
  import opened Drain
  import opened DrainSteps

  /** `System.arraycopy` between two distinct arrays; `copied` counts the
      elements copied. */
  method ArrayCopy<T>(src: array<T>, srcPos: nat, dest: array<T>, destPos: nat, length: nat)
    returns (ghost copied: nat)
    requires src != dest
    requires srcPos + length <= src.Length && destPos + length <= dest.Length
    modifies dest
    ensures copied == length
    ensures dest[destPos..destPos + length] == src[srcPos..srcPos + length]
    ensures dest[..destPos] == old(dest[..destPos])
    ensures dest[destPos + length..] == old(dest[destPos + length..])
  {
    forall k | 0 <= k < length {
      dest[destPos + k] := src[srcPos + k];
    }
    copied := length;
  }

  /** Two sequences that agree from `b` on and on `a..b` agree from `a` on. */
  lemma AgreeFrom<T>(r: seq<T>, w: seq<T>, a: nat, b: nat)
    requires a <= b <= |r| == |w|
    requires r[a..b] == w[a..b] && r[b..] == w[b..]
    ensures r[a..] == w[a..]
  {
    assert r[a..] == r[a..b] + r[b..];
    assert w[a..] == w[a..b] + w[b..];
  }

  /** One step of the merge: the first `length` elements of `segment` are
      copied to `result[start..end]`, in front of a tail that already agrees
      with `whole`. */
  method CopyBack<T>(segment: array<T>, length: nat, result: array<T>, start: nat,
                     ghost end: nat, ghost whole: seq<T>)
    returns (ghost copied: nat)
    requires segment != result && length <= segment.Length
    requires end == start + length <= result.Length == |whole|
    requires whole[start..end] == segment[..length]
    requires result[end..] == whole[end..]
    modifies result
    ensures result[start..] == whole[start..]
    ensures copied == length
  {
    copied := ArrayCopy(segment, 0, result, start, length);
    assert segment[0..length] == segment[..length];
    assert result[..][start..end] == result[start..end] == whole[start..end];
    assert result[..][end..] == result[end..] == whole[end..];
    AgreeFrom(result[..], whole, start, end);
  }

  /** The loop of `joinInto`: pops the stack from newest to oldest, copying
      each full prefix array in front of what is already written, until the
      offset reaches 0. The slices written are consecutive and together cover
      `result[..offset]`, so each of its slots is written exactly once. */
  method MergePrefix<T>(prefixArrays: Prefix?<T>, result: array<T>, offset: nat,
                        ghost parts: seq<seq<T>>, ghost whole: seq<T>)
    returns (ghost copied: nat)
    requires prefixArrays != null ==> prefixArrays.Valid()
    requires Holds(Segments(prefixArrays), parts) && result !in Segments(prefixArrays)
    requires offset == |Flatten(parts)| && Flatten(parts) <= whole && |whole| == result.Length
    requires result[offset..] == whole[offset..]
    modifies result
    ensures result[..] == whole
    ensures copied == offset
  {
    ghost var all := Segments(prefixArrays);
    forall i | 0 <= i < |all|
      ensures all[i][..] == parts[i]
    {
      HoldsAt(all, parts, i);
    }
    ghost var k: nat := |all|;
    var offset: nat := offset;
    var node := prefixArrays;
    copied := 0;
    while node != null
      invariant Popping(node, all, k, parts, offset)
      invariant offset <= result.Length && result[offset..] == whole[offset..]
      invariant copied + offset == |Flatten(parts)|
      decreases k
    {
      ghost var start := PopStep(node, all, k, parts, offset, whole);
      var segment := node.segment;
      assert segment[..] == parts[k - 1] by {
        assert segment[..] == old(segment[..]);
      }
      ghost var end := offset;
      offset := offset - segment.Length;
      ghost var n := CopyBack(segment, segment.Length, result, offset, end, whole);
      copied := copied + n;
      node := node.prefix;
      k := k - 1;
    }
    assert result[..] == result[0..];
  }

  /** `joinInto`: writes the first `suffixArraySize` elements of `suffixArray`
      to the back of `result`, then the retired arrays in front of them,
      copying exactly as many elements as `result` has slots. */
  method JoinInto<T>(prefixArrays: Prefix?<T>, suffixArray: array<T>, suffixArraySize: nat, result: array<T>,
                     ghost parts: seq<seq<T>>)
    returns (ghost copied: nat)
    requires prefixArrays != null ==> prefixArrays.Valid()
    requires Holds(Segments(prefixArrays), parts)
    requires suffixArraySize <= suffixArray.Length
    requires result.Length == |Flatten(parts)| + suffixArraySize
    requires result != suffixArray && result !in Segments(prefixArrays)
    modifies result
    ensures result[..] == Flatten(parts) + old(suffixArray[..suffixArraySize])
    ensures copied == result.Length
  {
    ghost var whole := Flatten(parts) + suffixArray[..suffixArraySize];
    var offset := result.Length - suffixArraySize;
    var suffixCopied := CopyBack(suffixArray, suffixArraySize, result, offset, result.Length, whole);
    var prefixCopied := MergePrefix(prefixArrays, result, offset, parts, whole);
    copied := suffixCopied + prefixCopied;
  }

  /** The branch of the loop taken when the array being filled is full and
      more elements remain: the array is pushed onto the stack and a new one,
      as long as all elements retired so far, is allocated. The full array
      itself, not a copy, becomes the top of the stack. */
  method Retire<T(0)>(prefixArrays: Prefix?<T>, current: array<T>, resultLength: nat,
                      ghost parts: seq<seq<T>>, ghost lengths: seq<nat>,
                      ghost input: seq<T>, ghost expectedLength: nat)
    returns (pushed: Prefix<T>, next: array<T>, retiredLength: nat,
             ghost pushedParts: seq<seq<T>>, ghost pushedLengths: seq<nat>)
    requires Draining(prefixArrays, current, current.Length, resultLength, parts, lengths, input, expectedLength)
    requires resultLength + current.Length < |input|
    ensures pushed.prefix == prefixArrays && pushed.segment == current
    ensures Segments(pushed) == Segments(prefixArrays) + [current]
    ensures pushedParts == parts + [current[..]] && pushedLengths == lengths + [current.Length]
    ensures fresh(next) && next.Length == retiredLength == resultLength + current.Length > 0
    ensures Draining(pushed, next, 0, retiredLength, pushedParts, pushedLengths, input, expectedLength)
  {
    retiredLength := resultLength + current.Length;
    pushed := new Prefix(prefixArrays, current);
    next := new T[retiredLength];
    Retired(prefixArrays, current, pushed, next, resultLength, parts, lengths, input, expectedLength);
    pushedParts := parts + [current[..]];
    pushedLengths := lengths + [current.Length];
  }

  /** The body of the loop, `array[arraySize++] = iterator.next()`: the next
      element is written just past the filled part of `current`. */
  method Append<T>(it: Producer<T>, prefixArrays: Prefix?<T>, current: array<T>, arraySize: nat,
                   resultLength: nat, ghost parts: seq<seq<T>>, ghost lengths: seq<nat>,
                   ghost input: seq<T>, ghost expectedLength: nat)
    requires Draining(prefixArrays, current, arraySize, resultLength, parts, lengths, input, expectedLength)
    requires it.Valid() && it.Remaining() == input[resultLength + arraySize..]
    requires arraySize < current.Length && resultLength + arraySize < |input|
    modifies it, current
    ensures Draining(prefixArrays, current, arraySize + 1, resultLength, parts, lengths, input, expectedLength)
    ensures it.Valid() && it.Remaining() == input[resultLength + arraySize + 1..]
  {
    ghost var written := current[..arraySize];
    ghost var at := resultLength + arraySize;
    var x := it.Next();
    assert x == Return(input[at]) && it.Remaining() == input[at + 1..] by {
      Advance(input, at);
    }
    current[arraySize] := x.value;
    assert current[..arraySize + 1] == input[resultLength..at + 1] by {
      assert current[..arraySize] == written;
      assert current[..arraySize + 1] == written + [input[at]];
      Extend(input, resultLength, at);
    }
  }

  /** One round of the do-while loop of `IteratorToArray.of`: retire the
      array being filled if it is full, write the next element into it, and
      ask the iterator whether more elements remain. */
  method Step<T(0)>(it: Producer<T>, prefixArrays: Prefix?<T>, current: array<T>, arraySize: nat,
                    resultLength: nat, ghost parts: seq<seq<T>>, ghost lengths: seq<nat>,
                    ghost input: seq<T>, ghost expectedLength: nat)
    returns (prefixArrays': Prefix?<T>, current': array<T>, arraySize': nat, resultLength': nat,
             ghost parts': seq<seq<T>>, ghost lengths': seq<nat>, more: bool)
    requires Draining(prefixArrays, current, arraySize, resultLength, parts, lengths, input, expectedLength)
    requires it.Valid() && it.Remaining() == input[resultLength + arraySize..]
    requires resultLength + arraySize < |input|
    modifies it, current
    ensures Draining(prefixArrays', current', arraySize', resultLength', parts', lengths', input, expectedLength)
    ensures it.Valid() && it.Remaining() == input[resultLength' + arraySize'..]
    ensures current' == current || fresh(current')
    ensures || (Segments(prefixArrays') == Segments(prefixArrays) && lengths' == lengths)
            || (Segments(prefixArrays') == Segments(prefixArrays) + [current] && lengths' == lengths + [current.Length])
    ensures resultLength' + arraySize' == resultLength + arraySize + 1 && 0 < arraySize'
    ensures more <==> resultLength' + arraySize' < |input|
  {
    prefixArrays', current', arraySize', resultLength', parts', lengths' :=
      prefixArrays, current, arraySize, resultLength, parts, lengths;
    if arraySize == current.Length {
      // The current segment is full and more elements remain: retire it.
      prefixArrays', current', resultLength', parts', lengths' :=
        Retire(prefixArrays, current, resultLength, parts, lengths, input, expectedLength);
      arraySize' := 0;
    }
    Append(it, prefixArrays', current', arraySize', resultLength', parts', lengths', input, expectedLength);
    arraySize' := arraySize' + 1;
    more := it.HasNext();
  }

  /** The do-while loop of `IteratorToArray.of`, entered with at least one
      element left: it drains the iterator into the array being filled, and
      whenever that array is full while elements remain, retires it. On exit
      the retired arrays followed by the filled part of the last one hold
      exactly the produced elements, and their lengths follow the layout. */
  method Collect<T(0)>(it: Producer<T>, capacity: nat, ghost expectedLength: nat)
    returns (prefixArrays: Prefix?<T>, current: array<T>, arraySize: nat, resultLength: nat,
             ghost parts: seq<seq<T>>, ghost lengths: seq<nat>)
    requires it.Valid() && it.Remaining() != [] && capacity == InitialCapacity(expectedLength)
    modifies it
    ensures it.Valid() && it.Remaining() == []
    ensures fresh(current) && current !in Segments(prefixArrays)
    ensures prefixArrays != null ==> prefixArrays.Valid()
    ensures Holds(Segments(prefixArrays), parts)
    ensures prefixArrays == null <==> lengths == []
    ensures 0 < arraySize <= current.Length && resultLength == |Flatten(parts)|
    ensures Flatten(parts) + current[..arraySize] == old(it.Remaining())
    ensures lengths == Lengths(Segments(prefixArrays))
    ensures lengths + [current.Length] == Layout(expectedLength, |old(it.Remaining())|)
  {
    ghost var input := it.Remaining();
    current := new T[capacity];
    StartDraining(current, input, expectedLength);
    arraySize := 0;
    prefixArrays := null;
    resultLength := 0;
    parts := [];
    lengths := [];

    var more := true;
    while more
      invariant Draining(prefixArrays, current, arraySize, resultLength, parts, lengths, input, expectedLength)
      invariant lengths == Lengths(Segments(prefixArrays))
      invariant it.Valid() && it.Remaining() == input[resultLength + arraySize..]
      invariant fresh(current)
      invariant more <==> resultLength + arraySize < |input|
      invariant more || arraySize > 0
      decreases |input| - (resultLength + arraySize)
    {
      ghost var stack, filled := Segments(prefixArrays), current;
      prefixArrays, current, arraySize, resultLength, parts, lengths, more :=
        Step(it, prefixArrays, current, arraySize, resultLength, parts, lengths, input, expectedLength);
      LengthsPush(stack, filled);
    }
    Drained(prefixArrays, current, arraySize, resultLength, parts, lengths, input, expectedLength);
  }

  /** `IteratorToArray.of`: a null iterator throws NullPointerException and a
      negative hint IllegalArgumentException, both before anything is pulled;
      an empty iterator yields null and allocates nothing; otherwise the result
      is a fresh array holding exactly the produced elements, in order.
      `allocations` lists the lengths of the arrays allocated, in order, and
      `copied` counts the elements copied from one array into another: none
      on the fast path, otherwise each element exactly once. */
  method Of<T(0)>(it: Producer?<T>, expectedLength: int)
    returns (r: Outcome<array?<T>>, ghost allocations: seq<nat>, ghost copied: nat)
    requires it != null ==> it.Valid()
    modifies it
    ensures it != null ==> it.Valid()
    ensures it == null ==> r == Throw(NullPointer) && allocations == [] && copied == 0
    ensures it != null && expectedLength < 0 ==>
      && r == Throw(IllegalArgument) && allocations == [] && copied == 0
      && it.Remaining() == old(it.Remaining())
    ensures it != null && expectedLength >= 0 && old(it.Remaining()) == [] ==>
      r == Return(null) && allocations == [] && copied == 0 && it.Remaining() == []
    ensures it != null && expectedLength >= 0 && old(it.Remaining()) != [] ==>
      && it.Remaining() == []
      && r.Return? && r.value != null && fresh(r.value)
      && r.value[..] == old(it.Remaining())
      && allocations == Allocations(expectedLength, |old(it.Remaining())|)
      && copied == (if FastPath(expectedLength, |old(it.Remaining())|) then 0 else |old(it.Remaining())|)
  {
    if it == null {
      return Throw(NullPointer), [], 0;
    }
    if expectedLength < 0 {
      return Throw(IllegalArgument), [], 0;
    }
    var more := it.HasNext();
    if !more {
      return Return(null), [], 0;
    }

    ghost var input := it.Remaining();
    var capacity := if expectedLength == 0 then DefaultExpectedLength else expectedLength;
    var prefixArrays, current, arraySize, resultLength, parts, lengths := Collect(it, capacity, expectedLength);
    resultLength := resultLength + arraySize;
    allocations := lengths + [current.Length];

    if prefixArrays == null && current.Length == resultLength {
      // A single segment that is exactly full: returned without copying.
      assert current[..] == current[..arraySize];
      return Return(current), allocations, 0;
    }

    var result := new T[resultLength];
    allocations := allocations + [resultLength];
    copied := JoinInto(prefixArrays, current, arraySize, result, parts);
    return Return(result), allocations, copied;
  }
}
