/** The typed array factories `IntArray`, `CharArray`, `BooleanArray`,
    `ByteArray`, `ShortArray`, `LongArray`, `FloatArray` and `DoubleArray`.
    They are one class written eight times over, so they are modelled by
    one generic class, `TypedArray<T>`, whose instance holds the static
    `EMPTY` constant; `IntArray.contains` and `CharArray.of(CharSequence)`,
    which exist for one element type only, follow it. */
module TypedArrays {
  import opened Java
  import opened Producers
  import opened Boxing
  import IteratorToArray
  import SegmentLayout

  class TypedArray<T(0)> {
    /** `EMPTY`: the shared zero-length array. */
    const empty: array<T>

    ghost predicate Valid()
    {
      empty.Length == 0
    }

    constructor ()
      ensures Valid() && fresh(empty)
    {
      empty := new T[0];
    }

    /** `of()`. */
    method Of() returns (r: array<T>)
      requires Valid()
      ensures r == empty && r.Length == 0
    {
      return empty;
    }

    /** `of(T... values)`: null throws; a zero-length argument is replaced by
        `EMPTY`; any other argument is returned itself, not copied. */
    method OfElements(values: array?<T>) returns (r: Outcome<array<T>>)
      requires Valid()
      ensures values == null ==> r == Throw(NullPointer)
      ensures values != null ==> r.Return? && r.value[..] == values[..]
      ensures values != null ==> (r.value == empty <==> values.Length == 0)
      ensures values != null && values.Length > 0 ==> r.value == values
    {
      if values == null {
        return Throw(NullPointer);
      }
      if values.Length == 0 {
        var e := Of();
        return Return(e);
      }
      return Return(values);
    }

    /** `of(Boxed[] boxed)`: null throws; an empty array gives `EMPTY`;
        otherwise a fresh array of the unboxed elements, where the first
        null element throws NullPointerException. */
    method OfBoxed(boxed: array?<Boxed<T>>) returns (r: Outcome<array<T>>)
      requires Valid()
      ensures boxed == null ==> r == Throw(NullPointer)
      ensures boxed != null ==> (r.Throw? <==> Null in boxed[..])
      ensures r.Throw? ==> r.exception == NullPointer
      ensures boxed != null && r.Return? ==> BoxEach(r.value[..]) == boxed[..]
      ensures boxed != null && r.Return? ==> (r.value == empty <==> boxed.Length == 0)
      ensures boxed != null && boxed.Length > 0 && r.Return? ==> fresh(r.value)
    {
      if boxed == null {
        return Throw(NullPointer);
      }
      if boxed.Length == 0 {
        return Return(empty);
      }
      r := UnboxAll(boxed);
      if r.Return? {
        BoxEachUnboxEach(boxed[..]);
      }
    }

    /** `of(Iterator iterator)`: the materializer with the default hint. */
    method OfIterator(it: Producer?<T>) returns (r: Outcome<array<T>>)
      requires Valid()
      requires it != null ==> it.Valid()
      modifies it
      ensures it == null ==> r == Throw(NullPointer)
      ensures it != null ==> it.Valid() && it.Remaining() == []
      ensures it != null ==> r.Return? && r.value[..] == old(it.Remaining())
      ensures it != null ==> (r.value == empty <==> old(it.Remaining()) == [])
      ensures it != null && old(it.Remaining()) != [] ==> fresh(r.value)
    {
      r := OfIteratorHint(it, SegmentLayout.DefaultExpectedLength);
    }

    /** `of(Iterator iterator, int expectedLength)`: the materializer's
        result, with its null (nothing produced) replaced by `EMPTY`. */
    method OfIteratorHint(it: Producer?<T>, expectedLength: int) returns (r: Outcome<array<T>>)
      requires Valid()
      requires it != null ==> it.Valid()
      modifies it
      ensures it == null ==> r == Throw(NullPointer)
      ensures it != null ==> it.Valid()
      ensures it != null && expectedLength < 0 ==>
        r == Throw(IllegalArgument) && it.Remaining() == old(it.Remaining())
      ensures it != null && expectedLength >= 0 ==>
        && it.Remaining() == []
        && r.Return? && r.value[..] == old(it.Remaining())
        && (r.value == empty <==> old(it.Remaining()) == [])
      ensures it != null && expectedLength >= 0 && old(it.Remaining()) != [] ==> fresh(r.value)
    {
      var made, allocations, copied := IteratorToArray.Of(it, expectedLength);
      match made
      case Throw(e) =>
        return Throw(e);
      case Return(values) =>
        if values == null {
          return Return(empty);
        }
        return Return(values);
    }
  }

  /** `IntArray.contains`: a scan of the array for `element`; a null array
      throws NullPointerException (the for-each loop dereferences it). */
  method Contains(ints: array?<Int>, element: Int) returns (r: Outcome<bool>)
    ensures ints == null ==> r == Throw(NullPointer)
    ensures ints != null ==> r == Return(element in ints[..])
  {
    if ints == null {
      return Throw(NullPointer);
    }
    for n := 0 to ints.Length
      invariant element !in ints[..n]
    {
      if ints[n] == element {
        return Return(true);
      }
      assert ints[..n + 1] == ints[..n] + [ints[n]];
    }
    assert ints[..] == ints[..ints.Length];
    return Return(false);
  }

  /** `CharArray.of(CharSequence)`: null throws; an empty sequence gives
      `EMPTY`; otherwise a fresh array filled by `charAt`, in order. */
  method OfCharSequence(chars: TypedArray<Char>, charSequence: Boxed<seq<Char>>)
    returns (r: Outcome<array<Char>>)
    requires chars.Valid()
    ensures charSequence == Null ==> r == Throw(NullPointer)
    ensures charSequence.Box? ==> r.Return? && r.value[..] == charSequence.value
    ensures charSequence.Box? ==> (r.value == chars.empty <==> charSequence.value == [])
    ensures charSequence.Box? && charSequence.value != [] ==> fresh(r.value)
  {
    if charSequence == Null {
      return Throw(NullPointer);
    }
    var text := charSequence.value;
    var length := |text|;
    if length == 0 {
      return Return(chars.empty);
    }
    var result := new Char[length];
    for index := 0 to length
      invariant result[..index] == text[..index]
    {
      result[index] := text[index];
    }
    return Return(result);
  }
}
