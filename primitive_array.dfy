/** `PrimitiveArray`: primitive arrays from varargs, returned as given, and
    from arrays of boxed values, unboxed into fresh arrays. One generic
    class stands for the eight element types; its instance holds the
    matching `EMPTY_*` constant. */
module PrimitiveArrays {
  import opened Java
  import opened Boxing

  class PrimitiveArray<T(0)> {
    /** `EMPTY_BOOLEANS`, `EMPTY_INTS`, ...: the shared zero-length array. */
    const empty: array<T>

    ghost predicate Valid()
    {
      empty.Length == 0
    }

    constructor ()
      ensures Valid() && fresh(empty)
    {
      empty := new T[0];
    }

    /** `of(prim... values)`: null throws; otherwise the argument itself,
        even when it has length 0 (no `EMPTY_*` is substituted). */
    method OfElements(values: array?<T>) returns (r: Outcome<array<T>>)
      ensures values == null <==> r == Throw(NullPointer)
      ensures values != null ==> r == Return(values)
    {
      if values == null {
        return Throw(NullPointer);
      }
      return Return(values);
    }

    /** `of(Boxed... boxed)`: null throws; an empty array gives `EMPTY_*`;
        otherwise a fresh array of the unboxed elements, where the first null
        element throws NullPointerException. */
    method OfBoxed(boxed: array?<Boxed<T>>) returns (r: Outcome<array<T>>)
      requires Valid()
      ensures boxed == null ==> r == Throw(NullPointer)
      ensures boxed != null ==> (r.Throw? <==> Null in boxed[..])
      ensures r.Throw? ==> r.exception == NullPointer
      ensures boxed != null && r.Return? ==> BoxEach(r.value[..]) == boxed[..]
      ensures boxed != null && r.Return? ==> (r.value == empty <==> boxed.Length == 0)
      ensures boxed != null && boxed.Length > 0 && r.Return? ==> fresh(r.value)
    {
      if boxed == null {
        return Throw(NullPointer);
      }
      var length := boxed.Length;
      if length == 0 {
        return Return(empty);
      }
      r := UnboxAll(boxed);
      if r.Return? {
        BoxEachUnboxEach(boxed[..]);
      }
    }
  }
}
