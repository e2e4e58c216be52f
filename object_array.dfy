/** `ObjectArray`: arrays of references. Primitive arrays are boxed into
    fresh wrapper arrays, object varargs are returned as given, and an
    iterator is drained into a list and then into a fresh array. */
module ObjectArrays {
  import opened Java
  import opened Producers
  import opened Boxing

  /** The boxing half of `ObjectArray`, for one primitive type `T`; its
      instance holds the matching `EMPTY_*` wrapper array. */
  class ObjectArray<T> {
    /** `EMPTY_BOOLEANS`, `EMPTY_INTS`, ...: the shared zero-length array. */
    const empty: array<Boxed<T>>

    ghost predicate Valid()
    {
      empty.Length == 0
    }

    constructor ()
      ensures Valid() && fresh(empty)
    {
      empty := new Boxed<T>[0];
    }

    /** `of(prim... values)`: null throws; an empty array gives `EMPTY_*`;
        otherwise a fresh array of the boxed elements, none of them null. */
    method OfPrimitives(values: array?<T>) returns (r: Outcome<array<Boxed<T>>>)
      requires Valid()
      ensures values == null <==> r == Throw(NullPointer)
      ensures values != null ==> r.Return? && UnboxEach(r.value[..]) == Return(values[..])
      ensures values != null ==> (r.value == empty <==> values.Length == 0)
      ensures values != null && values.Length > 0 ==> fresh(r.value) && Null !in r.value[..]
    {
      if values == null {
        return Throw(NullPointer);
      }
      var length := values.Length;
      if length == 0 {
        assert empty[..] == [] && values[..] == [];
        return Return(empty);
      }
      var result := BoxAll(values);
      UnboxEachBoxEach(values[..]);
      return Return(result);
    }
  }

  /** The constants of `ObjectArray` that are not tied to a primitive type.
      `EMPTY_OBJECTS` is declared as `Object[]` but is the very same array as
      `EMPTY_STRINGS`. */
  class Constants {
    const emptyStrings: array<Boxed<string>>
    const emptyObjects: array<Boxed<string>>

    constructor ()
      ensures fresh(emptyStrings) && emptyStrings.Length == 0
      ensures emptyObjects == emptyStrings
    {
      emptyStrings := new Boxed<string>[0];
      emptyObjects := emptyStrings;
    }
  }

  /** `of(T... objects)`: null throws; otherwise the argument itself. */
  method OfObjects<T>(objects: array?<T>) returns (r: Outcome<array<T>>)
    ensures objects == null <==> r == Throw(NullPointer)
    ensures objects != null ==> r == Return(objects)
  {
    if objects == null {
      return Throw(NullPointer);
    }
    return Return(objects);
  }

  /** `of(Iterator iterator, Class arrayType)`: a null iterator throws; an
      empty one gives a fresh zero-length array (not a shared constant);
      otherwise every element is appended to a list, in order, and the list
      is copied into a fresh array of its size. */
  method OfIterator<T>(it: Producer?<T>) returns (r: Outcome<array<T>>)
    requires it != null ==> it.Valid()
    modifies it
    ensures it == null <==> r == Throw(NullPointer)
    ensures it != null ==>
      && it.Valid() && it.Remaining() == []
      && r.Return? && fresh(r.value) && r.value[..] == old(it.Remaining())
  {
    if it == null {
      return Throw(NullPointer);
    }
    var more := it.HasNext();
    var list: seq<T> := [];
    if more {
      ghost var input := it.Remaining();
      while more
        invariant it.Valid() && list + it.Remaining() == input
        invariant more <==> it.Remaining() != []
        decreases |it.Remaining()|
      {
        ghost var rest := it.Remaining();
        var x := it.Next();
        list := list + [x.value];
        assert list + it.Remaining() == input by {
          assert rest == [x.value] + it.Remaining();
        }
        more := it.HasNext();
      }
      assert list == input;
    }
    var result := new T[|list|](i requires 0 <= i < |list| => list[i]);
    return Return(result);
  }
}
