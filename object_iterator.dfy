/** `ObjectIterator`: generic iterators over no value, one value, or the
    elements of an array. */
module ObjectIterators {
  import opened Java
  import opened Iterate

  /** The iterator of `of(T value)`: the flag `hasNext` is cleared by the one
      `next` call that produces `value`. */
  class SingletonIterator<T> {
    const value: T
    var hasNext: bool

    ghost function Remaining(): seq<T>
      reads this
    {
      if hasNext then [value] else []
    }

    constructor (value: T)
      ensures this.value == value && Remaining() == [value]
    {
      this.value := value;
      hasNext := true;
    }

    method HasNext() returns (b: bool)
      ensures b <==> Remaining() != []
    {
      return hasNext;
    }

    method Next() returns (r: Outcome<T>)
      modifies this
      ensures old(Remaining()) == [] ==> r == Throw(NoSuchElement) && Remaining() == []
      ensures old(Remaining()) != [] ==> r == Return(value) && Remaining() == []
    {
      var more := HasNext();
      if !more {
        return Throw(NoSuchElement);
      }
      hasNext := false;
      return Return(value);
    }

    method Remove() returns (r: Outcome<()>)
      ensures r == Throw(UnsupportedOperation)
    {
      return Throw(UnsupportedOperation);
    }
  }

  /** `of()`: the shared `EMPTY`. */
  method Of<C>() returns (r: Made<C>)
    ensures r == Shared
  {
    return Shared;
  }

  /** `of(T value)`: a new iterator producing `value` once. */
  method OfValue<T>(value: T) returns (r: SingletonIterator<T>)
    ensures fresh(r) && r.value == value && r.Remaining() == [value]
  {
    r := new SingletonIterator(value);
  }

  /** `of(T... objects)`: null throws; a zero-length array gives `of()`;
      otherwise a new iterator over the array, from its start. */
  method OfObjects<T>(objects: array?<T>) returns (r: Outcome<Made<ArrayIterator<T>>>)
    ensures objects == null <==> r == Throw(NullPointer)
    ensures objects != null ==> r.Return? && (r.value == Shared <==> objects.Length == 0)
    ensures objects != null && r.value.Fresh? ==>
      && fresh(r.value.instance) && r.value.instance.Valid()
      && r.value.instance.Remaining() == objects[..]
  {
    if objects == null {
      return Throw(NullPointer);
    }
    if objects.Length == 0 {
      var empty := Of();
      return Return(empty);
    }
    var instance := new ArrayIterator(objects);
    return Return(Fresh(instance));
  }
}
