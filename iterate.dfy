/** The iterators that `IntIterator`, `LongIterator`, `ShortIterator`,
    `ByteIterator`, `CharIterator`, `BooleanIterator` and `ObjectIterator`
    build. Each kind is one generic class; what a factory returns is a
    `Made` value, which is either the type's shared `EMPTY` iterator or a
    new iterator of one kind. Every kind is seen through `Remaining()`, the
    elements its later `next` calls produce. */
module Iterate {
  import opened Java
  import opened Producers

  /** The result of a factory: the shared `EMPTY`, or a new iterator. */
  datatype Made<C> = Shared | Fresh(instance: C)

  /** `EMPTY`: nothing to produce; `remove` throws IllegalStateException,
      unlike the default `remove`. */
  class EmptyIterator<T> {
    constructor ()
    {
    }

    method HasNext() returns (b: bool)
      ensures !b
    {
      return false;
    }

    method Next() returns (r: Outcome<T>)
      ensures r == Throw(NoSuchElement)
    {
      return Throw(NoSuchElement);
    }

    method Remove() returns (r: Outcome<()>)
      ensures r == Throw(IllegalState)
    {
      return Throw(IllegalState);
    }
  }

  /** The iterator over a non-empty array (`of(int... ints)` and its kin):
      `index` counts the elements produced. */
  class ArrayIterator<T> {
    const elements: array<T>
    var index: nat

    ghost predicate Valid()
      reads this
    {
      index <= elements.Length
    }

    ghost function Remaining(): seq<T>
      reads this, elements
      requires Valid()
    {
      elements[index..]
    }

    constructor (elements: array<T>)
      ensures Valid() && this.elements == elements && Remaining() == elements[..]
    {
      this.elements := elements;
      index := 0;
    }

    method HasNext() returns (b: bool)
      requires Valid()
      ensures b <==> Remaining() != []
    {
      return index < elements.Length;
    }

    method Next() returns (r: Outcome<T>)
      requires Valid()
      modifies this
      ensures Valid()
      ensures old(Remaining()) == [] ==> r == Throw(NoSuchElement) && Remaining() == []
      ensures old(Remaining()) != [] ==>
        r == Return(old(Remaining())[0]) && Remaining() == old(Remaining())[1..]
    {
      var more := HasNext();
      if !more {
        return Throw(NoSuchElement);
      }
      r := Return(elements[index]);
      index := index + 1;
    }

    /** The inherited `remove`. */
    method Remove() returns (r: Outcome<()>)
      ensures r == Throw(UnsupportedOperation)
    {
      return Throw(UnsupportedOperation);
    }
  }

  /** `from, from + 1, ..., to - 1`. */
  function Interval(from: int, to: int): (r: seq<int>)
    ensures |r| == if from < to then to - from else 0
    ensures forall i | 0 <= i < |r| :: r[i] == from + i
    decreases if from < to then to - from else 0
  {
    if from < to then [from] + Interval(from + 1, to) else []
  }

  /** Every value of an interval lies between its bounds, so it fits any
      integer type that holds both bounds. */
  lemma IntervalWithin(from: int, to: int)
    ensures forall v <- Interval(from, to) :: from <= v < to
  {
    var r := Interval(from, to);
    forall v | v in r
      ensures from <= v < to
    {
      var i :| 0 <= i < |r| && r[i] == v;
    }
  }

  /** The iterator of `range(from, to)` for `from < to`: `current` is the
      next value and never passes `to`. */
  class RangeIterator {
    ghost const from: int
    const to: int
    var current: int

    ghost predicate Valid()
      reads this
    {
      from <= current <= to
    }

    ghost function Remaining(): seq<int>
      reads this
    {
      Interval(current, to)
    }

    constructor (from: int, to: int)
      requires from <= to
      ensures Valid() && this.from == from && this.to == to
      ensures Remaining() == Interval(from, to)
    {
      this.from := from;
      this.to := to;
      current := from;
    }

    method HasNext() returns (b: bool)
      ensures b <==> Remaining() != []
    {
      return current < to;
    }

    method Next() returns (r: Outcome<int>)
      requires Valid()
      modifies this
      ensures Valid()
      ensures old(Remaining()) == [] ==> r == Throw(NoSuchElement) && Remaining() == []
      ensures old(Remaining()) != [] ==>
        r == Return(old(Remaining())[0]) && Remaining() == old(Remaining())[1..]
      ensures r.Return? ==> from <= r.value < to
    {
      var more := HasNext();
      if !more {
        return Throw(NoSuchElement);
      }
      r := Return(current);
      current := current + 1;
    }

    /** The inherited `remove`. */
    method Remove() returns (r: Outcome<()>)
      ensures r == Throw(UnsupportedOperation)
    {
      return Throw(UnsupportedOperation);
    }
  }

  /** What the null-substituting adapter makes of one element of its source:
      a null element becomes `nullValue`, or throws NullPointerException
      when `nullValue` is null too. */
  function Substitute<T>(element: Boxed<T>, nullValue: Boxed<T>): (r: Outcome<T>)
  {
    match element
    case Box(v) => Return(v)
    case Null => if nullValue.Box? then Return(nullValue.value) else Throw(NullPointer)
  }

  function SubstituteAll<T>(elements: seq<Boxed<T>>, nullValue: Boxed<T>): (r: seq<Outcome<T>>)
    ensures |r| == |elements|
    ensures forall i | 0 <= i < |elements| :: r[i] == Substitute(elements[i], nullValue)
  {
    if elements == [] then []
    else [Substitute(elements[0], nullValue)] + SubstituteAll(elements[1..], nullValue)
  }

  /** With a non-null `nullValue` nothing throws, and every element is its
      source element or, in place of null, `nullValue`. */
  lemma SubstituteTotal<T>(elements: seq<Boxed<T>>, nullValue: Boxed<T>)
    requires nullValue.Box?
    ensures forall r <- SubstituteAll(elements, nullValue) :: r.Return?
    ensures forall i | 0 <= i < |elements| ::
      SubstituteAll(elements, nullValue)[i].value ==
        (if elements[i].Box? then elements[i].value else nullValue.value)
  {
    var s := SubstituteAll(elements, nullValue);
    forall r | r in s
      ensures r.Return?
    {
      var i :| 0 <= i < |s| && s[i] == r;
    }
  }

  /** With a null `nullValue`, an element throws exactly where the source
      has a null, and the source's boxes are unwrapped unchanged. */
  lemma SubstituteStrict<T>(elements: seq<Boxed<T>>)
    ensures forall i | 0 <= i < |elements| ::
      (SubstituteAll(elements, Null)[i] == Throw(NullPointer) <==> elements[i] == Null)
    ensures forall i | 0 <= i < |elements| && elements[i].Box? ::
      SubstituteAll(elements, Null)[i] == Return(elements[i].value)
  {
  }

  /** The adapter of `of(Iterator instance, nullValue)` over a non-empty
      source of boxed values. */
  class SubstitutingIterator<T> {
    const source: Producer<Boxed<T>>
    const nullValue: Boxed<T>

    ghost predicate Valid()
      reads this, source
    {
      source.Valid()
    }

    ghost function Remaining(): seq<Outcome<T>>
      reads this, source
      requires Valid()
    {
      SubstituteAll(source.Remaining(), nullValue)
    }

    constructor (source: Producer<Boxed<T>>, nullValue: Boxed<T>)
      requires source.Valid()
      ensures Valid() && this.source == source && this.nullValue == nullValue
      ensures Remaining() == SubstituteAll(source.Remaining(), nullValue)
    {
      this.source := source;
      this.nullValue := nullValue;
    }

    method HasNext() returns (b: bool)
      requires Valid()
      ensures b <==> Remaining() != []
    {
      b := source.HasNext();
    }

    /** `next()`, and `nextInt()` (and kin), which calls it. */
    method Next() returns (r: Outcome<T>)
      requires Valid()
      modifies source
      ensures Valid()
      ensures old(Remaining()) == [] ==> r == Throw(NoSuchElement) && Remaining() == []
      ensures old(Remaining()) != [] ==> r == old(Remaining())[0] && Remaining() == old(Remaining())[1..]
    {
      var current := source.Next();
      match current
      case Throw(e) =>
        return Throw(e);
      case Return(element) =>
        return Substitute(element, nullValue);
    }
  }

  /** Each element widened, in order. */
  function Widened<S, T>(widen: S -> T, elements: seq<S>): (r: seq<T>)
    ensures |r| == |elements|
    ensures forall i | 0 <= i < |elements| :: r[i] == widen(elements[i])
  {
    if elements == [] then [] else [widen(elements[0])] + Widened(widen, elements[1..])
  }

  /** The widening adapters (`IntIterator.of(ByteIterator)` and kin): the
      source's `hasNext` and values, each value widened. */
  class WideningIterator<S, T> {
    const source: Producer<S>
    const widen: S -> T

    ghost predicate Valid()
      reads this, source
    {
      source.Valid()
    }

    ghost function Remaining(): seq<T>
      reads this, source
      requires Valid()
    {
      Widened(widen, source.Remaining())
    }

    constructor (source: Producer<S>, widen: S -> T)
      requires source.Valid()
      ensures Valid() && this.source == source && this.widen == widen
      ensures Remaining() == Widened(widen, source.Remaining())
    {
      this.source := source;
      this.widen := widen;
    }

    method HasNext() returns (b: bool)
      requires Valid()
      ensures b <==> source.Remaining() != []
    {
      b := source.HasNext();
    }

    method Next() returns (r: Outcome<T>)
      requires Valid()
      modifies source
      ensures Valid()
      ensures old(source.Remaining()) == [] ==> r == Throw(NoSuchElement) && Remaining() == []
      ensures old(source.Remaining()) != [] ==>
        r == Return(widen(old(source.Remaining())[0])) && Remaining() == old(Remaining())[1..]
    {
      var current := source.Next();
      match current
      case Throw(e) =>
        return Throw(e);
      case Return(value) =>
        return Return(widen(value));
    }
  }

  /** `of(T... elements)`: null throws; a zero-length array gives the shared
      `EMPTY`; otherwise a new instance over the array, from its start. */
  method OfArray<T>(elements: array?<T>) returns (r: Outcome<Made<ArrayIterator<T>>>)
    ensures elements == null <==> r == Throw(NullPointer)
    ensures elements != null ==> r.Return? && (r.value == Shared <==> elements.Length == 0)
    ensures elements != null && r.value.Fresh? ==>
      && fresh(r.value.instance) && r.value.instance.Valid()
      && r.value.instance.elements == elements
      && r.value.instance.Remaining() == elements[..]
  {
    if elements == null {
      return Throw(NullPointer);
    }
    if elements.Length == 0 {
      return Return(Shared);
    }
    var instance := new ArrayIterator(elements);
    return Return(Fresh(instance));
  }

  /** `range(from, to)`: the shared `EMPTY` unless `from < to`; otherwise a
      new instance producing `from, ..., to - 1`. */
  method Range(from: int, to: int) returns (r: Made<RangeIterator>)
    ensures r == Shared <==> from >= to
    ensures r.Fresh? ==>
      && fresh(r.instance) && r.instance.Valid()
      && r.instance.from == from && r.instance.to == to
      && r.instance.Remaining() == Interval(from, to)
  {
    if from >= to {
      return Shared;
    }
    var instance := new RangeIterator(from, to);
    return Fresh(instance);
  }

  /** `of(Iterator instance, nullValue)`: a null source throws; an empty one
      gives the shared `EMPTY`; otherwise a new substituting adapter. */
  method OfSource<T>(source: Producer?<Boxed<T>>, nullValue: Boxed<T>)
    returns (r: Outcome<Made<SubstitutingIterator<T>>>)
    requires source != null ==> source.Valid()
    ensures source == null <==> r == Throw(NullPointer)
    ensures source != null ==> r.Return? && (r.value == Shared <==> source.Remaining() == [])
    ensures source != null && r.value.Fresh? ==>
      && fresh(r.value.instance) && r.value.instance.Valid()
      && r.value.instance.source == source && r.value.instance.nullValue == nullValue
      && r.value.instance.Remaining() == SubstituteAll(source.Remaining(), nullValue)
  {
    if source == null {
      return Throw(NullPointer);
    }
    var more := source.HasNext();
    if !more {
      return Return(Shared);
    }
    var instance := new SubstitutingIterator(source, nullValue);
    return Return(Fresh(instance));
  }

  /** `of(Iterator instance)`: the adapter with a null `nullValue`, so that
      a null element throws NullPointerException. */
  method OfSourceStrict<T>(source: Producer?<Boxed<T>>) returns (r: Outcome<Made<SubstitutingIterator<T>>>)
    requires source != null ==> source.Valid()
    ensures source == null <==> r == Throw(NullPointer)
    ensures source != null ==> r.Return? && (r.value == Shared <==> source.Remaining() == [])
    ensures source != null && r.value.Fresh? ==>
      && fresh(r.value.instance) && r.value.instance.Valid()
      && r.value.instance.source == source && r.value.instance.nullValue == Null
  {
    r := OfSource(source, Null);
  }

  /** A widening adapter factory: a null source throws; otherwise a new
      adapter, even over an empty source. */
  method Widen<S, T>(source: Producer?<S>, widen: S -> T) returns (r: Outcome<WideningIterator<S, T>>)
    requires source != null ==> source.Valid()
    ensures source == null <==> r == Throw(NullPointer)
    ensures source != null ==>
      && r.Return? && fresh(r.value) && r.value.Valid()
      && r.value.source == source && r.value.widen == widen
      && r.value.Remaining() == Widened(widen, source.Remaining())
  {
    if source == null {
      return Throw(NullPointer);
    }
    var instance := new WideningIterator(source, widen);
    return Return(instance);
  }
}
