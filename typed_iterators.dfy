/** The typed iterator factories that differ between element types: the
    ranges, whose bounds and values have the type's width, and the widening
    adapters. The factories common to all types (`EMPTY`, `of(array)`,
    `of(Iterator[, nullValue])`) are the generic ones of `Iterate`. */

/** What `IntIterator` adds to the generic iterators: a range over `int` bounds and the widening adapters from byte, short and char iterators. */
module IntIterators {
  import opened Java
  import opened Producers
  import opened Iterate

  /** `range(int from, int to)`: the shared `EMPTY` unless `from < to`; otherwise a new
      iterator producing `from, ..., to - 1`; `current` stays within `[from, to]`, so `current++` never overflows. */
  method Range(from: Int, to: Int) returns (r: Made<RangeIterator>)
    ensures r == Shared <==> from >= to
    ensures r.Fresh? ==>
      && fresh(r.instance) && r.instance.Valid()
      && r.instance.from == from && r.instance.to == to
      && r.instance.Remaining() == Interval(from, to)
      && forall v <- r.instance.Remaining() :: -0x8000_0000 <= v < 0x8000_0000
  {
    r := Iterate.Range(from, to);
    IntervalWithin(from, to);
  }

  /** `of(ByteIterator iterator)`: a null source throws; otherwise a new adapter whose `hasNext`
      is the source's and whose values are the source's, widened to `int`. */
  method OfBytes(source: Producer?<Byte>) returns (r: Outcome<WideningIterator<Byte, Int>>)
    requires source != null ==> source.Valid()
    ensures source == null <==> r == Throw(NullPointer)
    ensures source != null ==>
      && r.Return? && fresh(r.value) && r.value.Valid() && r.value.source == source
      && r.value.Remaining() == source.Remaining()
  {
    r := Widen(source, (v: Byte) => v as Int);
  }

  /** `of(ShortIterator iterator)`: a null source throws; otherwise a new adapter whose `hasNext`
      is the source's and whose values are the source's, widened to `int`. */
  method OfShorts(source: Producer?<Short>) returns (r: Outcome<WideningIterator<Short, Int>>)
    requires source != null ==> source.Valid()
    ensures source == null <==> r == Throw(NullPointer)
    ensures source != null ==>
      && r.Return? && fresh(r.value) && r.value.Valid() && r.value.source == source
      && r.value.Remaining() == source.Remaining()
  {
    r := Widen(source, (v: Short) => v as Int);
  }

  /** `of(CharIterator iterator)`: a null source throws; otherwise a new adapter whose `hasNext`
      is the source's and whose values are the source's, widened to `int`. */
  method OfChars(source: Producer?<Char>) returns (r: Outcome<WideningIterator<Char, Int>>)
    requires source != null ==> source.Valid()
    ensures source == null <==> r == Throw(NullPointer)
    ensures source != null ==>
      && r.Return? && fresh(r.value) && r.value.Valid() && r.value.source == source
      && r.value.Remaining() == source.Remaining()
  {
    r := Widen(source, (v: Char) => v as Int);
  }
}

/** What `LongIterator` adds to the generic iterators: a range whose bounds are `int`s, not `long`s, and the widening adapters from byte, short, char and int iterators. */
module LongIterators {
  import opened Java
  import opened Producers
  import opened Iterate

  /** `range(int from, int to)`: the shared `EMPTY` unless `from < to`; otherwise a new
      iterator producing `from, ..., to - 1` as longs; the counter is an `int` and stays within `[from, to]`. */
  method Range(from: Int, to: Int) returns (r: Made<RangeIterator>)
    ensures r == Shared <==> from >= to
    ensures r.Fresh? ==>
      && fresh(r.instance) && r.instance.Valid()
      && r.instance.from == from && r.instance.to == to
      && r.instance.Remaining() == Interval(from, to)
      && forall v <- r.instance.Remaining() :: -0x8000_0000 <= v < 0x8000_0000
  {
    r := Iterate.Range(from, to);
    IntervalWithin(from, to);
  }

  /** `of(ByteIterator iterator)`: a null source throws; otherwise a new adapter whose `hasNext`
      is the source's and whose values are the source's, widened to `long`. */
  method OfBytes(source: Producer?<Byte>) returns (r: Outcome<WideningIterator<Byte, Long>>)
    requires source != null ==> source.Valid()
    ensures source == null <==> r == Throw(NullPointer)
    ensures source != null ==>
      && r.Return? && fresh(r.value) && r.value.Valid() && r.value.source == source
      && r.value.Remaining() == source.Remaining()
  {
    r := Widen(source, (v: Byte) => v as Long);
  }

  /** `of(ShortIterator iterator)`: a null source throws; otherwise a new adapter whose `hasNext`
      is the source's and whose values are the source's, widened to `long`. */
  method OfShorts(source: Producer?<Short>) returns (r: Outcome<WideningIterator<Short, Long>>)
    requires source != null ==> source.Valid()
    ensures source == null <==> r == Throw(NullPointer)
    ensures source != null ==>
      && r.Return? && fresh(r.value) && r.value.Valid() && r.value.source == source
      && r.value.Remaining() == source.Remaining()
  {
    r := Widen(source, (v: Short) => v as Long);
  }

  /** `of(CharIterator iterator)`: a null source throws; otherwise a new adapter whose `hasNext`
      is the source's and whose values are the source's, widened to `long`. */
  method OfChars(source: Producer?<Char>) returns (r: Outcome<WideningIterator<Char, Long>>)
    requires source != null ==> source.Valid()
    ensures source == null <==> r == Throw(NullPointer)
    ensures source != null ==>
      && r.Return? && fresh(r.value) && r.value.Valid() && r.value.source == source
      && r.value.Remaining() == source.Remaining()
  {
    r := Widen(source, (v: Char) => v as Long);
  }

  /** `of(IntIterator iterator)`: a null source throws; otherwise a new adapter whose `hasNext`
      is the source's and whose values are the source's, widened to `long`. */
  method OfInts(source: Producer?<Int>) returns (r: Outcome<WideningIterator<Int, Long>>)
    requires source != null ==> source.Valid()
    ensures source == null <==> r == Throw(NullPointer)
    ensures source != null ==>
      && r.Return? && fresh(r.value) && r.value.Valid() && r.value.source == source
      && r.value.Remaining() == source.Remaining()
  {
    r := Widen(source, (v: Int) => v as Long);
  }
}

/** What `ShortIterator` adds to the generic iterators: a range over `short` bounds and the widening adapter from byte iterators. */
module ShortIterators {
  import opened Java
  import opened Producers
  import opened Iterate

  /** `range(short from, short to)`: the shared `EMPTY` unless `from < to`; otherwise a new
      iterator producing `from, ..., to - 1`; `current` stays within `[from, to]`, so `current++` never overflows the `short`. */
  method Range(from: Short, to: Short) returns (r: Made<RangeIterator>)
    ensures r == Shared <==> from >= to
    ensures r.Fresh? ==>
      && fresh(r.instance) && r.instance.Valid()
      && r.instance.from == from && r.instance.to == to
      && r.instance.Remaining() == Interval(from, to)
      && forall v <- r.instance.Remaining() :: -0x8000 <= v < 0x8000
  {
    r := Iterate.Range(from, to);
    IntervalWithin(from, to);
  }

  /** `of(ByteIterator iterator)`: a null source throws; otherwise a new adapter whose `hasNext`
      is the source's and whose values are the source's, widened to `short`. */
  method OfBytes(source: Producer?<Byte>) returns (r: Outcome<WideningIterator<Byte, Short>>)
    requires source != null ==> source.Valid()
    ensures source == null <==> r == Throw(NullPointer)
    ensures source != null ==>
      && r.Return? && fresh(r.value) && r.value.Valid() && r.value.source == source
      && r.value.Remaining() == source.Remaining()
  {
    r := Widen(source, (v: Byte) => v as Short);
  }
}

/** What `ByteIterator` adds to the generic iterators: a range over `byte` bounds. */
module ByteIterators {
  import opened Java
  import opened Producers
  import opened Iterate

  /** `range(byte fromByte, byte toByte)`: the shared `EMPTY` unless `from < to`; otherwise a new
      iterator producing `from, ..., to - 1`; `current` stays within `[fromByte, toByte]`, so `current++` never overflows the `byte`. */
  method Range(from: Byte, to: Byte) returns (r: Made<RangeIterator>)
    ensures r == Shared <==> from >= to
    ensures r.Fresh? ==>
      && fresh(r.instance) && r.instance.Valid()
      && r.instance.from == from && r.instance.to == to
      && r.instance.Remaining() == Interval(from, to)
      && forall v <- r.instance.Remaining() :: -0x80 <= v < 0x80
  {
    r := Iterate.Range(from, to);
    IntervalWithin(from, to);
  }
}

/** What `CharIterator` adds to the generic iterators: a range over `char` bounds. */
module CharIterators {
  import opened Java
  import opened Producers
  import opened Iterate

  /** `range(char from, char to)`: the shared `EMPTY` unless `from < to`; otherwise a new
      iterator producing `from, ..., to - 1`; `current` stays within `[from, to]`, so `current++` never overflows the `char`. */
  method Range(from: Char, to: Char) returns (r: Made<RangeIterator>)
    ensures r == Shared <==> from >= to
    ensures r.Fresh? ==>
      && fresh(r.instance) && r.instance.Valid()
      && r.instance.from == from && r.instance.to == to
      && r.instance.Remaining() == Interval(from, to)
      && forall v <- r.instance.Remaining() :: 0 <= v < 0x1_0000
  {
    r := Iterate.Range(from, to);
    IntervalWithin(from, to);
  }
}
