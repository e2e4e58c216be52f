/** A `java.util.Iterator` whose code is not part of this model, seen only
    through the elements it has still to produce. */
module Producers {
  import opened Java

  class Producer<T> {
    /** Everything the iterator produces, in production order. */
    const items: seq<T>
    /** How many of `items` have been consumed. */
    var index: nat

    ghost predicate Valid()
      reads this
    {
      index <= |items|
    }

    /** The elements that later calls of Next will produce. */
    ghost function Remaining(): seq<T>
      reads this
      requires Valid()
    {
      items[index..]
    }

    constructor (items: seq<T>)
      ensures Valid() && Remaining() == items
    {
      this.items := items;
      index := 0;
    }

    method HasNext() returns (b: bool)
      requires Valid()
      ensures b <==> Remaining() != []
    {
      b := index < |items|;
    }

    /** Consumes one element; past the end it throws NoSuchElementException. */
    method Next() returns (r: Outcome<T>)
      requires Valid()
      modifies this
      ensures Valid()
      ensures old(Remaining()) == [] ==> r == Throw(NoSuchElement) && Remaining() == []
      ensures old(Remaining()) != [] ==>
        r == Return(old(Remaining())[0]) && Remaining() == old(Remaining())[1..]
    {
      if index < |items| {
        r := Return(items[index]);
        index := index + 1;
      } else {
        r := Throw(NoSuchElement);
      }
    }
  }
}
