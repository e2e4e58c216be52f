# primitivo in Dafny

A model of the core of primitivo, a Java library of array and iterator
utilities for primitive types, with proofs about it.

The heart of the library is the materializer, `IteratorToArray.of`. It drains
an iterator of unknown length into one array of exactly the right length:

- The elements go into a first segment as long as the caller's hint (16 when
  the hint is 0).
- When a segment is full and more elements remain, it is pushed onto a singly
  linked stack (`Prefix`). A new segment is allocated, as long as everything
  written so far.
- At the end, a single segment that is exactly full is returned as it is.
  Otherwise `joinInto` writes the partial last segment at the back of an
  exactly sized result. It then pops the stack, newest first, copying each
  full segment in front of it.

Around the materializer sit:

- the typed array factories `IntArray`, `CharArray`, `BooleanArray`, `ByteArray`,
  `ShortArray`, `LongArray`, `FloatArray` and `DoubleArray`;
- `PrimitiveArray` and `ObjectArray`, which convert between primitive and boxed arrays;
- the iterator factories `IntIterator`, `LongIterator`, `ShortIterator`,
  `ByteIterator`, `CharIterator`, `BooleanIterator` and `ObjectIterator`.

How the model is organised:

- `java.dfy` (`Java`): exceptions as an `Outcome` (a call returns or throws);
  nullable boxed values as `Boxed`; the integer types as subset types with
  their Java ranges; `float`/`double` as bit patterns.
- `producer.dfy` (`Producers`): a `java.util.Iterator` whose code is not part
  of the model, as a class seen through `Remaining()`, the elements it has
  still to produce.
- `segment_layout.dfy` (`SegmentLayout`): the lengths of the segments the
  materializer allocates, as functions of the hint and the element count.
  The lemmas cover growth, doubling, room for every element, the fast path
  and the allocation bound.
- `prefix_stack.dfy` (`PrefixStack`): the `Prefix` stack as a class with final
  fields. Also where each retired array lands in the result.
- `drain.dfy` (`Drain`): the invariant of the do-while loop of `of`.
- `drain_steps.dfy` (`DrainSteps`): the lemmas that carry that invariant from
  one round to the next.
- `iterator_to_array.dfy` (`IteratorToArray`): `of` and `joinInto` as methods
  on arrays.
  - The do-while loop is `Collect`. Each round of it is `Step`.
  - `Step` is the retire branch (`Retire`) followed by the write of the next
    element (`Append`).
  - The `while` loop of `joinInto` is `MergePrefix`. `System.arraycopy` is
    `ArrayCopy`.
  - `Of` also returns two ghost outputs. The first is the lengths of all
    arrays it allocates, which are proved equal to `SegmentLayout.Allocations`.
    The second counts the elements copied from one array into another. The
    count is threaded up from `ArrayCopy`.
- `boxing.dfy` (`Boxing`): boxing and unboxing of whole arrays, as functions
  with round-trip lemmas, and the copy loops as methods.
- `typed_arrays.dfy` (`TypedArrays`): the eight typed array classes are the
  same code with a different element type. They are one generic class whose
  instance holds the static `EMPTY`, plus `IntArray.contains` and
  `CharArray.of(CharSequence)`.
- `primitive_array.dfy`, `object_array.dfy`: `PrimitiveArray` and
  `ObjectArray`, in the same way.
- `iterate.dfy` (`Iterate`): each kind of iterator the factories build is one
  generic class with its mutable field: the array iterator's `index`, the
  range's `current`, the null-substituting adapter and the widening adapter.
  The factories common to all element types are generic methods. A factory's
  result is `Made`: either the type's shared `EMPTY` or a new iterator.
- `typed_iterators.dfy`: for each integer iterator type, what depends on the
  type: `range`, with bounds and values of the type's width, and the widening
  adapters.
- `object_iterator.dfy` (`ObjectIterators`): `ObjectIterator`, including the
  single-value iterator.

## Model

| member | source | states |
|---|---|---|
| SegmentLayout.InitialCapacity | src/main/java/primitivo/array/IteratorToArray.java:22-93 | the first segment is as long as the hint, or 16 (`DEFAULT_EXPECTED_LENGTH`) when the hint is 0, so it is never empty |
| SegmentLayout.LayoutFromHolds | src/main/java/primitivo/array/IteratorToArray.java:99-116 | from any segment on, every segment but the last is full, together they hold fewer than all elements, and with the last one there is room for all of them |
| SegmentLayout.LayoutFromGrows | src/main/java/primitivo/array/IteratorToArray.java:105-110 | each new segment is as long as all elements written before it |
| SegmentLayout.LayoutGrowth | src/main/java/primitivo/array/IteratorToArray.java:101-110 | the first segment has the initial capacity, every segment is non-empty, and each later one equals the sum of all earlier ones |
| SegmentLayout.LayoutDoubles | src/main/java/primitivo/array/IteratorToArray.java:105-110 | from the third segment on, each segment is twice as long as its predecessor |
| SegmentLayout.LayoutHoldsAll | src/main/java/primitivo/array/IteratorToArray.java:99-118 | the retired segments hold fewer than all elements and the last segment holds the rest, which fits in it |
| SegmentLayout.LastSegment | src/main/java/primitivo/array/IteratorToArray.java:116-121 | when the remaining elements fit the current segment it is the last one, and the fast path applies exactly when nothing was retired and it is exactly full |
| SegmentLayout.FastPathIff | src/main/java/primitivo/array/IteratorToArray.java:48-49 | a single array is allocated exactly when the initial capacity equals the element count |
| SegmentLayout.AllocationBound | src/main/java/primitivo/array/IteratorToArray.java:43-46 | once a segment has been retired, the segments together are shorter than twice the element count and all allocations shorter than three times it |
| PrefixStack.Prefix.constructor | src/main/java/primitivo/array/IteratorToArray.java:24-32 | a new node holds the given prefix and array, and its arrays are those of the prefix followed by the new array |
| PrefixStack.Ends | src/main/java/primitivo/array/IteratorToArray.java:147 | the end positions of the prefixes in the result start at 0 and finish at the total length of the retired arrays |
| PrefixStack.PieceAt | src/main/java/primitivo/array/IteratorToArray.java:150-151 | the k-th retired array occupies exactly the slice between the ends of the first k-1 and the first k arrays |
| PrefixStack.PopStep | src/main/java/primitivo/array/IteratorToArray.java:153-157 | popping a node uncovers the array it holds, whose slice ends at the current offset, and leaves a stack whose arrays end where that slice starts |
| IteratorToArray.ArrayCopy | src/main/java/primitivo/array/IteratorToArray.java:148 | `System.arraycopy` copies the source slice into the destination slice, leaves the rest of the destination unchanged, and copies exactly `length` elements |
| IteratorToArray.CopyBack | src/main/java/primitivo/array/IteratorToArray.java:154-156 | copying an array in front of a tail that already matches the intended result extends the match to the new offset, copying exactly the array's filled length |
| IteratorToArray.MergePrefix | src/main/java/primitivo/array/IteratorToArray.java:150-158 | popping every prefix, newest first, with a decreasing offset that ends at 0, leaves the result equal to the concatenation of all parts; the copies made add up to the starting offset, so each slot in front of it is written exactly once |
| IteratorToArray.JoinInto | src/main/java/primitivo/array/IteratorToArray.java:145-159 | the result holds the retired arrays, oldest first, followed by the filled part of the suffix array, and exactly `result.length` elements are copied, one per slot |
| DrainSteps.StartDraining | src/main/java/primitivo/array/IteratorToArray.java:92-97 | before the first element, one empty segment of the initial capacity and an empty stack satisfy the loop invariant |
| DrainSteps.RetireElements | src/main/java/primitivo/array/IteratorToArray.java:103-107 | pushing a full segment keeps the retired arrays equal to the first `resultLength` produced elements |
| DrainSteps.RetireLayout | src/main/java/primitivo/array/IteratorToArray.java:105-110 | pushing a full segment when more elements remain moves the layout still to come one segment on |
| DrainSteps.RetireFilling | src/main/java/primitivo/array/IteratorToArray.java:101-110 | retiring a full segment keeps what the loop knows about the retired elements and the segment lengths |
| DrainSteps.Retired | src/main/java/primitivo/array/IteratorToArray.java:101-111 | pushing the full array and continuing with a new empty one of length `resultLength` keeps the loop invariant |
| DrainSteps.Drained | src/main/java/primitivo/array/IteratorToArray.java:116-118 | when the iterator is exhausted, the retired arrays and the filled part of the last one hold exactly the produced elements and follow the layout |
| IteratorToArray.Retire | src/main/java/primitivo/array/IteratorToArray.java:101-111 | the full array itself (not a copy) becomes the new top of the stack, on top of the old one; the retired parts and lengths grow by that array; `resultLength` grows by its length; a fresh empty array of length `resultLength` becomes current; the loop invariant is kept |
| IteratorToArray.Append | src/main/java/primitivo/array/IteratorToArray.java:113-115 | the next produced element is written just past the filled part of the current array |
| IteratorToArray.Step | src/main/java/primitivo/array/IteratorToArray.java:99-116 | one round of the do-while loop consumes exactly one element and keeps the invariant; the stack is unchanged, or grew by exactly the full array; it reports whether more elements remain |
| IteratorToArray.Collect | src/main/java/primitivo/array/IteratorToArray.java:92-118 | the loop consumes every element; the retired arrays and the filled part of the last one hold them in order; the lengths of the arrays actually on the stack, followed by the last one's, are the layout |
| IteratorToArray.Of | src/main/java/primitivo/array/IteratorToArray.java:76-129 | a null iterator throws NullPointerException and a negative hint IllegalArgumentException before any element is pulled; an empty iterator gives null and allocates nothing; otherwise the result is a fresh array holding exactly the produced elements in order (the round trip that IteratorToArrayTest checks for lengths and hints below 100); the arrays allocated are the layout plus, off the fast path, the result; no element is copied on the fast path and each element exactly once otherwise, as the javadoc at lines 43-49 promises |
| Boxing.BoxEach | src/main/java/primitivo/array/ObjectArray.java:89-93 | boxing keeps the length and boxes each element, so no boxed element is null |
| Boxing.UnboxEach | src/main/java/primitivo/array/PrimitiveArray.java:137-141 | unboxing throws NullPointerException exactly when some element is null |
| Boxing.UnboxEachBoxEach | src/main/java/primitivo/array/ObjectArray.java:81-94 | unboxing what was boxed gives back the original values |
| Boxing.BoxEachUnboxEach | src/main/java/primitivo/array/PrimitiveArray.java:129-142 | when unboxing succeeds, boxing its result gives back the input |
| Boxing.BoxAll | src/main/java/primitivo/array/ObjectArray.java:89-93 | the boxing loop fills a fresh array with the boxed elements, in order |
| Boxing.UnboxAll | src/main/java/primitivo/array/PrimitiveArray.java:137-141 | the unboxing loop throws NullPointerException exactly when an element is null, and otherwise fills a fresh array with the unboxed elements |
| TypedArrays.TypedArray.constructor | src/main/java/primitivo/array/IntArray.java:9 | `EMPTY` is a zero-length array |
| TypedArrays.TypedArray.Of | src/main/java/primitivo/array/IntArray.java:11-13 | `of()` returns the shared `EMPTY` |
| TypedArrays.TypedArray.OfElements | src/main/java/primitivo/array/IntArray.java:15-23 | null throws NullPointerException; the result has the argument's elements; it is `EMPTY` exactly for a zero-length argument, and otherwise the argument itself (the same code, lines 11-23, in each of the other seven typed array classes) |
| TypedArrays.TypedArray.OfBoxed | src/main/java/primitivo/array/IntArray.java:26-39 | null throws; a null element throws NullPointerException; otherwise the result boxes back to the input, and is `EMPTY` exactly when the input is empty, else a fresh array (the same code, lines 26-39, in each of the other seven typed array classes) |
| TypedArrays.TypedArray.OfIterator | src/main/java/primitivo/array/IntArray.java:41-43 | the materializer with hint 16: the result holds the produced elements, and is `EMPTY` exactly when there were none |
| TypedArrays.TypedArray.OfIteratorHint | src/main/java/primitivo/array/IntArray.java:45-51 | the materializer's errors pass through; its null result becomes `EMPTY`; otherwise its array is returned, holding the produced elements (the same code, lines 41-51, in each of the other seven typed array classes) |
| TypedArrays.Contains | src/main/java/primitivo/array/IntArray.java:53-60 | null throws NullPointerException; otherwise true exactly when the element occurs in the array (false for an empty one) |
| TypedArrays.OfCharSequence | src/main/java/primitivo/array/CharArray.java:53-73 | null throws; the result holds the sequence's characters in order, and is `EMPTY` exactly when the sequence is empty, else a fresh array |
| PrimitiveArrays.PrimitiveArray.constructor | src/main/java/primitivo/array/PrimitiveArray.java:4-11 | each `EMPTY_*` constant is a zero-length array |
| PrimitiveArrays.PrimitiveArray.OfElements | src/main/java/primitivo/array/PrimitiveArray.java:13-67 | null throws NullPointerException; otherwise the argument itself, even when it has length 0 |
| PrimitiveArrays.PrimitiveArray.OfBoxed | src/main/java/primitivo/array/PrimitiveArray.java:69-187 | null array or null element throws NullPointerException; `EMPTY_*` exactly for an empty input; otherwise a fresh array that boxes back to the input |
| ObjectArrays.ObjectArray.constructor | src/main/java/primitivo/array/ObjectArray.java:9-16 | each `EMPTY_*` wrapper constant is a zero-length array |
| ObjectArrays.ObjectArray.OfPrimitives | src/main/java/primitivo/array/ObjectArray.java:21-139 | null throws; the result unboxes back to the input and holds no null; it is `EMPTY_*` exactly for an empty input, else a fresh array |
| ObjectArrays.Constants.constructor | src/main/java/primitivo/array/ObjectArray.java:18-19 | `EMPTY_OBJECTS` is the very same array as `EMPTY_STRINGS`, which has length 0 |
| ObjectArrays.OfObjects | src/main/java/primitivo/array/ObjectArray.java:142-147 | null throws NullPointerException; otherwise the argument itself |
| ObjectArrays.OfIterator | src/main/java/primitivo/array/ObjectArray.java:150-167 | a null iterator throws; otherwise every element is consumed and the result is a fresh array (zero-length, not shared, for an empty iterator) holding them in order |
| Iterate.EmptyIterator.Next | src/main/java/primitivo/iterate/IntIterator.java:30-45 | `EMPTY.next` throws NoSuchElementException (the same `EMPTY` in LongIterator, ShortIterator, ByteIterator, CharIterator and BooleanIterator at lines 30-45, and ObjectIterator at 15-30) |
| Iterate.EmptyIterator.HasNext | src/main/java/primitivo/iterate/IntIterator.java:32-34 | `EMPTY.hasNext()` is false |
| Iterate.EmptyIterator.Remove | src/main/java/primitivo/iterate/IntIterator.java:41-44 | `EMPTY.remove()` throws IllegalStateException |
| Iterate.ArrayIterator.constructor | src/main/java/primitivo/iterate/IntIterator.java:164-165 | a new array iterator starts at index 0 and will produce the whole array |
| Iterate.ArrayIterator.HasNext | src/main/java/primitivo/iterate/IntIterator.java:168-170 | `hasNext` is true exactly while elements remain, that is while `index < length` |
| Iterate.ArrayIterator.Next | src/main/java/primitivo/iterate/IntIterator.java:173-178 | past the end it throws NoSuchElementException; otherwise it produces the next element and advances |
| Iterate.ArrayIterator.Remove | src/main/java/primitivo/iterate/IntIterator.java:25-28 | the inherited `remove` throws UnsupportedOperationException |
| Iterate.Interval | src/main/java/primitivo/iterate/IntIterator.java:182-202 | the range holds `to - from` values (none when `from >= to`), the i-th being `from + i` |
| Iterate.IntervalWithin | src/main/java/primitivo/iterate/ShortIterator.java:137-157 | every value of a range lies in `[from, to)`, so it fits the type of the bounds |
| Iterate.RangeIterator.constructor | src/main/java/primitivo/iterate/IntIterator.java:186-187 | a new range iterator starts at `from` and will produce `from, ..., to - 1` |
| Iterate.RangeIterator.HasNext | src/main/java/primitivo/iterate/IntIterator.java:190-192 | `hasNext` is true exactly while values remain, that is while `current < to` |
| Iterate.RangeIterator.Next | src/main/java/primitivo/iterate/IntIterator.java:195-200 | past the end it throws NoSuchElementException; otherwise it produces the next value, which lies in `[from, to)`, and `current` stays within `[from, to]` |
| Iterate.RangeIterator.Remove | src/main/java/primitivo/iterate/IntIterator.java:25-28 | the inherited `remove` throws UnsupportedOperationException |
| Iterate.SubstituteAll | src/main/java/primitivo/iterate/IntIterator.java:137-148 | each source element gives one outcome, the element itself, `nullValue` in place of null, or NullPointerException when both are null |
| Iterate.SubstituteTotal | src/main/java/primitivo/iterate/IntIterator.java:140-145 | with a non-null `nullValue` nothing throws and nulls are replaced by `nullValue` |
| Iterate.SubstituteStrict | src/main/java/primitivo/iterate/IntIterator.java:114-117 | with a null `nullValue` an element throws NullPointerException exactly where the source has a null; other elements pass through |
| Iterate.SubstitutingIterator.constructor | src/main/java/primitivo/iterate/IntIterator.java:126 | the adapter will produce the substituted elements of its source |
| Iterate.SubstitutingIterator.HasNext | src/main/java/primitivo/iterate/IntIterator.java:128-130 | `hasNext` is the source's |
| Iterate.SubstitutingIterator.Next | src/main/java/primitivo/iterate/IntIterator.java:133-148 | the next outcome is the substitution of the source's next element; an exhausted source throws NoSuchElementException |
| Iterate.Widened | src/main/java/primitivo/iterate/IntIterator.java:57-60 | widening keeps the length and widens each element |
| Iterate.WideningIterator.constructor | src/main/java/primitivo/iterate/IntIterator.java:51 | the adapter will produce the source's elements, widened |
| Iterate.WideningIterator.HasNext | src/main/java/primitivo/iterate/IntIterator.java:53-55 | `hasNext` is the source's |
| Iterate.WideningIterator.Next | src/main/java/primitivo/iterate/IntIterator.java:58-60 | the next value is the source's next value widened; an exhausted source throws NoSuchElementException |
| Iterate.OfArray | src/main/java/primitivo/iterate/IntIterator.java:157-180 | null throws NullPointerException; a zero-length array gives `EMPTY`; otherwise a new iterator producing the array's elements in order (the same code in LongIterator 178-201, ShortIterator 112-135, and ByteIterator, CharIterator and BooleanIterator 90-113) |
| Iterate.Range | src/main/java/primitivo/iterate/IntIterator.java:182-202 | `EMPTY` exactly when `from >= to`; otherwise a new iterator producing `from, ..., to - 1` |
| Iterate.OfSource | src/main/java/primitivo/iterate/IntIterator.java:119-155 | a null source throws NullPointerException; an empty source gives `EMPTY`; otherwise a new adapter producing the substituted elements (the same code in LongIterator 140-176, ShortIterator 74-110, and ByteIterator, CharIterator and BooleanIterator 52-88) |
| Iterate.OfSourceStrict | src/main/java/primitivo/iterate/IntIterator.java:114-117 | `of(iterator)` is `of(iterator, null)`: same errors and `EMPTY` case, with a null `nullValue` (the same code in LongIterator 135-138, ShortIterator 69-72, and ByteIterator, CharIterator and BooleanIterator 47-50) |
| Iterate.Widen | src/main/java/primitivo/iterate/IntIterator.java:47-67 | a null source throws NullPointerException; otherwise a new adapter, even over an empty source |
| IntIterators.Range | src/main/java/primitivo/iterate/IntIterator.java:182-202 | `EMPTY` exactly when `from >= to`; otherwise the values `from, ..., to - 1`, all within `int` |
| IntIterators.OfBytes | src/main/java/primitivo/iterate/IntIterator.java:47-67 | null throws; otherwise an adapter producing the byte source's values as ints |
| IntIterators.OfShorts | src/main/java/primitivo/iterate/IntIterator.java:70-90 | null throws; otherwise an adapter producing the short source's values as ints |
| IntIterators.OfChars | src/main/java/primitivo/iterate/IntIterator.java:92-112 | null throws; otherwise an adapter producing the char source's values as ints |
| LongIterators.Range | src/main/java/primitivo/iterate/LongIterator.java:203-223 | `int` bounds; `EMPTY` exactly when `from >= to`; otherwise the values `from, ..., to - 1` as longs, all within `int` |
| LongIterators.OfBytes | src/main/java/primitivo/iterate/LongIterator.java:47-67 | null throws; otherwise an adapter producing the byte source's values as longs |
| LongIterators.OfShorts | src/main/java/primitivo/iterate/LongIterator.java:69-89 | null throws; otherwise an adapter producing the short source's values as longs |
| LongIterators.OfChars | src/main/java/primitivo/iterate/LongIterator.java:91-111 | null throws; otherwise an adapter producing the char source's values as longs |
| LongIterators.OfInts | src/main/java/primitivo/iterate/LongIterator.java:113-133 | null throws; otherwise an adapter producing the int source's values as longs |
| ShortIterators.Range | src/main/java/primitivo/iterate/ShortIterator.java:137-157 | `EMPTY` exactly when `from >= to`; otherwise the values `from, ..., to - 1`, all within `short`, so `current++` never overflows |
| ShortIterators.OfBytes | src/main/java/primitivo/iterate/ShortIterator.java:47-67 | null throws; otherwise an adapter producing the byte source's values as shorts |
| ByteIterators.Range | src/main/java/primitivo/iterate/ByteIterator.java:115-135 | `EMPTY` exactly when `fromByte >= toByte`; otherwise the values `fromByte, ..., toByte - 1`, all within `byte` |
| CharIterators.Range | src/main/java/primitivo/iterate/CharIterator.java:115-135 | `EMPTY` exactly when `from >= to`; otherwise the values `from, ..., to - 1`, all within `char` |
| ObjectIterators.SingletonIterator.constructor | src/main/java/primitivo/iterate/ObjectIterator.java:38-39 | a new singleton iterator will produce its value once |
| ObjectIterators.SingletonIterator.HasNext | src/main/java/primitivo/iterate/ObjectIterator.java:42-44 | `hasNext` is true exactly until the value has been produced |
| ObjectIterators.SingletonIterator.Next | src/main/java/primitivo/iterate/ObjectIterator.java:47-53 | the first call produces the value; every later call throws NoSuchElementException |
| ObjectIterators.SingletonIterator.Remove | src/main/java/primitivo/iterate/ObjectIterator.java:56-58 | `remove` throws UnsupportedOperationException |
| ObjectIterators.Of | src/main/java/primitivo/iterate/ObjectIterator.java:32-35 | `of()` returns the shared `EMPTY` |
| ObjectIterators.OfValue | src/main/java/primitivo/iterate/ObjectIterator.java:37-60 | a new iterator that produces `value` exactly once |
| ObjectIterators.OfObjects | src/main/java/primitivo/iterate/ObjectIterator.java:62-90 | null throws NullPointerException; a zero-length array gives `of()`; otherwise a new iterator producing the elements in order |

## Left out

- Reflection is not modelled: `Array.newInstance`, `Array.set`, the `Class` token, the rejection of `void` and the ClassCastException for an element of the wrong type. The element type is a type parameter, so a mismatch cannot occur.
- `resultLength` is a `nat`, so `int` overflow for more than 2^31 - 1 elements is not modelled.
- TypedArrays.TypedArray.OfIteratorHint: the iterator's elements are the primitive values. The IllegalArgumentException that `Array.set` raises when a boxed iterator yields null into a primitive array is not modelled.
- IteratorToArray.ArrayCopy: requires distinct source and destination arrays, which `System.arraycopy` does not. `joinInto` never copies an array into itself.
- The variable `arrayLength` of `of` is the current segment's `Length`, which is always equal to it.
- `FloatIterator` and `DoubleIterator` are not modelled: their distinctive parts are floating-point arithmetic. `float` and `double` array elements are only copied, so they are their bit patterns.
- The `Mutable*` boxes are not modelled: they are single-field getters and setters, unrelated to the arrays and iterators.
- The adapters' `remove()` delegates to the source iterator, whose code is not part of this model. It is left out; `remove` is modelled where the library itself decides what it does.
- The widening and null-substituting adapters take any source iterator, seen through its remaining elements (`Producer`). Composing an adapter with one of the library's own iterator classes is not modelled.
- `next()` and `nextInt()` (and their kin) are one method. The boxed result of `next()` is the primitive one, boxed, and is never null.
- `CharArray.of(CharSequence)` has a shortcut for `String` (`toCharArray`). It is modelled as the `charAt` loop, which gives the same characters. The character sequence is a value, so a sequence changing during the copy is not modelled.
- `EMPTY_OBJECTS` is an `Object[]` in Java. Here it has the type of `EMPTY_STRINGS`, since Dafny arrays are not covariant.
- The test that calls a three-argument `ObjectArray.of` is not modelled; no such overload exists in the source.
- The `package-info.java` files are documentation only.
- The shared `EMPTY` of each iterator type is the `Shared` case of a factory's result. Its behaviour is that of `Iterate.EmptyIterator`.
- IteratorToArray.Of: the copy count is a ghost counter that each `ArrayCopy` reports and its callers add up. The model does not exclude an array copy that is made without being counted.
