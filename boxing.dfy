/** Auto-boxing and auto-unboxing of whole arrays: the copy loops that
    `PrimitiveArray`, `ObjectArray` and the typed `*Array` classes share. */
module Boxing {
  import opened Java

  /** Every element boxed; a boxed primitive is never null. */
  function BoxEach<T>(values: seq<T>): (r: seq<Boxed<T>>)
    ensures |r| == |values|
    ensures forall i | 0 <= i < |values| :: r[i] == Box(values[i])
  {
    if values == [] then [] else BoxEach(values[..|values| - 1]) + [Box(values[|values| - 1])]
  }

  /** Unboxing every element, in order: the first null element throws
      NullPointerException. */
  function UnboxEach<T>(boxed: seq<Boxed<T>>): (r: Outcome<seq<T>>)
    ensures r.Throw? <==> Null in boxed
    ensures r.Throw? ==> r.exception == NullPointer
  {
    if boxed == [] then Return([])
    else
      match UnboxEach(boxed[..|boxed| - 1])
      case Throw(e) => Throw(e)
      case Return(init) =>
        match boxed[|boxed| - 1]
        case Null => Throw(NullPointer)
        case Box(v) => Return(init + [v])
  }

  /** Unboxing what was boxed gives back the values. */
  lemma {:induction false} UnboxEachBoxEach<T>(values: seq<T>)
    ensures UnboxEach(BoxEach(values)) == Return(values)
  {
    if values != [] {
      var init := values[..|values| - 1];
      assert BoxEach(values)[..|values| - 1] == BoxEach(init);
      UnboxEachBoxEach(init);
      assert init + [values[|values| - 1]] == values;
    }
  }

  /** Unboxing succeeds exactly on boxed values, and boxing its result gives
      back the input. */
  lemma {:induction false} BoxEachUnboxEach<T>(boxed: seq<Boxed<T>>)
    requires UnboxEach(boxed).Return?
    ensures BoxEach(UnboxEach(boxed).value) == boxed
  {
    if boxed != [] {
      var init := boxed[..|boxed| - 1];
      BoxEachUnboxEach(init);
      assert boxed == init + [boxed[|boxed| - 1]];
    }
  }

  /** The boxing copy loop (`result[i] = values[i]` into a fresh wrapper array). */
  method BoxAll<T>(values: array<T>) returns (result: array<Boxed<T>>)
    ensures fresh(result) && result[..] == BoxEach(values[..])
  {
    result := new Boxed<T>[values.Length];
    for i := 0 to values.Length
      invariant result[..i] == BoxEach(values[..i])
    {
      result[i] := Box(values[i]);
      assert values[..i + 1][..i] == values[..i];
    }
    assert values[..] == values[..values.Length];
  }

  /** The unboxing copy loop (`result[i] = boxed[i]` into a fresh primitive
      array): the first null element throws NullPointerException and the
      partly filled array is dropped. */
  method UnboxAll<T(0)>(boxed: array<Boxed<T>>) returns (r: Outcome<array<T>>)
    ensures r.Throw? <==> Null in boxed[..]
    ensures r.Throw? ==> r.exception == NullPointer
    ensures r.Return? ==> fresh(r.value) && Return(r.value[..]) == UnboxEach(boxed[..])
  {
    var result := new T[boxed.Length];
    for i := 0 to boxed.Length
      invariant UnboxEach(boxed[..i]) == Return(result[..i])
    {
      assert boxed[..i + 1][..i] == boxed[..i];
      match boxed[i]
      case Null =>
        assert Null in boxed[..];
        return Throw(NullPointer);
      case Box(v) =>
        ghost var done := result[..i];
        result[i] := v;
        assert result[..i + 1] == done + [v];
    }
    assert boxed[..] == boxed[..boxed.Length];
    assert result[..] == result[..result.Length];
    return Return(result);
  }
}
