/** SpecializedConverterLocator: the first known converter registered for
    exactly the pair (from, to). */
module SpecializedConverterLocator {
  import opened Types
  import opened Sequences
  import opened SpecializedConverters

  /** The converter is registered for exactly this pair of types. */
  predicate Handles(c: Converter, from: Type, to: Type) {
    FromType(c) == from && ToType(c) == to
  }

  /** `GetSpecializedConverter(from, to, knownSpecializedConverters)`: `None` is a
      null result. A null argument gives null; otherwise the first converter whose
      `FromType` and `ToType` equal the two types, compared exactly. */
  function GetSpecializedConverter(from: Option<Type>, to: Option<Type>, known: Option<seq<Converter>>): (r: Option<Converter>)
    ensures from.None? || to.None? || known.None? ==> r.None?
    ensures r.Some? ==>
      exists i :: 0 <= i < |known.value| && known.value[i] == r.value && Handles(r.value, from.value, to.value)
        && forall j :: 0 <= j < i ==> !Handles(known.value[j], from.value, to.value)
    ensures from.Some? && to.Some? && known.Some? && r.None? ==>
      forall i :: 0 <= i < |known.value| ==> !Handles(known.value[i], from.value, to.value)
  {
    if from.Some? && to.Some? && known.Some? then
      match FirstMatch(known.value, (c: Converter) => Handles(c, from.value, to.value))
      case Some(i) => Some(known.value[i])
      case None => None
    else None
  }

  /** A converter listed after an equal one is never returned by position: the
      lookup answers with the first of the equal pair. */
  lemma {:induction false} LaterDuplicateIsShadowed(from: Type, to: Type, known: seq<Converter>, i: nat, j: nat)
    requires i < j < |known| && known[i] == known[j] && Handles(known[j], from, to)
    ensures GetSpecializedConverter(Some(from), Some(to), Some(known)) == Some(known[i])
    ensures FirstMatch(known, (c: Converter) => Handles(c, from, to)) != Some(j)
  {
    var first := FirstMatch(known, (c: Converter) => Handles(c, from, to));
    assert first.Some? && first.value <= i;
    HandlersOfAPairAreEqual(known[first.value], known[i], from, to);
  }

  /** `FromType` and `ToType` together determine the converter. */
  lemma HandlersOfAPairAreEqual(c: Converter, d: Converter, from: Type, to: Type)
    requires Handles(c, from, to) && Handles(d, from, to)
    ensures c == d
  {
  }
}
