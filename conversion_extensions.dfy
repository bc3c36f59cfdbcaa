/** ConversionExtensions: the six `ConvertTo<TTarget>` overloads. Each calls
    `Converter.Convert` with `typeof(TTarget)`, a default (`default(TTarget)` when
    none is given), a format (the current culture when none is given) and an
    observer (none when none is given), then casts the result to `TTarget`. */
module ConversionExtensions {
  import opened Types
  import opened Platform
  import opened Observation
  import opened ConversionsHelper
  import opened Bootstrapping
  import SpecializedConverters
  import Converter

  /** The `(TTarget)` cast of the boxed result: null unboxes to a reference type
      or `Nullable<T>` and throws `NullReferenceException` for any other value type;
      a value casts when its type is assignable to the target, and otherwise
      throws `InvalidCastException`. */
  function CastTo(v: Value, t: Type): (r: Attempt<Value>)
    ensures r.Returned? ==> r.value == v
    ensures v == Null ==> (r.Returned? <==> !IsValueType(t) || t.NullableType?)
    ensures v != Null ==> (r.Returned? <==> IsAssignableFrom(t, TypeOf(v)))
    ensures r.Raised? ==> r.ex == NullReference || r.ex == InvalidCast
  {
    if v == Null then
      if IsValueType(t) && !t.NullableType? then Raised(NullReference) else Returned(Null)
    else if IsAssignableFrom(t, TypeOf(v)) then Returned(v)
    else Raised(InvalidCast)
  }

  /** What `ConvertTo<TTarget>` returns or throws, and which notifications it sends. */
  function ConvertToOutcome(p: Platform, value: Value, t: Type, defaultValue: Value, format: FormatProvider,
                            known: seq<SpecializedConverters.Converter>): (r: Step)
    ensures r.notes == Converter.ConvertOutcome(p, value, Some(t), defaultValue, format, known).notes
    ensures Converter.ConvertOutcome(p, value, Some(t), defaultValue, format, known).outcome.Raised? ==>
      r.outcome == Converter.ConvertOutcome(p, value, Some(t), defaultValue, format, known).outcome
    ensures r.outcome.Returned? ==> r.outcome == Converter.ConvertOutcome(p, value, Some(t), defaultValue, format, known).outcome
    ensures var s := Converter.ConvertOutcome(p, value, Some(t), defaultValue, format, known);
      s.outcome.Returned? ==> r.outcome == CastTo(s.outcome.value, t)
    ensures r.outcome.Returned? ==> r.outcome.value == Null || IsAssignableFrom(t, TypeOf(r.outcome.value))
    ensures r.outcome.Raised? && !Converter.ConvertOutcome(p, value, Some(t), defaultValue, format, known).outcome.Raised? ==>
      r.outcome.ex == NullReference || r.outcome.ex == InvalidCast
  {
    var s := Converter.ConvertOutcome(p, value, Some(t), defaultValue, format, known);
    if s.outcome.Raised? then s else Step(CastTo(s.outcome.value, t), s.notes)
  }

  /** A null, DBNull or blank input is answered with the caller's default,
      which, being a `TTarget` (null only for a reference type or `Nullable<T>`),
      passes the cast: one fallback notification, no exception. `default(TTarget)`
      is such a default. */
  lemma ShortCircuitReturnsTypedDefault(p: Platform, value: Value, t: Type, d: Value, format: FormatProvider,
                                        known: seq<SpecializedConverters.Converter>)
    requires Converter.IsShortCircuited(value)
    requires d == Null ==> !IsValueType(t) || t.NullableType?
    requires d != Null ==> !IsDBNull(d) && IsAssignableFrom(t, TypeOf(d))
    ensures ConvertToOutcome(p, value, t, d, format, known)
      == Step(Returned(d), [FallbackToDefault(value, t, d, format, ArgumentNull)])
  {
    assert Converter.EffectiveDefault(t, d) == d;
  }

  /** Whatever `Convert` returns that is already a `TTarget` passes the cast unchanged. */
  lemma TypedResultPassesTheCast(p: Platform, value: Value, t: Type, d: Value, format: FormatProvider,
                                 known: seq<SpecializedConverters.Converter>)
    requires var r := Converter.ConvertOutcome(p, value, Some(t), d, format, known);
      r.outcome.Returned? && r.outcome.value != Null && TypeOf(r.outcome.value) == t
    ensures ConvertToOutcome(p, value, t, d, format, known) == Converter.ConvertOutcome(p, value, Some(t), d, format, known)
  {
  }

  /** `value.ConvertTo<TTarget>()` */
  method ConvertTo(p: Platform, value: Value, t: Type, currentCulture: FormatProvider, settings: SpecializedConversionsBootstrapper?)
    returns (result: Attempt<Value>)
    requires settings != null ==> settings.Valid()
    modifies settings
    ensures result == ConvertToOutcome(p, value, t, GetDefaultValue(Some(t)), currentCulture, Converter.KnownConverters(settings)).outcome
  {
    var converted := Converter.Convert(p, value, Some(t), GetDefaultValue(Some(t)), currentCulture, null, settings);
    result := if converted.Raised? then converted else CastTo(converted.value, t);
  }

  /** `value.ConvertTo<TTarget>(conversionObserver)` */
  method ConvertToObserved(p: Platform, value: Value, t: Type, observer: Observer?, currentCulture: FormatProvider,
                           settings: SpecializedConversionsBootstrapper?)
    returns (result: Attempt<Value>)
    requires settings != null ==> settings.Valid()
    modifies observer, settings
    ensures result == ConvertToOutcome(p, value, t, GetDefaultValue(Some(t)), currentCulture, Converter.KnownConverters(settings)).outcome
    ensures observer != null ==>
      observer.notifications == old(observer.notifications) + ConvertToOutcome(p, value, t, GetDefaultValue(Some(t)), currentCulture, Converter.KnownConverters(settings)).notes
  {
    var converted := Converter.Convert(p, value, Some(t), GetDefaultValue(Some(t)), currentCulture, observer, settings);
    result := if converted.Raised? then converted else CastTo(converted.value, t);
  }

  /** `value.ConvertTo<TTarget>(format)` */
  method ConvertToWithFormat(p: Platform, value: Value, t: Type, format: FormatProvider, settings: SpecializedConversionsBootstrapper?)
    returns (result: Attempt<Value>)
    requires settings != null ==> settings.Valid()
    modifies settings
    ensures result == ConvertToOutcome(p, value, t, GetDefaultValue(Some(t)), format, Converter.KnownConverters(settings)).outcome
  {
    var converted := Converter.Convert(p, value, Some(t), GetDefaultValue(Some(t)), format, null, settings);
    result := if converted.Raised? then converted else CastTo(converted.value, t);
  }

  /** `value.ConvertTo<TTarget>(defaultValue, conversionObserver)` */
  method ConvertToWithDefaultObserved(p: Platform, value: Value, t: Type, defaultValue: Value, observer: Observer?,
                                      currentCulture: FormatProvider, settings: SpecializedConversionsBootstrapper?)
    returns (result: Attempt<Value>)
    requires settings != null ==> settings.Valid()
    modifies observer, settings
    ensures result == ConvertToOutcome(p, value, t, defaultValue, currentCulture, Converter.KnownConverters(settings)).outcome
    ensures observer != null ==>
      observer.notifications == old(observer.notifications) + ConvertToOutcome(p, value, t, defaultValue, currentCulture, Converter.KnownConverters(settings)).notes
  {
    var converted := Converter.Convert(p, value, Some(t), defaultValue, currentCulture, observer, settings);
    result := if converted.Raised? then converted else CastTo(converted.value, t);
  }

  /** `value.ConvertTo<TTarget>(defaultValue, format)` */
  method ConvertToWithDefaultAndFormat(p: Platform, value: Value, t: Type, defaultValue: Value, format: FormatProvider,
                                       settings: SpecializedConversionsBootstrapper?)
    returns (result: Attempt<Value>)
    requires settings != null ==> settings.Valid()
    modifies settings
    ensures result == ConvertToOutcome(p, value, t, defaultValue, format, Converter.KnownConverters(settings)).outcome
  {
    var converted := Converter.Convert(p, value, Some(t), defaultValue, format, null, settings);
    result := if converted.Raised? then converted else CastTo(converted.value, t);
  }

  /** `value.ConvertTo<TTarget>(defaultValue, format, conversionObserver)` */
  method ConvertToWithDefaultFormatObserved(p: Platform, value: Value, t: Type, defaultValue: Value, format: FormatProvider,
                                            observer: Observer?, settings: SpecializedConversionsBootstrapper?)
    returns (result: Attempt<Value>)
    requires settings != null ==> settings.Valid()
    modifies observer, settings
    ensures result == ConvertToOutcome(p, value, t, defaultValue, format, Converter.KnownConverters(settings)).outcome
    ensures observer != null ==>
      observer.notifications == old(observer.notifications) + ConvertToOutcome(p, value, t, defaultValue, format, Converter.KnownConverters(settings)).notes
  {
    var converted := Converter.Convert(p, value, Some(t), defaultValue, format, observer, settings);
    result := if converted.Raised? then converted else CastTo(converted.value, t);
  }
}
