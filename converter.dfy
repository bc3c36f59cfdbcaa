/** Converter.Convert: the entry point. A null target type throws; a value-type
    target gets a non-null default; a null, DBNull or blank-string value falls back
    to the default with one notification; otherwise the target is unwrapped from
    `Nullable<T>`, a specialized converter is looked up (the generic converter when
    none fits), and the recognised conversion exceptions it throws are reported
    and answered with the default while all others propagate. */
module Converter {
  import opened Types
  import opened Platform
  import opened Observation
  import opened ConversionsHelper
  import SpecializedConverters
  import opened SpecializedConverterLocator
  import opened Bootstrapping

  /** The exceptions the catch block swallows: `InvalidCastException`,
      `FormatException`, `OverflowException`, `ArgumentException` with its
      subclasses `ArgumentNullException` and `ArgumentOutOfRangeException`, and
      `InvalidOperationException`. */
  function IsRecognized(e: ExceptionKind): (r: bool)
    ensures e == InvalidCast || e == Format || e == Overflow || e == InvalidOperation ==> r
    ensures e == ArgumentNull || e == ArgumentOutOfRange || e == Argument ==> r
    ensures e == IndexOutOfRange || e == NullReference || e == TargetInvocation || e.OtherException? ==> !r
  {
    e in {InvalidCast, Format, Overflow, ArgumentNull, ArgumentOutOfRange, Argument, InvalidOperation}
  }

  /** The default after the value-type repair: a null or DBNull default for a
      value-type target becomes the target's default value. */
  function EffectiveDefault(targetType: Type, targetDefaultValue: Value): (r: Value)
    ensures IsValueType(targetType) && !targetType.NullableType? && (targetDefaultValue == Null || IsDBNull(targetDefaultValue)) ==>
      r != Null && TypeOf(r) == targetType
    ensures targetType.NullableType? && (targetDefaultValue == Null || IsDBNull(targetDefaultValue)) ==> r == Null
    ensures !IsValueType(targetType) || (targetDefaultValue != Null && !IsDBNull(targetDefaultValue)) ==> r == targetDefaultValue
  {
    if IsValueType(targetType) && (targetDefaultValue == Null || IsDBNull(targetDefaultValue)) then GetDefaultValue(Some(targetType))
    else targetDefaultValue
  }

  /** A null or DBNull default for a primitive or enum target becomes `default(T)`, the zero. */
  lemma MissingDefaultIsZero(targetType: Type, targetDefaultValue: Value)
    requires targetDefaultValue == Null || IsDBNull(targetDefaultValue)
    ensures var r := EffectiveDefault(targetType, targetDefaultValue);
      && (targetType.IntegralType? ==> r == Integral(targetType.ik, 0))
      && (targetType.FloatType? ==> r == Float(targetType.fk, Finite(0.0)))
      && (targetType.DecimalType? ==> r == Decimal(0.0))
      && (targetType.BoolType? ==> r == Bool(false))
      && (targetType.CharType? ==> r == Char('\0'))
      && (targetType.EnumType? ==> r == EnumVal(targetType.enumName, 0))
  {
  }

  /** The values answered with the default before any conversion is tried. */
  predicate IsShortCircuited(value: Value) {
    value == Null || IsDBNull(value) || IsStringEmptyOrWhitespace(value)
  }

  /** The catch block: a recognised exception is reported and the default is
      returned; any other is rethrown. */
  function Catch(e: ExceptionKind, value: Value, targetType: Type, defaultValue: Value, format: FormatProvider): (r: Step)
    ensures IsRecognized(e) <==> r.outcome.Returned?
    ensures IsRecognized(e) ==> r == Step(Returned(defaultValue), [CaughtException(value, targetType, defaultValue, format, e)])
    ensures !IsRecognized(e) ==> r == Step(Raised(e), [])
  {
    if IsRecognized(e) then Step(Returned(defaultValue), [CaughtException(value, targetType, defaultValue, format, e)])
    else Step(Raised(e), [])
  }

  /** The converter the lookup picks, or a new generic converter for the target. */
  function SelectConverter(value: Value, targetType: Type, known: seq<SpecializedConverters.Converter>): (c: SpecializedConverters.Converter)
    requires value != Null
    ensures c.Generic? ==> c.toType == targetType
    ensures c in known || c == SpecializedConverters.Generic(targetType)
    ensures SpecializedConverters.FromType(c) == TypeOf(value) || c.Generic?
    ensures SpecializedConverters.ToType(c) == targetType
  {
    match GetSpecializedConverter(Some(TypeOf(value)), Some(targetType), Some(known))
    case Some(c) => c
    case None => SpecializedConverters.Generic(targetType)
  }

  /** A converter the lookup finds for the value's type is the one selected. */
  lemma FoundConverterIsSelected(value: Value, targetType: Type, known: seq<SpecializedConverters.Converter>)
    requires value != Null
    requires GetSpecializedConverter(Some(TypeOf(value)), Some(targetType), Some(known)).Some?
    ensures var c := SelectConverter(value, targetType, known);
      c == GetSpecializedConverter(Some(TypeOf(value)), Some(targetType), Some(known)).value
      && Handles(c, TypeOf(value), targetType)
  {
  }

  /** What the try block ends with: the converted value or the exception thrown,
      the notifications sent on the way, and the target type as it then stands
      (unwrapped from `Nullable<T>` once the parse has run). */
  datatype TryResult = TryResult(outcome: Attempt<Value>, notes: seq<Notification>, targetType: Type)

  /** The try block, for a value that was not short-circuited; `nullableParse`
      is the `TryParseNullableType` in use. */
  function TryBlock(p: Platform, value: Value, targetType: Type, defaultValue: Value, format: FormatProvider,
                    known: seq<SpecializedConverters.Converter>, nullableParse: Option<Type> -> Attempt<Option<Type>>): (r: TryResult)
    requires value != Null
    ensures r.outcome.Raised? ==> r.notes == []
    ensures |r.notes| <= 1
    ensures forall i :: 0 <= i < |r.notes| ==> r.notes[i].FallbackToDefault?
  {
    match UnwrapTarget(targetType, nullableParse)
    case Raised(e) => TryResult(Raised(e), [], targetType)
    case Returned(t) =>
      var s := SpecializedConverters.ConvertOutcome(p, SelectConverter(value, t, known), value, defaultValue, format);
      TryResult(s.outcome, s.notes, t)
  }

  /** The first step of the try block: a generic target type is handed to
      `nullableParse`, and the target becomes the type argument when the parse
      answers true; the parse may also throw. */
  function UnwrapTarget(targetType: Type, nullableParse: Option<Type> -> Attempt<Option<Type>>): (r: Attempt<Type>)
    ensures !IsGenericType(Some(targetType)) ==> r == Returned(targetType)
    ensures r.Raised? <==> IsGenericType(Some(targetType)) && nullableParse(Some(targetType)).Raised?
  {
    var parsed := if IsGenericType(Some(targetType)) then nullableParse(Some(targetType)) else Returned(None);
    match parsed
    case Raised(e) => Raised(e)
    case Returned(u) => Returned(if u.Some? then u.value else targetType)
  }

  /** With the corrected parse, unwrapping never throws and strips exactly one
      `Nullable<T>`. */
  lemma UnwrapTargetStripsNullable(targetType: Type)
    ensures UnwrapTarget(targetType, TryParseNullableType)
      == Returned(if targetType.NullableType? then targetType.underlying else targetType)
  {
    if IsGenericType(Some(targetType)) {
      assert TryParseNullableType(Some(targetType)).Returned?;
    }
  }

  /** The try block followed by the catch block and the final return. */
  function ConvertWith(p: Platform, value: Value, targetType: Type, defaultValue: Value, format: FormatProvider,
                       known: seq<SpecializedConverters.Converter>, nullableParse: Option<Type> -> Attempt<Option<Type>>): (r: Step)
    requires value != Null
    ensures |r.notes| <= 1
    ensures r.outcome.Raised? ==> r.notes == [] && !IsRecognized(r.outcome.ex)
    ensures forall i :: 0 <= i < |r.notes| && r.notes[i].CaughtException? ==>
      r.outcome == Returned(defaultValue) && IsRecognized(r.notes[i].exception)
  {
    var tried := TryBlock(p, value, targetType, defaultValue, format, known, nullableParse);
    if tried.outcome.Raised? then
      var caught := Catch(tried.outcome.ex, value, tried.targetType, defaultValue, format);
      Step(caught.outcome, tried.notes + caught.notes)
    else Step(tried.outcome, tried.notes)
  }

  /** `Converter.Convert(value, targetType, targetDefaultValue, format, observer)`,
      with `TryParseNullableType` as evidently intended; `known` is the list the
      bootstrapper discovers. */
  function ConvertOutcome(p: Platform, value: Value, targetType: Option<Type>, targetDefaultValue: Value, format: FormatProvider,
                          known: seq<SpecializedConverters.Converter>): (r: Step)
    ensures targetType.None? ==> r == Step(Raised(ArgumentNull), [])
    ensures targetType.Some? && IsShortCircuited(value) ==>
      var d := EffectiveDefault(targetType.value, targetDefaultValue);
      r == Step(Returned(d), [FallbackToDefault(value, targetType.value, d, format, ArgumentNull)])
    ensures |r.notes| <= 1
    ensures r.outcome.Raised? ==> r.notes == [] && (targetType.None? || !IsRecognized(r.outcome.ex))
    ensures forall i :: 0 <= i < |r.notes| && r.notes[i].CaughtException? ==>
      r.outcome == Returned(EffectiveDefault(targetType.value, targetDefaultValue)) && IsRecognized(r.notes[i].exception)
  {
    if targetType.None? then Step(Raised(ArgumentNull), [])
    else
      var d := EffectiveDefault(targetType.value, targetDefaultValue);
      if IsShortCircuited(value) then Step(Returned(d), [FallbackToDefault(value, targetType.value, d, format, ArgumentNull)])
      else ConvertWith(p, value, targetType.value, d, format, known, TryParseNullableType)
  }

  /** `Converter.Convert` with `TryParseNullableType` as written. */
  function ConvertOutcomeAsWritten(p: Platform, value: Value, targetType: Option<Type>, targetDefaultValue: Value, format: FormatProvider,
                                   known: seq<SpecializedConverters.Converter>): (r: Step)
    ensures targetType.None? || IsShortCircuited(value) ==> r == ConvertOutcome(p, value, targetType, targetDefaultValue, format, known)
  {
    if targetType.None? then Step(Raised(ArgumentNull), [])
    else
      var d := EffectiveDefault(targetType.value, targetDefaultValue);
      if IsShortCircuited(value) then Step(Returned(d), [FallbackToDefault(value, targetType.value, d, format, ArgumentNull)])
      else ConvertWith(p, value, targetType.value, d, format, known, TryParseNullableTypeAsWritten)
  }

  /** As written, every conversion of a real value to `Nullable<T>` throws
      `IndexOutOfRangeException` out of `Convert`, since it is not a recognised
      exception (`NullableTargetUnwraps` gives the intended reading). */
  lemma NullableTargetAsWrittenThrows(p: Platform, value: Value, u: Type, d: Value, format: FormatProvider, known: seq<SpecializedConverters.Converter>)
    requires !IsShortCircuited(value)
    ensures ConvertOutcomeAsWritten(p, value, Some(NullableType(u)), d, format, known) == Step(Raised(IndexOutOfRange), [])
  {
  }

  /** On every target other than `Nullable<T>`, the program as written is the
      intended one, so every property of `ConvertOutcome` holds of it there. */
  lemma AsWrittenAgreesOffNullable(p: Platform, value: Value, t: Type, d: Value, format: FormatProvider,
                                   known: seq<SpecializedConverters.Converter>)
    requires !t.NullableType?
    ensures ConvertOutcomeAsWritten(p, value, Some(t), d, format, known) == ConvertOutcome(p, value, Some(t), d, format, known)
  {
    NullableArgumentDiscrepancy(t);
  }

  /** Converting to `Nullable<T>` is converting to `T`, once the default is a real value. */
  lemma NullableTargetUnwraps(p: Platform, value: Value, u: Type, d: Value, format: FormatProvider, known: seq<SpecializedConverters.Converter>)
    requires !u.NullableType? && d != Null && !IsDBNull(d)
    ensures ConvertOutcome(p, value, Some(NullableType(u)), d, format, known) == ConvertOutcome(p, value, Some(u), d, format, known)
      || IsShortCircuited(value)
  {
    if !IsShortCircuited(value) {
      assert EffectiveDefault(NullableType(u), d) == d == EffectiveDefault(u, d);
      SelectedConverterDecides(p, value, u, d, format, known);
      var tried := TryBlock(p, value, NullableType(u), d, format, known, TryParseNullableType);
      assert TryParseNullableType(Some(NullableType(u))) == Returned(Some(u));
      assert tried.targetType == u;
    }
  }

  /** For a target other than `Nullable<T>` and a value that is not short-circuited,
      the selected converter decides: what it returns is returned, and what it
      throws goes through the catch block. */
  lemma SelectedConverterDecides(p: Platform, value: Value, t: Type, d: Value, format: FormatProvider,
                                 known: seq<SpecializedConverters.Converter>)
    requires !IsShortCircuited(value) && !t.NullableType?
    ensures var e := EffectiveDefault(t, d);
      var s := SpecializedConverters.ConvertOutcome(p, SelectConverter(value, t, known), value, e, format);
      ConvertOutcome(p, value, Some(t), d, format, known)
        == if s.outcome.Raised? then Catch(s.outcome.ex, value, t, e, format) else s
  {
    assert IsGenericType(Some(t)) ==> TryParseNullableType(Some(t)) == Returned(None);
  }

  /** The converters a bootstrapper from the settings discovers; with none set,
      a new default bootstrapper is used. */
  function KnownConverters(settings: SpecializedConversionsBootstrapper?): seq<SpecializedConverters.Converter> {
    if settings == null then DefaultRegistrations() else settings.registrations
  }

  /** `Converter.Convert(value, targetType, targetDefaultValue, format, observer)`;
      `settings` is `Converter.Settings.SpecializedConversionsBootstrapper`. */
  method Convert(p: Platform, value: Value, targetType: Option<Type>, targetDefaultValue: Value, format: FormatProvider,
                 observer: Observer?, settings: SpecializedConversionsBootstrapper?)
    returns (result: Attempt<Value>)
    requires settings != null ==> settings.Valid()
    modifies observer, settings
    ensures result == ConvertOutcome(p, value, targetType, targetDefaultValue, format, KnownConverters(settings)).outcome
    ensures observer != null ==>
      observer.notifications == old(observer.notifications) + ConvertOutcome(p, value, targetType, targetDefaultValue, format, KnownConverters(settings)).notes
    ensures settings != null ==> settings.Valid()
    ensures settings != null && targetType.Some? && !IsShortCircuited(value) ==> settings.discovered == settings.registrations
    ensures settings != null && (targetType.None? || IsShortCircuited(value)) ==> settings.discovered == old(settings.discovered)
  {
    if targetType.None? {
      return Raised(ArgumentNull);
    }

    var defaultValue := targetDefaultValue;
    if IsValueType(targetType.value) && (defaultValue == Null || IsDBNull(defaultValue)) {
      defaultValue := GetDefaultValue(targetType);
    }
    assert defaultValue == EffectiveDefault(targetType.value, targetDefaultValue);

    if value == Null || IsDBNull(value) || IsStringEmptyOrWhitespace(value) {
      if observer != null {
        observer.NotifyKnownFallbackToDefaultValue(value, targetType.value, defaultValue, format, ArgumentNull);
      }

      return Returned(defaultValue);
    }

    assert ConvertOutcome(p, value, targetType, targetDefaultValue, format, KnownConverters(settings))
      == ConvertWith(p, value, targetType.value, defaultValue, format, KnownConverters(settings), TryParseNullableType);
    result := ConvertInTry(p, value, targetType.value, defaultValue, format, observer, settings);
  }

  /** Lines 82-172 of `Convert`: the try block, the catch block and the return. */
  method ConvertInTry(p: Platform, value: Value, targetType: Type, defaultValue: Value, format: FormatProvider,
                      observer: Observer?, settings: SpecializedConversionsBootstrapper?)
    returns (result: Attempt<Value>)
    requires value != Null
    requires settings != null ==> settings.Valid()
    modifies observer, settings
    ensures result == ConvertWith(p, value, targetType, defaultValue, format, KnownConverters(settings), TryParseNullableType).outcome
    ensures observer != null ==>
      observer.notifications == old(observer.notifications) + ConvertWith(p, value, targetType, defaultValue, format, KnownConverters(settings), TryParseNullableType).notes
    ensures settings != null ==> settings.Valid() && settings.discovered == settings.registrations
  {
    var attempt, t := Try(p, value, targetType, defaultValue, format, observer, settings);
    ghost var tried := TryBlock(p, value, targetType, defaultValue, format, KnownConverters(settings), TryParseNullableType);
    assert attempt == tried.outcome && t == tried.targetType;
    if attempt.Raised? {
      result := CatchBlock(attempt.ex, value, t, defaultValue, format, observer);
    } else {
      result := attempt;
    }
  }

  /** Lines 111-170 of `Convert`: the catch block. */
  method CatchBlock(ex: ExceptionKind, value: Value, targetType: Type, defaultValue: Value, format: FormatProvider, observer: Observer?)
    returns (result: Attempt<Value>)
    modifies observer
    ensures result == Catch(ex, value, targetType, defaultValue, format).outcome
    ensures observer != null ==>
      observer.notifications == old(observer.notifications) + Catch(ex, value, targetType, defaultValue, format).notes
  {
    if !IsRecognized(ex) {
      return Raised(ex);
    }

    if observer != null {
      observer.NotifyCaughtConversionException(value, targetType, defaultValue, format, ex);
    }

    return Returned(defaultValue);
  }

  /** Lines 84-110 of `Convert`: the try block. */
  method Try(p: Platform, value: Value, targetType: Type, defaultValue: Value, format: FormatProvider,
             observer: Observer?, settings: SpecializedConversionsBootstrapper?)
    returns (attempt: Attempt<Value>, t: Type)
    requires value != Null
    requires settings != null ==> settings.Valid()
    modifies observer, settings
    ensures var tried := TryBlock(p, value, targetType, defaultValue, format, KnownConverters(settings), TryParseNullableType);
      attempt == tried.outcome && t == tried.targetType
    ensures observer != null ==>
      observer.notifications == old(observer.notifications)
        + TryBlock(p, value, targetType, defaultValue, format, KnownConverters(settings), TryParseNullableType).notes
    ensures settings != null ==> settings.Valid() && settings.discovered == settings.registrations
  {
    UnwrapTargetStripsNullable(targetType);
    t := UnwrapTarget(targetType, TryParseNullableType).value;

    var known := DiscoverKnownConverters(settings);
    var converter := SelectConverter(value, t, known);
    attempt := SpecializedConverters.Convert(p, converter, value, defaultValue, format, observer);
  }

  /** Lines 97-103 of `Convert`: the bootstrapper from the settings, or a new
      default one, and its discovered converters. */
  method DiscoverKnownConverters(settings: SpecializedConversionsBootstrapper?) returns (known: seq<SpecializedConverters.Converter>)
    requires settings != null ==> settings.Valid()
    modifies settings
    ensures known == KnownConverters(settings)
    ensures settings != null ==> settings.Valid() && settings.discovered == settings.registrations
  {
    var bootstrapper := settings;
    if bootstrapper == null {
      bootstrapper := new SpecializedConversionsBootstrapper.Default();
    }

    known := bootstrapper.DiscoveredSpecializedConverters();
  }
}
