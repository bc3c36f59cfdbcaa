/** SpecializedConverter<TFrom, TTo>: the base every converter shares. `Convert`
    returns the default for a null or DBNull value and for a value that is not a
    `TFrom`, repairs a default that is not a `TTo`, and hands the rest to the
    converter's own `ConvertValue`. */
module SpecializedConverters {
  import opened Types
  import opened Platform
  import opened Observation
  import opened ConversionsHelper
  import opened InterNumericConverters
  import StringToBoolConverter
  import StringToCharConverter
  import StringToNumberConverter
  import StringToDateTimeConverter
  import StringToGuidConverter
  import GenericConverter

  /** The numeric types a `StringToNumberConverter<TNumber>` targets. */
  type NumberType = t: Type | t.IntegralType? || t.FloatType? || t.DecimalType? witness IntegralType(Int32)

  /** The converter classes; `Generic` carries its target type. */
  datatype Converter =
    | StringToNumber(numberType: NumberType)
    | StringToChar
    | StringToBool
    | StringToDateTime
    | StringToGuid
    | InterNumeric(narrowing: NarrowingConverter)
    | Generic(toType: Type)

  /** `typeof(TFrom)`: `GenericConverter` is a `SpecializedConverter<object, object>`. */
  function TFrom(c: Converter): Type {
    match c
    case InterNumeric(n) => SourceType(n)
    case Generic(_) => ObjectType
    case _ => StringType
  }

  /** `typeof(TTo)` */
  function TTo(c: Converter): Type {
    match c
    case StringToNumber(t) => t
    case StringToChar => CharType
    case StringToBool => BoolType
    case StringToDateTime => DateTimeType
    case StringToGuid => GuidType
    case InterNumeric(_) => Int32Type
    case Generic(_) => ObjectType
  }

  /** `FromType`: the type a converter is registered from. */
  function FromType(c: Converter): (r: Type)
    ensures c.Generic? <==> r == ObjectType
    ensures !c.Generic? && !c.InterNumeric? ==> r == StringType
    ensures c.InterNumeric? ==> r in {DecimalType, FloatType(Single), FloatType(Double)}
  {
    TFrom(c)
  }

  /** `ToType`: the type a converter is registered to; `GenericConverter`
      overrides it with its own target type, every other converter keeps `TTo`,
      always a value type other than `Nullable<T>`. */
  function ToType(c: Converter): (r: Type)
    ensures c.Generic? ==> r == c.toType
    ensures !c.Generic? ==> r == TTo(c) && IsValueType(r) && !r.NullableType?
  {
    if c.Generic? then c.toType else TTo(c)
  }

  /** The default handed to `ConvertValue`: a null default becomes `default(TTo)`,
      and a default whose type is not assignable to `TTo` is replaced by it. */
  function RepairDefault(c: Converter, defaultValue: Value): (r: Value)
    ensures r == defaultValue || r == GetDefaultValue(Some(TTo(c)))
    ensures r == Null || IsAssignableFrom(TTo(c), TypeOf(r))
    ensures defaultValue != Null && IsAssignableFrom(TTo(c), TypeOf(defaultValue)) ==> r == defaultValue
    ensures !c.Generic? ==> r != Null && TypeOf(r) == TTo(c)
    ensures c.Generic? ==> r == defaultValue
  {
    if defaultValue != Null && IsAssignableFrom(TTo(c), TypeOf(defaultValue)) then defaultValue
    else GetDefaultValue(Some(TTo(c)))
  }

  /** The type guard: the value is a `TFrom`. */
  predicate Admits(c: Converter, value: Value) {
    value != Null && IsAssignableFrom(TFrom(c), TypeOf(value))
  }

  /** What the converter's own `ConvertValue` does with an admitted value and a repaired default. */
  function ConvertValueOutcome(p: Platform, c: Converter, value: Value, defaultValue: Value, format: FormatProvider): (r: Step)
    requires Admits(c, value)
  {
    match c
    case StringToNumber(t) => StringToNumberConverter.NumberOutcome(p, t, value.s, defaultValue, format)
    case StringToChar => StringToCharConverter.CharOutcome(value.s, defaultValue, format)
    case StringToBool => StringToBoolConverter.BoolOutcome(value.s, defaultValue, format)
    case StringToDateTime =>
      StringToDateTimeConverter.DateTimeOutcome(p, value.s, defaultValue, format)
    case StringToGuid =>
      StringToGuidConverter.GuidOutcome(p, value.s, defaultValue, format)
    case InterNumeric(n) => NarrowingOutcome(n, value, defaultValue, format)
    case Generic(t) => Step(GenericConverter.ConvertValue(p, t, value, defaultValue, format), [])
  }

  /** The parsing oracles return values of the type they were asked for. */
  ghost predicate WellTypedParsers(p: Platform) {
    && (forall t, s, styles, f :: p.tryParseNumber(t, s, styles, f).Some? ==>
          p.tryParseNumber(t, s, styles, f).value != Null && TypeOf(p.tryParseNumber(t, s, styles, f).value) == t)
    && (forall s, f, styles :: p.tryParseDateTime(s, f, styles).Some? ==>
          p.tryParseDateTime(s, f, styles).value != Null && TypeOf(p.tryParseDateTime(s, f, styles).value) == DateTimeType)
    && (forall s :: p.tryParseGuid(s).Some? ==>
          p.tryParseGuid(s).value != Null && TypeOf(p.tryParseGuid(s).value) == GuidType)
  }

  /** What `SpecializedConverter<TFrom, TTo>.Convert` returns, or throws, and which
      notifications it sends. */
  function ConvertOutcome(p: Platform, c: Converter, value: Value, defaultValue: Value, format: FormatProvider): (r: Step)
    ensures value == Null || IsDBNull(value) || !Admits(c, value) ==> r == Step(Returned(defaultValue), [])
    ensures |r.notes| <= 1
    ensures r.outcome.Raised? ==> c.Generic? && r.notes == []
    ensures c.Generic? ==> r.notes == []
    ensures forall i :: 0 <= i < |r.notes| ==> r.notes[i].FallbackToDefault?
  {
    if value == Null || IsDBNull(value) || !Admits(c, value) then Step(Returned(defaultValue), [])
    else ConvertValueOutcome(p, c, value, RepairDefault(c, defaultValue), format)
  }

  /** A notification is always a fallback naming the value, the converter's
      target type, the repaired default and the format. */
  lemma NotificationsNameTheConversion(p: Platform, c: Converter, value: Value, defaultValue: Value, format: FormatProvider)
    ensures var r := ConvertOutcome(p, c, value, defaultValue, format);
      forall i :: 0 <= i < |r.notes| ==>
        r.notes[i].FallbackToDefault? && r.notes[i].value == value && r.notes[i].targetType == ToType(c)
        && r.notes[i].defaultValue == RepairDefault(c, defaultValue) && r.notes[i].format == format
  {
    if Admits(c, value) && !IsDBNull(value) {
      AdmittedValueReachesConvertValue(p, c, value, defaultValue, format);
      ConvertValueNotificationsNameTheConversion(p, c, value, RepairDefault(c, defaultValue), format);
    }
  }

  /** The converter's own `ConvertValue` names, in any fallback it reports, the
      value, its target type, the default it was given and the format. */
  lemma ConvertValueNotificationsNameTheConversion(p: Platform, c: Converter, value: Value, defaultValue: Value, format: FormatProvider)
    requires Admits(c, value)
    ensures var r := ConvertValueOutcome(p, c, value, defaultValue, format);
      forall i :: 0 <= i < |r.notes| ==>
        r.notes[i].FallbackToDefault? && r.notes[i].value == value && r.notes[i].targetType == ToType(c)
        && r.notes[i].defaultValue == defaultValue && r.notes[i].format == format
  {
    var r := ConvertValueOutcome(p, c, value, defaultValue, format);
    match c {
      case InterNumeric(n) =>
      case Generic(t) =>
      case _ =>
        assert value == Str(value.s);
        assert r.notes == [] || r.notes == [FallbackToDefault(value, ToType(c), defaultValue, format, r.notes[0].reason)];
    }
  }

  /** A specialized converter other than `GenericConverter` never throws and, given
      parsers that keep to their types, always returns a value of its target type. */
  lemma SpecializedResultHasTargetType(p: Platform, c: Converter, value: Value, defaultValue: Value, format: FormatProvider)
    requires !c.Generic? && WellTypedParsers(p) && Admits(c, value) && !IsDBNull(value)
    ensures var r := ConvertOutcome(p, c, value, defaultValue, format);
      r.outcome.Returned? && r.outcome.value != Null && TypeOf(r.outcome.value) == ToType(c)
  {
    AdmittedValueReachesConvertValue(p, c, value, defaultValue, format);
    ConvertValueHasTargetType(p, c, value, RepairDefault(c, defaultValue), format);
  }

  /** Given a default of its target type, a converter's own `ConvertValue` answers
      with a value of that type: a parsed or computed one, or the default. */
  lemma ConvertValueHasTargetType(p: Platform, c: Converter, value: Value, defaultValue: Value, format: FormatProvider)
    requires !c.Generic? && WellTypedParsers(p) && Admits(c, value)
    requires defaultValue != Null && TypeOf(defaultValue) == TTo(c)
    ensures var r := ConvertValueOutcome(p, c, value, defaultValue, format);
      r.outcome.Returned? && r.outcome.value != Null && TypeOf(r.outcome.value) == ToType(c)
  {
    match c {
      case StringToNumber(t) =>
      case StringToChar =>
      case StringToBool =>
      case StringToDateTime =>
      case StringToGuid =>
      case InterNumeric(n) =>
    }
  }

  /** `GenericConverter` passes every non-null, non-DBNull value and its default
      through untouched: its base class sees `object` on both sides. */
  lemma GenericAdmitsAllAndKeepsDefault(p: Platform, toType: Type, value: Value, defaultValue: Value, format: FormatProvider)
    requires value != Null && !IsDBNull(value)
    ensures ConvertOutcome(p, Generic(toType), value, defaultValue, format)
      == Step(GenericConverter.ConvertValue(p, toType, value, defaultValue, format), [])
  {
  }

  /** An admitted value that is not DBNull goes to the converter's own
      `ConvertValue` with the repaired default. */
  lemma AdmittedValueReachesConvertValue(p: Platform, c: Converter, value: Value, defaultValue: Value, format: FormatProvider)
    requires Admits(c, value) && !IsDBNull(value)
    ensures ConvertOutcome(p, c, value, defaultValue, format)
      == ConvertValueOutcome(p, c, value, RepairDefault(c, defaultValue), format)
  {
  }

  /** The converter's own `ConvertValue`, as a method that reports to the observer. */
  method ConvertValue(p: Platform, c: Converter, value: Value, defaultValue: Value, format: FormatProvider, observer: Observer?)
    returns (result: Attempt<Value>)
    requires Admits(c, value)
    modifies observer
    ensures result == ConvertValueOutcome(p, c, value, defaultValue, format).outcome
    ensures observer != null ==>
      observer.notifications == old(observer.notifications) + ConvertValueOutcome(p, c, value, defaultValue, format).notes
  {
    match c {
      case StringToNumber(t) =>
        var v := StringToNumberConverter.ConvertValue(p, t, value.s, defaultValue, format, observer);
        result := Returned(v);
      case StringToChar =>
        var v := StringToCharConverter.ConvertValue(value.s, defaultValue, format, observer);
        result := Returned(v);
      case StringToBool =>
        var v := StringToBoolConverter.ConvertValue(value.s, defaultValue, format, observer);
        result := Returned(v);
      case StringToDateTime =>
        var v := StringToDateTimeConverter.ConvertValue(p, value.s, defaultValue, format, observer);
        result := Returned(v);
      case StringToGuid =>
        var v := StringToGuidConverter.ConvertValue(p, value.s, defaultValue, format, observer);
        result := Returned(v);
      case InterNumeric(n) =>
        var v := InterNumericConverters.ConvertValue(n, value, defaultValue, format, observer);
        result := Returned(v);
      case Generic(t) =>
        result := GenericConverter.ConvertValue(p, t, value, defaultValue, format);
    }
  }

  /** The default-repair steps of `Convert`, on their own. */
  method RepairDefaultValue(c: Converter, defaultValue: Value) returns (targetDefault: Value)
    ensures targetDefault == RepairDefault(c, defaultValue)
  {
    var toType := TTo(c);
    targetDefault := defaultValue;
    var targetDefaultValueType := toType;
    if targetDefault == Null {
      if IsValueType(toType) {
        targetDefault := GetDefaultValue(Some(toType));
      }
    } else {
      targetDefaultValueType := TypeOf(targetDefault);
    }

    if targetDefaultValueType != toType && !IsAssignableFrom(toType, targetDefaultValueType) {
      targetDefaultValueType := toType;
      targetDefault := GetDefaultValue(Some(toType));
    }
  }

  /** `SpecializedConverter<TFrom, TTo>.Convert(value, defaultValue, format, observer)` */
  method Convert(p: Platform, c: Converter, value: Value, defaultValue: Value, format: FormatProvider, observer: Observer?)
    returns (result: Attempt<Value>)
    modifies observer
    ensures result == ConvertOutcome(p, c, value, defaultValue, format).outcome
    ensures observer != null ==>
      observer.notifications == old(observer.notifications) + ConvertOutcome(p, c, value, defaultValue, format).notes
  {
    if value == Null || IsDBNull(value) {
      return Returned(defaultValue);
    }

    var sourceValueType := TypeOf(value);
    if sourceValueType != TFrom(c) && !IsAssignableFrom(TFrom(c), sourceValueType) {
      return Returned(defaultValue);
    }

    var targetDefault := RepairDefaultValue(c, defaultValue);
    AdmittedValueReachesConvertValue(p, c, value, defaultValue, format);
    result := ConvertValue(p, c, value, targetDefault, format, observer);
  }
}
