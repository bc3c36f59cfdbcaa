/** Whole conversions through `Converter.Convert` with the default bootstrapper:
    which converter a value reaches, and what comes out. */
module Scenarios {
  import opened Types
  import opened Platform
  import opened Observation
  import opened ConversionsHelper
  import opened InterNumericConverters
  import SpecializedConverters
  import StringToNumberConverter
  import GenericConverter
  import opened SpecializedConverterLocator
  import opened Bootstrapping
  import opened Converter
  import ConversionExtensions

  /** A default registration is the converter chosen for its own pair of types. */
  lemma DefaultSelects(value: Value, i: nat)
    requires i < |DefaultRegistrations()| && value != Null
    requires SpecializedConverters.FromType(DefaultRegistrations()[i]) == TypeOf(value)
    ensures var c := DefaultRegistrations()[i];
      SelectConverter(value, SpecializedConverters.ToType(c), DefaultRegistrations()) == c
  {
    DefaultLookupFindsEachRegistration(i);
  }

  /** A converter registered from `string` is a specialized one that admits every string. */
  lemma StringHandlerAdmitsStrings(c: SpecializedConverters.Converter, s: string, t: Type)
    requires Handles(c, StringType, t)
    ensures !c.Generic? && SpecializedConverters.Admits(c, Str(s))
  {
  }

  /** Each default string target selects its registered string converter. */
  lemma StringTargetSelected(s: string, t: Type)
    requires t.IntegralType? || t.FloatType? || t.DecimalType? || t in {CharType, BoolType, DateTimeType, GuidType}
    ensures var c := SelectConverter(Str(s), t, DefaultRegistrations());
      && !c.Generic? && SpecializedConverters.Admits(c, Str(s))
      && (t == CharType ==> c == SpecializedConverters.StringToChar)
      && (t.IntegralType? || t.FloatType? || t.DecimalType? ==> c == SpecializedConverters.StringToNumber(t))
  {
    DefaultStringTargetFound(t);
    FoundConverterIsSelected(Str(s), t, DefaultRegistrations());
    var c := SelectConverter(Str(s), t, DefaultRegistrations());
    StringHandlerAdmitsStrings(c, s, t);
    if t == CharType {
      HandlersOfAPairAreEqual(c, SpecializedConverters.StringToChar, StringType, t);
    } else if t.IntegralType? || t.FloatType? || t.DecimalType? {
      HandlersOfAPairAreEqual(c, SpecializedConverters.StringToNumber(t), StringType, t);
    }
  }

  /** A string that is not blank converts to its first character, with no
      notification: the empty-string fallback of the char converter is never
      reached through `Convert`, and a blank string only ever gets the
      null-or-blank fallback. */
  lemma StringToCharTakesFirstCharacter(p: Platform, s: string, d: Value, format: FormatProvider)
    ensures var r := ConvertOutcome(p, Str(s), Some(CharType), d, format, DefaultRegistrations());
      && (!IsBlank(s) ==> r == Step(Returned(Char(s[0])), []))
      && (IsBlank(s) ==> r.notes == [FallbackToDefault(Str(s), CharType, EffectiveDefault(CharType, d), format, ArgumentNull)])
  {
    if !IsBlank(s) {
      assert !IsShortCircuited(Str(s));
      SelectedConverterDecides(p, Str(s), CharType, d, format, DefaultRegistrations());
      StringTargetSelected(s, CharType);
      SpecializedConverters.AdmittedValueReachesConvertValue(p, SpecializedConverters.StringToChar, Str(s), EffectiveDefault(CharType, d), format);
    }
  }

  /** A string that is not blank reaches the number converter for its target,
      with the default already made a value of that type. */
  lemma StringToNumberReachesParser(p: Platform, t: SpecializedConverters.NumberType, s: string, d: Value, format: FormatProvider)
    requires !IsBlank(s)
    ensures ConvertOutcome(p, Str(s), Some(t), d, format, DefaultRegistrations())
      == StringToNumberConverter.NumberOutcome(p, t, s,
           SpecializedConverters.RepairDefault(SpecializedConverters.StringToNumber(t), EffectiveDefault(t, d)), format)
  {
    assert !IsShortCircuited(Str(s));
    SelectedConverterDecides(p, Str(s), t, d, format, DefaultRegistrations());
    StringTargetSelected(s, t);
    SpecializedConverters.AdmittedValueReachesConvertValue(p, SpecializedConverters.StringToNumber(t), Str(s), EffectiveDefault(t, d), format);
  }

  /** With parsers that keep to their types, a string that is not blank converts
      to every default string target without throwing, to a value of that type. */
  lemma StringToDefaultTargetIsTyped(p: Platform, s: string, t: Type, d: Value, format: FormatProvider)
    requires SpecializedConverters.WellTypedParsers(p) && !IsBlank(s)
    requires t.IntegralType? || t.FloatType? || t.DecimalType? || t in {CharType, BoolType, DateTimeType, GuidType}
    ensures var r := ConvertOutcome(p, Str(s), Some(t), d, format, DefaultRegistrations());
      r.outcome.Returned? && r.outcome.value != Null && TypeOf(r.outcome.value) == t
  {
    assert !IsShortCircuited(Str(s));
    SelectedConverterDecides(p, Str(s), t, d, format, DefaultRegistrations());
    StringTargetSelected(s, t);
    var c := SelectConverter(Str(s), t, DefaultRegistrations());
    SpecializedConverters.SpecializedResultHasTargetType(p, c, Str(s), EffectiveDefault(t, d), format);
  }

  /** `ConvertTo<T>` of a string that is not blank, for every default string
      target `T`, returns a `T` and never throws. */
  lemma StringConvertToDefaultTargetSucceeds(p: Platform, s: string, t: Type, d: Value, format: FormatProvider)
    requires SpecializedConverters.WellTypedParsers(p) && !IsBlank(s)
    requires t.IntegralType? || t.FloatType? || t.DecimalType? || t in {CharType, BoolType, DateTimeType, GuidType}
    ensures var r := ConversionExtensions.ConvertToOutcome(p, Str(s), t, d, format, DefaultRegistrations());
      r.outcome.Returned? && r.outcome.value != Null && TypeOf(r.outcome.value) == t
  {
    StringToDefaultTargetIsTyped(p, s, t, d, format);
    ConversionExtensions.TypedResultPassesTheCast(p, Str(s), t, d, format, DefaultRegistrations());
  }

  /** A decimal, float or double value selects its narrowing converter for `int`. */
  lemma NarrowingSelected(c: NarrowingConverter, value: Value)
    requires IsOperandOf(c, value)
    ensures SelectConverter(value, Int32Type, DefaultRegistrations()) == SpecializedConverters.InterNumeric(c)
  {
    match c {
      case DecimalToInt => DefaultSelects(value, 12);
      case FloatToInt => DefaultSelects(value, 13);
      case DoubleToInt => DefaultSelects(value, 14);
    }
  }

  /** A decimal, float or double reaches its narrowing converter when the
      target is `int`. */
  lemma NarrowingReachesConverter(p: Platform, c: NarrowingConverter, value: Value, d: Value, format: FormatProvider)
    requires IsOperandOf(c, value)
    ensures ConvertOutcome(p, value, Some(Int32Type), d, format, DefaultRegistrations())
      == NarrowingOutcome(c, value,
           SpecializedConverters.RepairDefault(SpecializedConverters.InterNumeric(c), EffectiveDefault(Int32Type, d)), format)
  {
    assert !IsDBNull(value);
    assert !IsShortCircuited(value);
    SelectedConverterDecides(p, value, Int32Type, d, format, DefaultRegistrations());
    NarrowingSelected(c, value);
    SpecializedConverters.AdmittedValueReachesConvertValue(p, SpecializedConverters.InterNumeric(c), value, EffectiveDefault(Int32Type, d), format);
  }

  /** Null converted to `int` with a null default gives 0, `default(int)`, with one
      argument-null fallback carrying that zero. */
  lemma NullToIntGivesZero(p: Platform, format: FormatProvider)
    ensures ConvertOutcome(p, Null, Some(Int32Type), Null, format, DefaultRegistrations())
      == Step(Returned(Integral(Int32, 0)), [FallbackToDefault(Null, Int32Type, Integral(Int32, 0), format, ArgumentNull)])
  {
  }

  /** The double 3.65 converts to 3, with no notification. */
  lemma DoubleToIntTruncates(p: Platform, format: FormatProvider)
    ensures ConvertOutcome(p, Float(Double, Finite(3.65)), Some(Int32Type), Integral(Int32, -1), format, DefaultRegistrations())
      == Step(Returned(Integral(Int32, 3)), [])
  {
    var c := SpecializedConverters.InterNumeric(DoubleToInt);
    assert SpecializedConverters.RepairDefault(c, EffectiveDefault(Int32Type, Integral(Int32, -1))) == Integral(Int32, -1);
    NarrowingReachesConverter(p, DoubleToInt, Float(Double, Finite(3.65)), Integral(Int32, -1), format);
  }

  /** The double NaN converts to the default -1, with an invalid-cast fallback. */
  lemma DoubleNaNFallsBack(p: Platform, format: FormatProvider)
    ensures ConvertOutcome(p, Float(Double, NaN), Some(Int32Type), Integral(Int32, -1), format, DefaultRegistrations())
      == Step(Returned(Integral(Int32, -1)),
              [FallbackToDefault(Float(Double, NaN), Int32Type, Integral(Int32, -1), format, InvalidCast)])
  {
    var c := SpecializedConverters.InterNumeric(DoubleToInt);
    assert SpecializedConverters.RepairDefault(c, EffectiveDefault(Int32Type, Integral(Int32, -1))) == Integral(Int32, -1);
    NarrowingReachesConverter(p, DoubleToInt, Float(Double, NaN), Integral(Int32, -1), format);
  }

  /** A decimal, float or double goes to `int` through its narrowing converter,
      so `ChangeType` plays no part: two platforms that differ only in it agree. */
  lemma NarrowingIgnoresChangeType(p: Platform, q: Platform, c: NarrowingConverter, value: Value, d: Value, format: FormatProvider)
    requires IsOperandOf(c, value)
    requires q == p.(changeType := q.changeType)
    ensures ConvertOutcome(p, value, Some(Int32Type), d, format, DefaultRegistrations())
      == ConvertOutcome(q, value, Some(Int32Type), d, format, DefaultRegistrations())
  {
    NarrowingReachesConverter(p, c, value, d, format);
    NarrowingReachesConverter(q, c, value, d, format);
  }

  /** `ChangeType` rounds 3.65 to 4, and the generic path would answer 4; the
      double converter truncates, and `Convert` answers 3. */
  lemma DoubleToIntTruncatesWhereChangeTypeRounds(p: Platform, format: FormatProvider)
    requires p.operators == []
    requires p.changeType(Float(Double, Finite(3.65)), Int32Type, format) == Returned(Integral(Int32, 4))
    ensures SpecializedConverters.ConvertOutcome(p, SpecializedConverters.Generic(Int32Type), Float(Double, Finite(3.65)), Integral(Int32, -1), format)
      == Step(Returned(Integral(Int32, 4)), [])
    ensures ConvertOutcome(p, Float(Double, Finite(3.65)), Some(Int32Type), Integral(Int32, -1), format, DefaultRegistrations())
      == Step(Returned(Integral(Int32, 3)), [])
  {
    NoOperatorsMeansChangeType(p, Int32Type, Float(Double, Finite(3.65)), Integral(Int32, -1), format);
    DoubleToIntTruncates(p, format);
  }

  /** A value of any type other than string, decimal, float and double has no
      default specialized converter: it goes to a generic converter for the target. */
  lemma OtherSourcesSelectGeneric(value: Value, t: Type)
    requires value != Null && TypeOf(value) !in {StringType, DecimalType, FloatType(Single), FloatType(Double)}
    ensures SelectConverter(value, t, DefaultRegistrations()) == SpecializedConverters.Generic(t)
  {
    DefaultNumericPairs(TypeOf(value), t);
  }

  /** With no conversion operators at all, a generic conversion to a type other
      than an enum is `ChangeType`. */
  lemma NoOperatorsMeansChangeType(p: Platform, t: Type, value: Value, d: Value, format: FormatProvider)
    requires p.operators == [] && !t.EnumType? && value != Null && !IsDBNull(value)
    ensures SpecializedConverters.ConvertOutcome(p, SpecializedConverters.Generic(t), value, d, format)
      == Step(p.changeType(value, t, format), [])
  {
    SpecializedConverters.GenericAdmitsAllAndKeepsDefault(p, t, value, d, format);
  }

  /** A bool has no specialized converter to `int`: with no conversion operators
      it goes to `ChangeType`, whose recognised exceptions become the default
      with a caught-exception notification and whose others propagate. */
  lemma BoolToIntUsesChangeType(p: Platform, b: bool, d: Value, format: FormatProvider)
    requires p.operators == []
    ensures var ct := p.changeType(Bool(b), Int32Type, format);
      var e := EffectiveDefault(Int32Type, d);
      var r := ConvertOutcome(p, Bool(b), Some(Int32Type), d, format, DefaultRegistrations());
      && (ct.Returned? ==> r == Step(ct, []))
      && (ct.Raised? && IsRecognized(ct.ex) ==> r == Step(Returned(e), [CaughtException(Bool(b), Int32Type, e, format, ct.ex)]))
      && (ct.Raised? && !IsRecognized(ct.ex) ==> r == Step(ct, []))
  {
    assert !IsDBNull(Bool(b));
    assert !IsShortCircuited(Bool(b));
    SelectedConverterDecides(p, Bool(b), Int32Type, d, format, DefaultRegistrations());
    OtherSourcesSelectGeneric(Bool(b), Int32Type);
    NoOperatorsMeansChangeType(p, Int32Type, Bool(b), EffectiveDefault(Int32Type, d), format);
  }

  /** The generic conversion of such a class to `int` invokes the operator
      declared on it that returns `int`. */
  lemma DeclaredOperatorInvoked(p: Platform, kind: OperatorKind, name: string, n: int, d: Value, format: FormatProvider)
    requires p.operators == [OperatorDecl(kind, ClassType(name, false), Int32Type, 0),
                             OperatorDecl(kind, ClassType(name, false), ClassType(name, false), 1)]
    ensures GenericConverter.ConvertValue(p, Int32Type, Obj(ClassType(name, false), n), d, format)
      == p.invoke(p.operators[0], Obj(ClassType(name, false), n))
  {
    var value := Obj(ClassType(name, false), n);
    if kind == Implicit {
      GenericConverter.ImplicitOperatorWins(p, Int32Type, value, d, format, 0);
    } else {
      GenericConverter.ExplicitOperatorSecond(p, Int32Type, value, d, format, 0);
    }
  }

  /** A class declaring `implicit` (or `explicit`) operators to and from `int`
      converts to `int` through the one declared on it that returns `int`. */
  lemma ConversionOperatorToInt(p: Platform, kind: OperatorKind, name: string, n: int, d: Value, format: FormatProvider)
    requires !EqualsIgnoreCase(name, "DBNull")
    requires p.operators == [OperatorDecl(kind, ClassType(name, false), Int32Type, 0),
                             OperatorDecl(kind, ClassType(name, false), ClassType(name, false), 1)]
    requires p.invoke(p.operators[0], Obj(ClassType(name, false), n)) == Returned(Integral(Int32, n))
    ensures ConvertOutcome(p, Obj(ClassType(name, false), n), Some(Int32Type), d, format, DefaultRegistrations())
      == Step(Returned(Integral(Int32, n)), [])
  {
    var value := Obj(ClassType(name, false), n);
    var e := EffectiveDefault(Int32Type, d);
    assert !IsDBNull(value);
    assert !IsShortCircuited(value);
    SelectedConverterDecides(p, value, Int32Type, d, format, DefaultRegistrations());
    OtherSourcesSelectGeneric(value, Int32Type);
    SpecializedConverters.GenericAdmitsAllAndKeepsDefault(p, Int32Type, value, e, format);
    DeclaredOperatorInvoked(p, kind, name, n, e, format);
  }
}
