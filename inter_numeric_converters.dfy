/** The numeric narrowing converters: decimal, float and double to int. The
    shared `ConvertValue` checks the range first, then casts, and falls back to
    the default with one notification when either step fails. */
module InterNumericConverters {
  import opened Types
  import opened Observation

  datatype NarrowingConverter = DecimalToInt | FloatToInt | DoubleToInt

  const IntMinValue: int := -0x8000_0000
  const IntMaxValue: int := 0x7FFF_FFFF

  const DecimalMaxValue: real := 79228162514264337593543950335.0
  const DecimalMinValue: real := -79228162514264337593543950335.0

  /** `TNumberFrom` */
  function SourceType(c: NarrowingConverter): Type {
    match c
    case DecimalToInt => DecimalType
    case FloatToInt => FloatType(Single)
    case DoubleToInt => FloatType(Double)
  }

  /** A value of the converter's source type (what the cast to `TNumberFrom` admits). */
  predicate IsOperandOf(c: NarrowingConverter, value: Value) {
    value != Null && TypeOf(value) == SourceType(c)
  }

  /** The operand as an extended real; a decimal is always finite. */
  function Operand(c: NarrowingConverter, value: Value): (x: ExtReal)
    requires IsOperandOf(c, value)
    ensures c == DecimalToInt ==> x.Finite?
  {
    if value.Decimal? then Finite(value.d) else value.x
  }

  /** Truncation toward zero, the rule of C#'s explicit numeric casts. */
  function Trunc(r: real): (n: int)
    ensures 0.0 <= r ==> 0 <= n && n as real <= r < n as real + 1.0
    ensures r < 0.0 ==> n <= 0 && n as real - 1.0 < r <= n as real
  {
    if r >= 0.0 then r.Floor else -((-r).Floor)
  }

  /** A finite value lies in the range of `int`. */
  predicate InIntRange(r: real) {
    IntMinValue as real <= r <= IntMaxValue as real
  }

  /** The result of `IsNumericOverflow(value, out minValue, out maxValue)`. */
  datatype OverflowCheck = OverflowCheck(overflows: bool, minValue: int, maxValue: int)

  /** `IsNumericOverflow`: the value compared, as the source type, with
      `int.MinValue` and `int.MaxValue`. Overflow holds for the infinities and for
      finite values outside the range, never for NaN (both comparisons are false). */
  function IsNumericOverflow(c: NarrowingConverter, x: ExtReal): (r: OverflowCheck)
    ensures r.minValue == IntMinValue && r.maxValue == IntMaxValue
    ensures r.overflows <==> x.PosInf? || x.NegInf? || (x.Finite? && !InIntRange(x.r))
    ensures x.NaN? ==> !r.overflows
  {
    OverflowCheck(Below(x, IntMinValue as real) || Above(x, IntMaxValue as real), IntMinValue, IntMaxValue)
  }

  /** `TryCastToNumber(value, out result)`: `None` is a failed cast. The decimal
      cast always succeeds; the float and double casts fail exactly on NaN. The
      caller has ruled out overflow, the one case where C# leaves the result of a
      cast unspecified. */
  function TryCastToNumber(c: NarrowingConverter, x: ExtReal): (r: Option<int>)
    requires c == DecimalToInt ==> x.Finite?
    requires !IsNumericOverflow(c, x).overflows
    ensures r.None? <==> x.NaN?
    ensures c == DecimalToInt ==> r.Some?
    ensures r.Some? ==> IntMinValue <= r.value <= IntMaxValue
    ensures r.Some? ==> r.value == Trunc(x.r)
  {
    if x.NaN? then None
    else
      var n := Trunc(x.r);
      Some(n)
  }

  /** What `ConvertValue` returns and which notifications it sends. */
  function NarrowingOutcome(c: NarrowingConverter, value: Value, defaultValue: Value, format: FormatProvider): (r: Step)
    requires IsOperandOf(c, value)
    ensures r.outcome.Returned? && |r.notes| <= 1
    ensures forall i :: 0 <= i < |r.notes| ==> r.notes[i].FallbackToDefault?
    ensures var x := Operand(c, value);
      x.Finite? && InIntRange(x.r) ==> r == Step(Returned(Integral(Int32, Trunc(x.r))), [])
    ensures var x := Operand(c, value);
      (x.PosInf? || x.NegInf? || (x.Finite? && !InIntRange(x.r))) ==>
        r == Step(Returned(defaultValue), [FallbackToDefault(value, Int32Type, defaultValue, format, Overflow)])
    ensures Operand(c, value).NaN? ==>
      r == Step(Returned(defaultValue), [FallbackToDefault(value, Int32Type, defaultValue, format, InvalidCast)])
  {
    var x := Operand(c, value);
    if IsNumericOverflow(c, x).overflows then
      Step(Returned(defaultValue), [FallbackToDefault(value, Int32Type, defaultValue, format, Overflow)])
    else match TryCastToNumber(c, x)
      case Some(n) => Step(Returned(Integral(Int32, n)), [])
      case None => Step(Returned(defaultValue), [FallbackToDefault(value, Int32Type, defaultValue, format, InvalidCast)])
  }

  /** `InterNumericConverters<TNumberFrom, TNumberTo>.ConvertValue` */
  method ConvertValue(c: NarrowingConverter, value: Value, defaultValue: Value, format: FormatProvider, observer: Observer?)
    returns (result: Value)
    requires IsOperandOf(c, value)
    modifies observer
    ensures result == NarrowingOutcome(c, value, defaultValue, format).outcome.value
    ensures observer != null ==>
      observer.notifications == old(observer.notifications) + NarrowingOutcome(c, value, defaultValue, format).notes
  {
    var x := Operand(c, value);
    var check := IsNumericOverflow(c, x);
    if check.overflows {
      if observer != null {
        observer.NotifyKnownFallbackToDefaultValue(value, Int32Type, defaultValue, format, Overflow);
      }
      return defaultValue;
    }

    var casted := TryCastToNumber(c, x);
    if casted.Some? {
      return Integral(Int32, casted.value);
    } else {
      if observer != null {
        observer.NotifyKnownFallbackToDefaultValue(value, Int32Type, defaultValue, format, InvalidCast);
      }
      return defaultValue;
    }
  }

  /** 3.0, 3.25, 3.5 and 3.65 all narrow to 3, from each source type. */
  lemma TruncatesTowardZero(c: NarrowingConverter, r: real, d: Value, format: FormatProvider)
    requires r in {3.0, 3.25, 3.5, 3.65}
    ensures var v := if c == DecimalToInt then Decimal(r) else Float(if c == FloatToInt then Single else Double, Finite(r));
      NarrowingOutcome(c, v, d, format) == Step(Returned(Integral(Int32, 3)), [])
  {
    assert Trunc(r) == 3;
  }

  /** Negative values truncate toward zero too: -3.65 narrows to -3, not -4. */
  lemma NegativeTruncatesTowardZero(c: NarrowingConverter, d: Value, format: FormatProvider)
    ensures var v := if c == DecimalToInt then Decimal(-3.65) else Float(if c == FloatToInt then Single else Double, Finite(-3.65));
      NarrowingOutcome(c, v, d, format) == Step(Returned(Integral(Int32, -3)), [])
  {
    assert Trunc(-3.65) == -3;
  }

  /** `decimal.MaxValue` and `decimal.MinValue` overflow `int`. */
  lemma DecimalExtremesOverflow(d: Value, format: FormatProvider)
    ensures NarrowingOutcome(DecimalToInt, Decimal(DecimalMaxValue), d, format)
      == Step(Returned(d), [FallbackToDefault(Decimal(DecimalMaxValue), Int32Type, d, format, Overflow)])
    ensures NarrowingOutcome(DecimalToInt, Decimal(DecimalMinValue), d, format)
      == Step(Returned(d), [FallbackToDefault(Decimal(DecimalMinValue), Int32Type, d, format, Overflow)])
  {
  }
}
