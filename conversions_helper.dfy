/** ConversionsHelper: the predicates the dispatcher uses to short-circuit,
    the default value of a type, `Nullable<T>` detection, conversion-operator
    lookup and the conversion-error message. */
module ConversionsHelper {
  import opened Types
  import opened Platform
  import opened Sequences

  /** The zero instance `Activator.CreateInstance(t)` makes for a value type;
      for `Nullable<T>` that boxes to null. */
  function ZeroOf(t: Type): Value
    requires IsValueType(t)
  {
    match t
    case BoolType => Bool(false)
    case CharType => Char('\0')
    case IntegralType(k) => Integral(k, 0)
    case FloatType(k) => Float(k, Finite(0.0))
    case DecimalType => Decimal(0.0)
    case DateTimeType => Obj(DateTimeType, 0)
    case GuidType => Obj(GuidType, 0)
    case EnumType(name) => EnumVal(name, 0)
    case NullableType(_) => Null
    case StructType(_, _) => Obj(t, 0)
  }

  /** `GetDefaultValue(type)`: null for a null type or a reference type, the zero
      instance for a value type. */
  function GetDefaultValue(t: Option<Type>): (r: Value)
    ensures t.None? ==> r == Null
    ensures t.Some? && !IsValueType(t.value) ==> r == Null
    ensures t.Some? && t.value.NullableType? ==> r == Null
    ensures t.Some? && IsValueType(t.value) && !t.value.NullableType? ==> r != Null && TypeOf(r) == t.value
    ensures t.Some? && t.value.IntegralType? ==> r == Integral(t.value.ik, 0)
    ensures t.Some? && t.value.FloatType? ==> r == Float(t.value.fk, Finite(0.0))
    ensures t.Some? && t.value.DecimalType? ==> r == Decimal(0.0)
    ensures t.Some? && t.value.BoolType? ==> r == Bool(false)
    ensures t.Some? && t.value.CharType? ==> r == Char('\0')
    ensures t.Some? && t.value.EnumType? ==> r == EnumVal(t.value.enumName, 0)
  {
    if t.None? then Null
    else if IsValueType(t.value) then ZeroOf(t.value)
    else Null
  }

  /** `IsDBNull(instance)`: the runtime type's name is "DBNull", ignoring case. */
  function IsDBNull(v: Value): (r: bool)
    ensures v == DBNullValue ==> r
    ensures r ==> v.Obj? || v.EnumVal?
  {
    if v == Null then false
    else
      BuiltInNamesAreNotDBNull(TypeOf(v));
      EqualsIgnoreCase(TypeName(TypeOf(v)), "DBNull")
  }

  /** No primitive or system type is named "DBNull", in any casing. */
  lemma BuiltInNamesAreNotDBNull(t: Type)
    ensures !(t.EnumType? || t.ClassType? || t.StructType? || t.DateTimeType? || t.GuidType? || t.ObjectType?)
      ==> !EqualsIgnoreCase(TypeName(t), "DBNull")
  {
    var n := TypeName(t);
    if !(t.EnumType? || t.ClassType? || t.StructType? || t.DateTimeType? || t.GuidType? || t.ObjectType?) && |n| == 6 {
      assert FoldCase(n[0]) != 'D' || FoldCase(n[1]) != 'B';
    }
  }

  /** `IsStringEmptyOrWhitespace(value)`: an instance of exactly `string` whose
      characters are all white space. */
  function IsStringEmptyOrWhitespace(v: Value): (r: bool)
    ensures r ==> v.Str? && !IsDBNull(v)
    ensures v.Str? && |v.s| == 0 ==> r
    ensures v.Str? && IsBlank(v.s) ==> r
    ensures v.Str? && |v.s| > 0 && !IsWhiteSpace(v.s[0]) ==> !r
    ensures v.Str? && !IsBlank(v.s) ==> !r
  {
    v != Null && TypeOf(v) == StringType && IsBlank(v.s)
  }

  /** One character that is not white space, anywhere in the string, makes it non-blank. */
  lemma NonWhiteCharacterIsNotBlank(v: Value, i: int)
    requires v.Str? && 0 <= i < |v.s| && !IsWhiteSpace(v.s[i])
    ensures !IsStringEmptyOrWhitespace(v)
  {
  }

  /** `IsGenericType(typeInfo)` */
  function IsGenericType(t: Option<Type>): (r: bool)
    ensures r ==> t.Some?
    ensures t.Some? && t.value.NullableType? ==> r
  {
    t.Some? && IsGeneric(t.value)
  }

  /** `TryParseNullableType(type, out genericArgumentType)` as it is written:
      `Returned(Some(u))` is "true with u", `Returned(None)` is "false with null".
      The argument is read from the open definition `Nullable<>`, whose
      `GenericTypeArguments` is empty, so a nullable type throws. A non-generic
      type throws from `GetGenericTypeDefinition`. */
  function TryParseNullableTypeAsWritten(t: Option<Type>): (r: Attempt<Option<Type>>)
    ensures t.None? ==> r == Returned(None)
    ensures t.Some? && !IsGeneric(t.value) ==> r == Raised(InvalidOperation)
    ensures t.Some? && IsGeneric(t.value) && !t.value.NullableType? ==> r == Returned(None)
    ensures t.Some? && t.value.NullableType? ==> r == Raised(IndexOutOfRange)
    ensures r.Returned? ==> r.value.None?
  {
    if t.None? then Returned(None)
    else if !IsGeneric(t.value) then Raised(InvalidOperation)
    else if t.value.NullableType? then Raised(IndexOutOfRange)
    else Returned(None)
  }

  /** `TryParseNullableType` as evidently intended: the argument is read from
      the constructed type itself. A non-generic type still throws from
      `GetGenericTypeDefinition`. */
  function TryParseNullableType(t: Option<Type>): (r: Attempt<Option<Type>>)
    ensures t.None? ==> r == Returned(None)
    ensures t.Some? && !IsGeneric(t.value) ==> r == Raised(InvalidOperation)
    ensures IsGenericType(t) ==> r.Returned?
    ensures r.Returned? && r.value.Some? <==> t.Some? && t.value.NullableType?
    ensures r.Returned? && r.value.Some? ==> NullableType(r.value.value) == t.value
  {
    if t.None? then Returned(None)
    else if !IsGeneric(t.value) then Raised(InvalidOperation)
    else if t.value.NullableType? then Returned(Some(t.value.underlying))
    else Returned(None)
  }

  /** The two readings of `TryParseNullableType` part exactly on `Nullable<T>`:
      as written it throws `IndexOutOfRangeException`, as intended it yields `T`. */
  lemma NullableArgumentDiscrepancy(u: Type)
    ensures TryParseNullableTypeAsWritten(Some(NullableType(u))) == Raised(IndexOutOfRange)
    ensures TryParseNullableType(Some(NullableType(u))) == Returned(Some(u))
    ensures forall t: Type :: !t.NullableType? ==> TryParseNullableTypeAsWritten(Some(t)) == TryParseNullableType(Some(t))
  {
  }

  /** Operator `op` is an `op_Implicit` / `op_Explicit` declared on `from` returning exactly `to`. */
  predicate OperatorFits(op: OperatorDecl, kind: OperatorKind, from: Type, to: Type) {
    op.kind == kind && op.declaringType == from && op.returnType == to
  }

  /** The shared body of `HasImplicitConversionOperator` and
      `HasExplicitConversionOperator`: `Returned(Some(c))` is "true with castResult c",
      `Returned(None)` is "false with castResult null"; a throwing `Invoke` throws. */
  function FindConversionOperator(p: Platform, kind: OperatorKind, value: Value, toType: Option<Type>): (r: Attempt<Option<Value>>)
    ensures value == Null || toType.None? ==> r == Returned(None)
    ensures value != Null && toType.Some? ==>
      (r == Returned(None) <==> forall i :: 0 <= i < |p.operators| ==> !OperatorFits(p.operators[i], kind, TypeOf(value), toType.value))
    ensures value != Null && toType.Some? && r != Returned(None) ==>
      exists i :: 0 <= i < |p.operators| && OperatorFits(p.operators[i], kind, TypeOf(value), toType.value)
        && (forall j :: 0 <= j < i ==> !OperatorFits(p.operators[j], kind, TypeOf(value), toType.value))
        && r == (match p.invoke(p.operators[i], value) case Returned(c) => Returned(Some(c)) case Raised(e) => Raised(e))
  {
    if value == Null || toType.None? then Returned(None)
    else
      var from, to := TypeOf(value), toType.value;
      match FirstMatch(p.operators, op => OperatorFits(op, kind, from, to))
      case None => Returned(None)
      case Some(i) =>
        match p.invoke(p.operators[i], value)
        case Returned(c) => Returned(Some(c))
        case Raised(e) => Raised(e)
  }

  /** A found operator is one of the requested kind, declared on the value's type,
      and its invocation is the answer. */
  lemma FoundOperatorIsDeclared(p: Platform, kind: OperatorKind, value: Value, toType: Option<Type>)
    ensures var r := FindConversionOperator(p, kind, value, toType);
      r != Returned(None) ==>
        exists i :: 0 <= i < |p.operators| && p.operators[i].kind == kind && p.operators[i].declaringType == TypeOf(value)
          && (r.Returned? ==> p.invoke(p.operators[i], value) == Returned(r.value.value))
          && (r.Raised? ==> p.invoke(p.operators[i], value) == Raised(r.ex))
  {
    var r := FindConversionOperator(p, kind, value, toType);
    if r != Returned(None) {
      var i :| 0 <= i < |p.operators| && OperatorFits(p.operators[i], kind, TypeOf(value), toType.value)
        && r == (match p.invoke(p.operators[i], value) case Returned(c) => Returned(Some(c)) case Raised(e) => Raised(e));
      assert p.operators[i].kind == kind && p.operators[i].declaringType == TypeOf(value);
    }
  }

  /** `HasImplicitConversionOperator(value, toType, out castResult)` */
  function HasImplicitConversionOperator(p: Platform, value: Value, toType: Option<Type>): (r: Attempt<Option<Value>>)
    ensures value == Null || toType.None? ==> r == Returned(None)
    ensures value != Null && toType.Some? ==>
      (r == Returned(None) <==> forall i :: 0 <= i < |p.operators| ==> !OperatorFits(p.operators[i], Implicit, TypeOf(value), toType.value))
    ensures r != Returned(None) ==>
      exists i :: 0 <= i < |p.operators| && p.operators[i].kind == Implicit && p.operators[i].declaringType == TypeOf(value)
        && (r.Returned? ==> p.invoke(p.operators[i], value) == Returned(r.value.value))
        && (r.Raised? ==> p.invoke(p.operators[i], value) == Raised(r.ex))
  {
    FoundOperatorIsDeclared(p, Implicit, value, toType);
    FindConversionOperator(p, Implicit, value, toType)
  }

  /** `HasExplicitConversionOperator(value, toType, out castResult)` */
  function HasExplicitConversionOperator(p: Platform, value: Value, toType: Option<Type>): (r: Attempt<Option<Value>>)
    ensures value == Null || toType.None? ==> r == Returned(None)
    ensures value != Null && toType.Some? ==>
      (r == Returned(None) <==> forall i :: 0 <= i < |p.operators| ==> !OperatorFits(p.operators[i], Explicit, TypeOf(value), toType.value))
    ensures r != Returned(None) ==>
      exists i :: 0 <= i < |p.operators| && p.operators[i].kind == Explicit && p.operators[i].declaringType == TypeOf(value)
        && (r.Returned? ==> p.invoke(p.operators[i], value) == Returned(r.value.value))
        && (r.Raised? ==> p.invoke(p.operators[i], value) == Raised(r.ex))
  {
    FoundOperatorIsDeclared(p, Explicit, value, toType);
    FindConversionOperator(p, Explicit, value, toType)
  }

  /** How a value is shown in the message: "(null)", "[NULL]" for DBNull, else its `ToString()`. */
  function ValueString(p: Platform, v: Value): string {
    if v == Null then "(null)" else if IsDBNull(v) then "[NULL]" else p.render(v)
  }

  function ValueTypeName(v: Value): string {
    if v == Null then "(undefined type)" else TypeFullName(TypeOf(v))
  }

  function FormatProviderTypeName(format: FormatProvider): string {
    if format == NoFormat then "(undefined type)" else "System.Globalization.CultureInfo"
  }

  function CultureName(format: FormatProvider): string {
    if format == NoFormat then "" else format.cultureName
  }

  /** The seven arguments of the message template, as written: the default
      value's string fills both the value slot {3} and the type slot {4}. */
  function MessageArgumentsAsWritten(p: Platform, value: Value, defaultValue: Value, targetType: Option<Type>, format: FormatProvider): (a: seq<string>)
    ensures |a| == 7 && a[4] == a[3]
    ensures a[0] == ValueString(p, value) && a[1] == ValueTypeName(value) && a[6] == FormatProviderTypeName(format)
    ensures value == Null ==> a[0] == "(null)"
    ensures value != Null && IsDBNull(value) ==> a[0] == "[NULL]"
  {
    [ ValueString(p, value), ValueTypeName(value),
      if targetType.None? then "(undefined type)" else TypeFullName(targetType.value),
      ValueString(p, defaultValue), ValueString(p, defaultValue),
      CultureName(format), FormatProviderTypeName(format) ]
  }

  /** The seven arguments as evidently intended: slot {4} names the default value's type. */
  function MessageArguments(p: Platform, value: Value, defaultValue: Value, targetType: Option<Type>, format: FormatProvider): (a: seq<string>)
    ensures |a| == 7 && a[4] == ValueTypeName(defaultValue)
    ensures a[3] == ValueString(p, defaultValue)
    ensures forall i :: 0 <= i < 7 && i != 4 ==> a[i] == MessageArgumentsAsWritten(p, value, defaultValue, targetType, format)[i]
    ensures value == Null ==> a[0] == "(null)"
    ensures value != Null && IsDBNull(value) ==> a[0] == "[NULL]"
  {
    MessageArgumentsAsWritten(p, value, defaultValue, targetType, format)[4 := ValueTypeName(defaultValue)]
  }

  /** The message template filled with its seven arguments: it opens with the
      value and its type and closes with the format provider's type. */
  function FillTemplate(a: seq<string>): (m: string)
    requires |a| == 7
    ensures MessageHead(a[0], a[1]) <= m
    ensures var tail := MessageTail(a[6]); |tail| <= |m| && m[|m| - |tail|..] == tail
    ensures |m| == 145 + |a[0]| + |a[1]| + |a[2]| + |a[3]| + |a[4]| + |a[5]| + |a[6]|
  {
    var head := MessageHead(a[0], a[1]);
    var middle := " to type '" + a[2] + "' using default value '" + a[3] + "' (of type '" + a[4]
      + "') and format provider '" + a[5];
    var tail := MessageTail(a[6]);
    assert (head + middle + tail)[..|head|] == head;
    assert (head + middle + tail)[|head + middle|..] == tail;
    head + middle + tail
  }

  function MessageHead(value: string, valueType: string): string {
    "Error(s) occured while trying to convert value '" + value + "' (of type '" + valueType + "')"
  }

  function MessageTail(formatType: string): string {
    "' (of type '" + formatType + "')"
  }

  /** `FormatTypeConversionExceptionMesssage` as written: the message opens with
      the value and its type, and closes with the format provider's type. */
  function FormatTypeConversionExceptionMessageAsWritten(p: Platform, value: Value, defaultValue: Value, targetType: Option<Type>, format: FormatProvider): (m: string)
    ensures MessageHead(ValueString(p, value), ValueTypeName(value)) <= m
    ensures var tail := MessageTail(FormatProviderTypeName(format));
      |tail| <= |m| && m[|m| - |tail|..] == tail
  {
    FillTemplate(MessageArgumentsAsWritten(p, value, defaultValue, targetType, format))
  }

  /** `FormatTypeConversionExceptionMesssage` as evidently intended: the same
      opening and closing as the message as written. */
  function FormatTypeConversionExceptionMessage(p: Platform, value: Value, defaultValue: Value, targetType: Option<Type>, format: FormatProvider): (m: string)
    ensures MessageHead(ValueString(p, value), ValueTypeName(value)) <= m
    ensures var tail := MessageTail(FormatProviderTypeName(format));
      |tail| <= |m| && m[|m| - |tail|..] == tail
  {
    FillTemplate(MessageArguments(p, value, defaultValue, targetType, format))
  }

  /** With a default of -1 (rendered "-1"), the message as written reports the
      default's type as "-1"; the intended message reports "System.Int32". */
  lemma DefaultTypeSlotDiscrepancy(p: Platform, value: Value, targetType: Option<Type>, format: FormatProvider)
    requires p.render(Integral(Int32, -1)) == "-1"
    ensures MessageArgumentsAsWritten(p, value, Integral(Int32, -1), targetType, format)[4] == "-1"
    ensures MessageArguments(p, value, Integral(Int32, -1), targetType, format)[4] == "System.Int32"
  {
    assert !IsDBNull(Integral(Int32, -1));
  }

  /** The two messages differ only in slot {4}: their lengths differ by exactly
      the difference between the default's type name and its string. */
  lemma MessagesDifferInTheTypeSlot(p: Platform, value: Value, defaultValue: Value, targetType: Option<Type>, format: FormatProvider)
    ensures |FormatTypeConversionExceptionMessage(p, value, defaultValue, targetType, format)|
      - |FormatTypeConversionExceptionMessageAsWritten(p, value, defaultValue, targetType, format)|
      == |ValueTypeName(defaultValue)| - |ValueString(p, defaultValue)|
  {
    var w := MessageArgumentsAsWritten(p, value, defaultValue, targetType, format);
    var a := MessageArguments(p, value, defaultValue, targetType, format);
    assert a[0] == w[0] && a[1] == w[1] && a[2] == w[2] && a[3] == w[3] && a[5] == w[5] && a[6] == w[6];
  }
}
