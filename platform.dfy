/** What the engine learns from reflection and the base class library, as data
    and oracles: the conversion operators declared on each type and what
    invoking them gives, the enum declarations, `System.Convert.ChangeType`,
    the `TryParse` family and `object.ToString()`. */
module Platform {
  import opened Types

  datatype OperatorKind = Implicit | Explicit

  /** A static `op_Implicit` / `op_Explicit` method declared on `declaringType`. */
  datatype OperatorDecl = OperatorDecl(kind: OperatorKind, declaringType: Type, returnType: Type, id: nat)

  datatype EnumMember = EnumMember(name: string, value: int)

  /** An enum type: its underlying integral type and its members, in declaration order. */
  datatype EnumDecl = EnumDecl(underlying: IntegralKind, members: seq<EnumMember>)

  /** The flags of `System.Globalization.NumberStyles`. */
  datatype NumberStyle =
    | AllowLeadingWhite
    | AllowTrailingWhite
    | AllowLeadingSign
    | AllowTrailingSign
    | AllowParentheses
    | AllowDecimalPoint
    | AllowThousands
    | AllowExponent
    | AllowCurrencySymbol
    | AllowHexSpecifier

  /** The flags of `System.Globalization.DateTimeStyles`. */
  datatype DateTimeStyle =
    | AllowLeadingWhite
    | AllowTrailingWhite
    | AllowInnerWhite
    | NoCurrentDateDefault
    | AdjustToUniversal
    | AssumeLocal
    | AssumeUniversal
    | RoundtripKind

  /** `DateTimeStyles.AllowWhiteSpaces` */
  const DateTimeStylesAllowWhiteSpaces: set<DateTimeStyle> :=
    {DateTimeStyle.AllowLeadingWhite, DateTimeStyle.AllowInnerWhite, DateTimeStyle.AllowTrailingWhite}

  /** `NumberStyles.Number` */
  const NumberStylesNumber: set<NumberStyle> :=
    {NumberStyle.AllowLeadingWhite, NumberStyle.AllowTrailingWhite, AllowLeadingSign, AllowTrailingSign, AllowDecimalPoint, AllowThousands}

  datatype Platform = Platform(
    /** every conversion operator, in the order `GetDeclaredMethods` lists them */
    operators: seq<OperatorDecl>,
    /** `MethodInfo.Invoke(null, new[] { value })` on an operator */
    invoke: (OperatorDecl, Value) -> Attempt<Value>,
    /** the enum declarations, by enum name */
    enums: map<string, EnumDecl>,
    /** `System.Convert.ChangeType(value, type, format)` */
    changeType: (Value, Type, FormatProvider) -> Attempt<Value>,
    /** `T.TryParse(input, style, format, out result)` for the numeric types */
    tryParseNumber: (Type, string, set<NumberStyle>, FormatProvider) -> Option<Value>,
    /** `DateTime.TryParse(input, format, styles, out result)` */
    tryParseDateTime: (string, FormatProvider, set<DateTimeStyle>) -> Option<Value>,
    /** `Guid.TryParse(input, out result)` */
    tryParseGuid: string -> Option<Value>,
    /** `object.ToString()` of a non-null value */
    render: Value -> string)

  /** The declaration of an enum type; an unknown name reads as an empty `int` enum. */
  function EnumDeclOf(p: Platform, enumName: string): EnumDecl {
    if enumName in p.enums then p.enums[enumName] else EnumDecl(Int32, [])
  }
}
