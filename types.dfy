/** The runtime world the conversion engine works in: type tags standing for
    System.Type, boxed values standing for `object`, the exception kinds the
    engine raises or catches, format providers, and the text predicates
    (white space, ordinal case-insensitive equality) it relies on. */
module Types {

  datatype Option<+T> = None | Some(value: T)

  /** A computation that either returns a value or throws an exception of some kind. */
  datatype Attempt<+T> = Returned(value: T) | Raised(ex: ExceptionKind)

  /** Exception kinds, by .NET class. `ArgumentNull` and `ArgumentOutOfRange`
      derive from `Argument`; everything the engine does not name is `OtherException`. */
  datatype ExceptionKind =
    | InvalidCast
    | Format
    | Overflow
    | ArgumentNull
    | ArgumentOutOfRange
    | Argument
    | InvalidOperation
    | IndexOutOfRange
    | NullReference
    | TargetInvocation
    | OtherException(name: string)

  /** `IFormatProvider`: absent, or a culture known by its name. */
  datatype FormatProvider = NoFormat | Culture(cultureName: string)

  datatype IntegralKind = SByte | Byte | Int16 | UInt16 | Int32 | UInt32 | Int64 | UInt64
  datatype FloatKind = Single | Double

  /** Type tags. `ClassType` and `StructType` stand for every other reference and
      value type; their flag says whether the type is a constructed generic type. */
  datatype Type =
    | StringType
    | BoolType
    | CharType
    | IntegralType(ik: IntegralKind)
    | FloatType(fk: FloatKind)
    | DecimalType
    | DateTimeType
    | GuidType
    | EnumType(enumName: string)
    | NullableType(underlying: Type)
    | ObjectType
    | ClassType(className: string, classIsGeneric: bool)
    | StructType(structName: string, structIsGeneric: bool)

  const Int32Type: Type := IntegralType(Int32)

  /** System.DBNull, a sealed class. */
  const DBNullType: Type := ClassType("DBNull", false)

  /** Types whose instances carry no payload the engine inspects. */
  type OpaqueType = t: Type | t.DateTimeType? || t.GuidType? || t.ObjectType? || t.ClassType? || t.StructType?
    witness ObjectType

  /** IEEE-754 single and double values, without rounding: NaN, the two
      infinities, and finite values as exact reals. */
  datatype ExtReal = NaN | PosInf | NegInf | Finite(r: real)

  /** A boxed value (`object`). */
  datatype Value =
    | Null
    | Str(s: string)
    | Bool(b: bool)
    | Char(c: char)
    | Integral(ik: IntegralKind, n: int)
    | Float(fk: FloatKind, x: ExtReal)
    | Decimal(d: real)
    | EnumVal(enumName: string, n: int)
    | Obj(t: OpaqueType, payload: int)

  /** DBNull.Value */
  const DBNullValue: Value := Obj(DBNullType, 0)

  /** `value.GetType()`, defined on non-null values. */
  function TypeOf(v: Value): Type
    requires v != Null
  {
    match v
    case Str(_) => StringType
    case Bool(_) => BoolType
    case Char(_) => CharType
    case Integral(k, _) => IntegralType(k)
    case Float(k, _) => FloatType(k)
    case Decimal(_) => DecimalType
    case EnumVal(name, _) => EnumType(name)
    case Obj(t, _) => t
  }

  /** `Type.IsValueType`: structs, primitives, enums and `Nullable<T>`. */
  predicate IsValueType(t: Type) {
    !(t.StringType? || t.ObjectType? || t.ClassType?)
  }

  /** `Type.IsGenericType` */
  predicate IsGeneric(t: Type) {
    || t.NullableType?
    || (t.ClassType? && t.classIsGeneric)
    || (t.StructType? && t.structIsGeneric)
  }

  /** `to.IsAssignableFrom(from)` over this type universe: identity, anything to
      `object` (boxing included), and `T` to `Nullable<T>`. No user type hierarchy. */
  predicate IsAssignableFrom(to: Type, from: Type) {
    || to == from
    || to == ObjectType
    || (to.NullableType? && to.underlying == from)
  }

  function IntegralName(k: IntegralKind): string {
    match k
    case SByte => "SByte"
    case Byte => "Byte"
    case Int16 => "Int16"
    case UInt16 => "UInt16"
    case Int32 => "Int32"
    case UInt32 => "UInt32"
    case Int64 => "Int64"
    case UInt64 => "UInt64"
  }

  /** `Type.Name` */
  function TypeName(t: Type): string {
    match t
    case StringType => "String"
    case BoolType => "Boolean"
    case CharType => "Char"
    case IntegralType(k) => IntegralName(k)
    case FloatType(k) => if k == Single then "Single" else "Double"
    case DecimalType => "Decimal"
    case DateTimeType => "DateTime"
    case GuidType => "Guid"
    case EnumType(name) => name
    case NullableType(_) => "Nullable`1"
    case ObjectType => "Object"
    case ClassType(name, _) => name
    case StructType(name, _) => name
  }

  /** `Type.ToString()`: the namespace-qualified name. */
  function TypeFullName(t: Type): string {
    match t
    case NullableType(u) => "System.Nullable`1[" + TypeFullName(u) + "]"
    case EnumType(name) => name
    case ClassType(name, _) => if t == DBNullType then "System.DBNull" else name
    case StructType(name, _) => name
    case _ => "System." + TypeName(t)
  }

  /** `char.IsWhiteSpace`: the Unicode space, line and paragraph separators,
      the C0 controls TAB..CR, NEL and NO-BREAK SPACE. */
  predicate IsWhiteSpace(c: char) {
    || c == ' '
    || ('\t' <= c <= '\r')
    || c == '\U{0085}'
    || c == '\U{00A0}'
    || c == '\U{1680}'
    || ('\U{2000}' <= c <= '\U{200A}')
    || c == '\U{2028}'
    || c == '\U{2029}'
    || c == '\U{202F}'
    || c == '\U{205F}'
    || c == '\U{3000}'
  }

  /** `string.IsNullOrWhiteSpace` on a non-null string. */
  predicate IsBlank(s: string) {
    forall i :: 0 <= i < |s| ==> IsWhiteSpace(s[i])
  }

  /** Upper-case folding of the ASCII letters. */
  function FoldCase(c: char): char {
    if 'a' <= c <= 'z' then (c as int - 32) as char else c
  }

  /** `string.Equals(a, b, StringComparison.OrdinalIgnoreCase)` over ASCII folding. */
  predicate EqualsIgnoreCase(a: string, b: string) {
    |a| == |b| && forall i :: 0 <= i < |a| ==> FoldCase(a[i]) == FoldCase(b[i])
  }

  /** The string with every ASCII letter upper-cased. */
  function Folded(s: string): (r: string)
    ensures |r| == |s| && forall i :: 0 <= i < |s| ==> r[i] == FoldCase(s[i])
  {
    seq(|s|, i requires 0 <= i < |s| => FoldCase(s[i]))
  }

  /** Two strings are equal ignoring case exactly when their folded forms are equal. */
  lemma EqualsIgnoreCaseIsFoldedEquality(a: string, b: string)
    ensures EqualsIgnoreCase(a, b) <==> Folded(a) == Folded(b)
  {
    if Folded(a) == Folded(b) {
      forall i | 0 <= i < |a|
        ensures FoldCase(a[i]) == FoldCase(b[i])
      {
        assert Folded(a)[i] == Folded(b)[i];
      }
    }
    if EqualsIgnoreCase(a, b) {
      assert Folded(a) == Folded(b);
    }
  }

  /** `x < b` under IEEE comparison, for a finite bound `b` (false for NaN). */
  predicate Below(x: ExtReal, b: real) {
    match x
    case NaN => false
    case NegInf => true
    case PosInf => false
    case Finite(r) => r < b
  }

  /** `x > b` under IEEE comparison, for a finite bound `b` (false for NaN). */
  predicate Above(x: ExtReal, b: real) {
    match x
    case NaN => false
    case NegInf => false
    case PosInf => true
    case Finite(r) => r > b
  }
}
