/** GenericConverter: the fallback converter for a target type no specialized
    converter handles. A value naming a defined member of a target enum is
    parsed; otherwise an implicit operator, then an explicit operator, then
    `System.Convert.ChangeType`. Exceptions from any of these propagate. */
module GenericConverter {
  import opened Types
  import opened Platform
  import opened Sequences
  import opened ConversionsHelper

  /** `n` is the value of some member of the enum. */
  predicate IsMemberValue(decl: EnumDecl, n: int) {
    exists i :: 0 <= i < |decl.members| && decl.members[i].value == n
  }

  /** Some member of the enum is named exactly `s`. */
  predicate IsMemberName(decl: EnumDecl, s: string) {
    exists i :: 0 <= i < |decl.members| && decl.members[i].name == s
  }

  /** `Enum.IsDefined(enumType, value)` for a non-null value: a string is matched
      against the member names, case-sensitively; a value of the same enum or of
      its underlying integral type against the member values. A value of another
      enum or another integral type (bool and char count as integral here) throws
      `ArgumentException`; any other value throws `InvalidOperationException`. */
  function EnumIsDefined(p: Platform, enumName: string, value: Value): (r: Attempt<bool>)
    requires value != Null
    ensures value.Str? ==> r == Returned(IsMemberName(EnumDeclOf(p, enumName), value.s))
    ensures r == Returned(true) && !value.Str? ==>
      (value.EnumVal? || value.Integral?) && IsMemberValue(EnumDeclOf(p, enumName), value.n)
    ensures (value.EnumVal? && value.enumName == enumName) || (value.Integral? && value.ik == EnumDeclOf(p, enumName).underlying) ==>
      r == Returned(IsMemberValue(EnumDeclOf(p, enumName), value.n))
    ensures r == Raised(Argument) <==>
      || value.Bool? || value.Char?
      || (value.EnumVal? && value.enumName != enumName)
      || (value.Integral? && value.ik != EnumDeclOf(p, enumName).underlying)
    ensures r == Raised(InvalidOperation) <==> value.Float? || value.Decimal? || value.Obj?
  {
    var decl := EnumDeclOf(p, enumName);
    match value
    case Str(s) => Returned(IsMemberName(decl, s))
    case EnumVal(name, n) => if name != enumName then Raised(Argument) else Returned(IsMemberValue(decl, n))
    case Integral(k, n) => if k != decl.underlying then Raised(Argument) else Returned(IsMemberValue(decl, n))
    case Bool(_) => Raised(Argument)
    case Char(_) => Raised(Argument)
    case _ => Raised(InvalidOperation)
  }

  /** The numeric value `Enum.Parse(enumType, value.ToString())` gives for a
      defined value: the value of the member so named, or the value itself. */
  function ParsedEnumValue(decl: EnumDecl, value: Value): (n: int)
    requires value.Str? ==> IsMemberName(decl, value.s)
    requires !value.Str? ==> (value.EnumVal? || value.Integral?) && IsMemberValue(decl, value.n)
    ensures IsMemberValue(decl, n)
    ensures value.Str? ==>
      exists i :: 0 <= i < |decl.members| && decl.members[i].name == value.s && decl.members[i].value == n
        && forall j :: 0 <= j < i ==> decl.members[j].name != value.s
    ensures !value.Str? ==> n == value.n
  {
    if value.Str? then
      match FirstMatch(decl.members, (m: EnumMember) => m.name == value.s)
      case Some(i) => decl.members[i].value
      case None => assert false; 0
    else value.n
  }

  /** The operator steps: an implicit operator from the value's type to
      `toType`, else an explicit one, else `ChangeType`. */
  function ConvertByOperators(p: Platform, toType: Type, value: Value, format: FormatProvider): (r: Attempt<Value>)
    requires value != Null
    ensures (forall i :: 0 <= i < |p.operators| ==> !OperatorFits(p.operators[i], Implicit, TypeOf(value), toType))
         && (forall i :: 0 <= i < |p.operators| ==> !OperatorFits(p.operators[i], Explicit, TypeOf(value), toType))
         ==> r == p.changeType(value, toType, format)
  {
    match HasImplicitConversionOperator(p, value, Some(toType))
    case Raised(e) => Raised(e)
    case Returned(Some(c)) => Returned(c)
    case Returned(None) =>
      match HasExplicitConversionOperator(p, value, Some(toType))
      case Raised(e) => Raised(e)
      case Returned(Some(c)) => Returned(c)
      case Returned(None) => p.changeType(value, toType, format)
  }

  /** `GenericConverter.ConvertValue(value, defaultValue, format, observer)` on a
      non-null value; it sends no notifications. */
  function ConvertValue(p: Platform, toType: Type, value: Value, defaultValue: Value, format: FormatProvider): (r: Attempt<Value>)
    requires value != Null
    ensures toType.EnumType? && EnumIsDefined(p, toType.enumName, value).Raised? ==>
      r == Raised(EnumIsDefined(p, toType.enumName, value).ex)
    ensures toType.EnumType? && EnumIsDefined(p, toType.enumName, value) == Returned(true) && !(value.Str? && IsBlank(value.s)) ==>
      r.Returned? && r.value.EnumVal? && r.value.enumName == toType.enumName
      && IsMemberValue(EnumDeclOf(p, toType.enumName), r.value.n)
    ensures toType.EnumType? && EnumIsDefined(p, toType.enumName, value) == Returned(true) && !value.Str? ==>
      r == Returned(EnumVal(toType.enumName, value.n))
    ensures toType.EnumType? && EnumIsDefined(p, toType.enumName, value) == Returned(true) && value.Str? && !IsBlank(value.s) ==>
      var members := EnumDeclOf(p, toType.enumName).members;
      exists i :: 0 <= i < |members| && members[i].name == value.s && r == Returned(EnumVal(toType.enumName, members[i].value))
        && forall j :: 0 <= j < i ==> members[j].name != value.s
    ensures toType.EnumType? && EnumIsDefined(p, toType.enumName, value) == Returned(true) && value.Str? && IsBlank(value.s) ==>
      r == Returned(defaultValue)
    ensures !toType.EnumType? || EnumIsDefined(p, toType.enumName, value) == Returned(false) ==>
      r == ConvertByOperators(p, toType, value, format)
  {
    var converted := defaultValue;
    if toType.EnumType? then
      match EnumIsDefined(p, toType.enumName, value)
      case Raised(e) => Raised(e)
      case Returned(true) =>
        // `value.ToString()` is blank only for a blank string
        if value.Str? && IsBlank(value.s) then Returned(converted)
        else Returned(EnumVal(toType.enumName, ParsedEnumValue(EnumDeclOf(p, toType.enumName), value)))
      case Returned(false) => ConvertByOperators(p, toType, value, format)
    else ConvertByOperators(p, toType, value, format)
  }

  /** `new GenericConverter(toType)`: a null target type throws `ArgumentNullException`. */
  function NewGenericConverter(toType: Option<Type>): (r: Attempt<Type>)
    ensures toType.None? <==> r == Raised(ArgumentNull)
    ensures toType.Some? ==> r == Returned(toType.value)
  {
    if toType.None? then Raised(ArgumentNull) else Returned(toType.value)
  }

  /** The first fitting implicit operator decides, whatever explicit operators
      or `ChangeType` would give. */
  lemma {:induction false} ImplicitOperatorWins(p: Platform, toType: Type, value: Value, d: Value, format: FormatProvider, i: nat)
    requires value != Null && !toType.EnumType?
    requires i < |p.operators| && OperatorFits(p.operators[i], Implicit, TypeOf(value), toType)
    requires forall j :: 0 <= j < i ==> !OperatorFits(p.operators[j], Implicit, TypeOf(value), toType)
    ensures ConvertValue(p, toType, value, d, format) == p.invoke(p.operators[i], value)
  {
    FirstFitIsUnique(p, Implicit, value, toType, i);
  }

  /** With no fitting implicit operator, the first fitting explicit operator decides. */
  lemma {:induction false} ExplicitOperatorSecond(p: Platform, toType: Type, value: Value, d: Value, format: FormatProvider, i: nat)
    requires value != Null && !toType.EnumType?
    requires forall j :: 0 <= j < |p.operators| ==> !OperatorFits(p.operators[j], Implicit, TypeOf(value), toType)
    requires i < |p.operators| && OperatorFits(p.operators[i], Explicit, TypeOf(value), toType)
    requires forall j :: 0 <= j < i ==> !OperatorFits(p.operators[j], Explicit, TypeOf(value), toType)
    ensures ConvertValue(p, toType, value, d, format) == p.invoke(p.operators[i], value)
  {
    FirstFitIsUnique(p, Explicit, value, toType, i);
  }

  /** When the operator lookup answers, it invokes the first fitting operator. */
  lemma {:induction false} FirstFitIsUnique(p: Platform, kind: OperatorKind, value: Value, toType: Type, i: nat)
    requires value != Null
    requires i < |p.operators| && OperatorFits(p.operators[i], kind, TypeOf(value), toType)
    requires forall j :: 0 <= j < i ==> !OperatorFits(p.operators[j], kind, TypeOf(value), toType)
    ensures FindConversionOperator(p, kind, value, Some(toType))
      == (match p.invoke(p.operators[i], value) case Returned(c) => Returned(Some(c)) case Raised(e) => Raised(e))
  {
    var r := FindConversionOperator(p, kind, value, Some(toType));
    assert r != Returned(None);
    var k :| 0 <= k < |p.operators| && OperatorFits(p.operators[k], kind, TypeOf(value), toType)
      && (forall j :: 0 <= j < k ==> !OperatorFits(p.operators[j], kind, TypeOf(value), toType))
      && r == (match p.invoke(p.operators[k], value) case Returned(c) => Returned(Some(c)) case Raised(e) => Raised(e));
    assert k == i;
  }

  /** A string naming a defined member of the target enum converts to that member,
      whatever operators are declared and whatever `ChangeType` does. */
  lemma DefinedEnumNameIgnoresOperators(p: Platform, q: Platform, enumName: string, s: string, d: Value, format: FormatProvider)
    requires p.enums == q.enums
    requires !IsBlank(s) && IsMemberName(EnumDeclOf(p, enumName), s)
    ensures ConvertValue(p, EnumType(enumName), Str(s), d, format) == ConvertValue(q, EnumType(enumName), Str(s), d, format)
    ensures var r := ConvertValue(p, EnumType(enumName), Str(s), d, format);
      var members := EnumDeclOf(p, enumName).members;
      exists i :: 0 <= i < |members| && members[i].name == s && r == Returned(EnumVal(enumName, members[i].value))
        && forall j :: 0 <= j < i ==> members[j].name != s
  {
  }

  /** An undefined name for an enum target is not an error here: it goes on to
      the operators and `ChangeType`. */
  lemma UndefinedEnumNameFallsThrough(p: Platform, enumName: string, s: string, d: Value, format: FormatProvider)
    requires !IsMemberName(EnumDeclOf(p, enumName), s)
    ensures ConvertValue(p, EnumType(enumName), Str(s), d, format) == ConvertByOperators(p, EnumType(enumName), Str(s), format)
  {
  }
}
