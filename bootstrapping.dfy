/** The bootstrappers: the list of known specialized converters, filled on first
    use by the concrete bootstrapper's `DiscoverConverters`, and the default
    bootstrapper's nineteen registrations. */
module Bootstrapping {
  import opened Types
  import opened Sequences
  import opened InterNumericConverters
  import opened SpecializedConverters
  import opened SpecializedConverterLocator

  /** What `DefaultSpecializedConversionsBootstrapper.DiscoverConverters` registers,
      in order: twelve string-to-number converters (the `ulong` one twice), the
      three narrowing converters, then char, bool, `DateTime` and `Guid`. */
  function DefaultRegistrations(): (r: seq<Converter>)
    ensures |r| == 19
    ensures r[7] == r[8] == StringToNumber(IntegralType(UInt64))
    ensures forall i :: 0 <= i < |r| ==> !r[i].Generic?
  {
    [ StringToNumber(IntegralType(Byte)), StringToNumber(IntegralType(SByte)),
      StringToNumber(IntegralType(Int16)), StringToNumber(IntegralType(UInt16)),
      StringToNumber(IntegralType(Int32)), StringToNumber(IntegralType(UInt32)),
      StringToNumber(IntegralType(Int64)), StringToNumber(IntegralType(UInt64)),
      StringToNumber(IntegralType(UInt64)),
      StringToNumber(FloatType(Single)), StringToNumber(FloatType(Double)), StringToNumber(DecimalType),
      InterNumeric(DecimalToInt), InterNumeric(FloatToInt), InterNumeric(DoubleToInt),
      StringToChar, StringToBool, StringToDateTime, StringToGuid ]
  }

  /** A `SpecializedConversionsBootstrapper` together with the override of
      `DiscoverConverters` of its concrete class, given as the converters that
      override adds, in order. */
  class SpecializedConversionsBootstrapper {
    /** The converters the concrete `DiscoverConverters` adds, one
        `AddSpecializedConverter` call each, in order. */
    const registrations: seq<Converter>

    /** `discoveredSpecializedConverters` */
    var discovered: seq<Converter>

    /** The list is empty or holds exactly one run of the registrations. */
    predicate Valid()
      reads this
    {
      discovered == [] || discovered == registrations
    }

    /** A bootstrapper whose `DiscoverConverters` adds `registrations`. */
    constructor (registrations: seq<Converter>)
      ensures this.registrations == registrations && discovered == []
      ensures Valid()
    {
      this.registrations := registrations;
      discovered := [];
    }

    /** `new DefaultSpecializedConversionsBootstrapper()` */
    constructor Default()
      ensures registrations == DefaultRegistrations() && discovered == []
      ensures Valid()
    {
      registrations := DefaultRegistrations();
      discovered := [];
    }

    /** `AddSpecializedConverter<TConverter>()` */
    method AddSpecializedConverter(c: Converter)
      modifies this
      ensures discovered == old(discovered) + [c]
    {
      discovered := discovered + [c];
    }

    /** `DiscoverConverters()`: each registration added in turn. */
    method DiscoverConverters()
      modifies this
      ensures discovered == old(discovered) + registrations
    {
      var i := 0;
      while i < |registrations|
        invariant 0 <= i <= |registrations|
        invariant discovered == old(discovered) + registrations[..i]
      {
        AddSpecializedConverter(registrations[i]);
        i := i + 1;
      }
    }

    /** The `DiscoveredSpecializedConverters` getter: discovery runs when the list
        is empty, so a bootstrapper that registers something discovers once. */
    method DiscoveredSpecializedConverters() returns (r: seq<Converter>)
      requires Valid()
      modifies this
      ensures Valid()
      ensures discovered == registrations
      ensures old(discovered) != [] ==> discovered == old(discovered)
      ensures r == discovered
    {
      if |discovered| == 0 {
        DiscoverConverters();
      }

      return discovered;
    }
  }

  /** Every registered pair is found in the default list, and found as itself. */
  lemma {:induction false} DefaultLookupFindsEachRegistration(i: nat)
    requires i < |DefaultRegistrations()|
    ensures var c := DefaultRegistrations()[i];
      GetSpecializedConverter(Some(FromType(c)), Some(ToType(c)), Some(DefaultRegistrations())) == Some(c)
  {
    var r := DefaultRegistrations();
    var c := r[i];
    var found := GetSpecializedConverter(Some(FromType(c)), Some(ToType(c)), Some(r));
    assert Handles(r[i], FromType(c), ToType(c));
    assert found.Some?;
    HandlersOfAPairAreEqual(found.value, c, FromType(c), ToType(c));
  }

  /** The second `ulong` registration is never the one the lookup settles on. */
  lemma SecondUlongRegistrationIsShadowed()
    ensures FirstMatch(DefaultRegistrations(), (c: Converter) => Handles(c, StringType, IntegralType(UInt64))) != Some(8)
  {
    LaterDuplicateIsShadowed(StringType, IntegralType(UInt64), DefaultRegistrations(), 7, 8);
  }

  /** The only non-string sources in the default list are decimal, float and double,
      and each goes only to `int`: every other numeric pair falls to the generic converter. */
  lemma DefaultNumericPairs(from: Type, to: Type)
    requires from != StringType
    ensures GetSpecializedConverter(Some(from), Some(to), Some(DefaultRegistrations())).Some? <==>
      to == Int32Type && from in {DecimalType, FloatType(Single), FloatType(Double)}
  {
    var r := DefaultRegistrations();
    if to == Int32Type && from in {DecimalType, FloatType(Single), FloatType(Double)} {
      var i := if from == DecimalType then 12 else if from == FloatType(Single) then 13 else 14;
      assert Handles(r[i], from, to);
    }
  }

  /** Strings convert with a specialized converter to exactly the twelve number
      types, char, bool, `DateTime` and `Guid`. */
  lemma DefaultStringTargets(to: Type)
    ensures GetSpecializedConverter(Some(StringType), Some(to), Some(DefaultRegistrations())).Some? <==>
      to.IntegralType? || to.FloatType? || to.DecimalType? || to in {CharType, BoolType, DateTimeType, GuidType}
  {
    var found := GetSpecializedConverter(Some(StringType), Some(to), Some(DefaultRegistrations()));
    if found.Some? {
      StringSourcedTargets(found.value);
    } else if to.IntegralType? || to.FloatType? || to.DecimalType? || to in {CharType, BoolType, DateTimeType, GuidType} {
      DefaultStringTargetFound(to);
    }
  }

  /** Every converter registered from `string` goes to a number type, char, bool,
      `DateTime` or `Guid`. */
  lemma StringSourcedTargets(c: Converter)
    requires FromType(c) == StringType
    ensures var to := ToType(c);
      to.IntegralType? || to.FloatType? || to.DecimalType? || to in {CharType, BoolType, DateTimeType, GuidType}
  {
  }

  /** Each of those targets has a registration from `string` in the default list. */
  lemma DefaultStringTargetFound(to: Type)
    requires to.IntegralType? || to.FloatType? || to.DecimalType? || to in {CharType, BoolType, DateTimeType, GuidType}
    ensures GetSpecializedConverter(Some(StringType), Some(to), Some(DefaultRegistrations())).Some?
  {
    var r := DefaultRegistrations();
    var i :=
      match to
      case IntegralType(k) => (match k case Byte => 0 case SByte => 1 case Int16 => 2 case UInt16 => 3
                               case Int32 => 4 case UInt32 => 5 case Int64 => 6 case UInt64 => 7)
      case FloatType(k) => if k == Single then 9 else 10
      case DecimalType => 11
      case CharType => 15
      case BoolType => 16
      case DateTimeType => 17
      case GuidType => 18
      case _ => 0;
    assert Handles(r[i], StringType, to);
  }
}
