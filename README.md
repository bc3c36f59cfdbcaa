# Trencadis.Core.Conversions — a verified model of the conversion engine

Trencadis.Core.Conversions converts an untyped value (`object`) to a target type. It works in these steps:

- **Entry.** `Converter.Convert` throws for a null target type.
- **Default.** A null or DBNull default for a value-type target becomes that type's zero value.
- **Short-circuit.** A null, DBNull or blank-string value gets the default, and the observer is told why.
- **Lookup.** The target is unwrapped from `Nullable<T>`. The engine then looks up a *specialized converter* registered for exactly the pair (runtime type of the value, target type). Failing that, it builds a `GenericConverter` for the target.
- **Specialized converter.** It guards the value's type and repairs the default before running its own `ConvertValue`. Each converter is one of:
  - the string-to-number, string-to-char, string-to-bool, string-to-`DateTime` and string-to-`Guid` converters;
  - the decimal/float/double-to-`int` narrowing converters;
  - the generic converter, which tries an enum parse, then an implicit operator, then an explicit operator, then `System.Convert.ChangeType`.
- **Exceptions.** `Convert` reports a recognised conversion exception, then answers with the default. Every other exception propagates.
- **Registry.** The default bootstrapper fills the converter list on first use, in a fixed order of nineteen registrations.
- **`ConvertTo<T>`.** Its six overloads call `Convert` with `typeof(T)`. The default is `default(T)` when none is given, the format is the current culture when none is given, and the observer is none when none is given. The result is then cast to `T`.

The model follows the form of the source, file by file:

- **Dispatcher, specialized-converter base and bootstrapper.** These are Dafny methods, and the observer and the bootstrapper are classes whose fields the methods update.
  - Each method is proved equal to a pure specification function: an `...Outcome` function that gives the result (a value, or the exception thrown) and the notifications sent.
  - With an observer, the observer's list grows by exactly those notifications.
  - Without one, the result is the same.
- **Generic converter, helpers, narrowing rules, locator and `ConvertTo` outcomes.** These are functions.
- **Properties.** They are stated as contracts and lemmas. The lemmas in `Scenarios` run whole conversions through the dispatcher with the default registrations.

**The platform.** Reflection and the base class library are a `Platform` value of oracles:

- the conversion operators declared on each type, and what invoking one gives;
- the enum declarations;
- `ChangeType`;
- the numeric, date and GUID `TryParse` functions;
- `object.ToString()`.

**`TryParseNullableType` on a non-generic type.** The helper still throws `InvalidOperationException` there, although its documentation promises false. `Convert` never reaches that case: it calls the helper only after the `IsGenericType` guard at Converter.cs:87-88, which `Converter.UnwrapTarget` states.

**Values.** Float and double values are extended reals: NaN, the two infinities, or an exact finite real. Types are tags, and exceptions are kinds.

Files (all modules at top level):

| file | module | models |
|---|---|---|
| types.dfy | `Types` | type tags, boxed values, exception kinds, white space and case folding |
| platform.dfy | `Platform` | operator table, enum table, BCL oracles |
| observer.dfy | `Observation` | `IConversionObserver` as a recording class |
| sequences.dfy | `Sequences` | first match in a sequence (`FirstOrDefault`) |
| conversions_helper.dfy | `ConversionsHelper` | `Helpers/ConversionsHelper.cs` |
| inter_numeric_converters.dfy | `InterNumericConverters` | the narrowing base and its three subclasses |
| string_converters.dfy | `StringToBoolConverter`, `StringToCharConverter`, `StringParsing`, `StringToNumberConverter`, `StringToDateTimeConverter`, `StringToGuidConverter` | the string converters, and the parse-or-fall-back shape the parsing ones share |
| generic_converter.dfy | `GenericConverter` | `GenericConverter.cs` |
| specialized_converter.dfy | `SpecializedConverters` | `SpecializedConverter<TFrom, TTo>` and the set of converter classes |
| locator.dfy | `SpecializedConverterLocator` | `SpecializedConverterLocator.cs` |
| bootstrapping.dfy | `Bootstrapping` | both bootstrappers |
| converter.dfy | `Converter` | `Converter.Convert` |
| conversion_extensions.dfy | `ConversionExtensions` | the six `ConvertTo<T>` overloads |
| scenarios.dfy | `Scenarios` | end-to-end conversions with the default registrations |

## Model

| member | source | states |
|---|---|---|
| Observation.Observer.NotifyKnownFallbackToDefaultValue | Trencadis.Core.Conversions/Trencadis.Core.Conversions.Tests/Helpers/ConversionObservers/SimpleConversionObserver.cs:36-40 | exactly one fallback notification, with its reason, is appended and nothing else changes |
| Observation.Observer.NotifyCaughtConversionException | Trencadis.Core.Conversions/Trencadis.Core.Conversions.Tests/Helpers/ConversionObservers/SimpleConversionObserver.cs:42-46 | exactly one caught-exception notification is appended and nothing else changes |
| Sequences.FirstMatch | Trencadis.Core.Conversions/Trencadis.Core.Conversions/Infrastructure/SpecializedConverterLocator.cs:31 | the position returned matches and no earlier element does; no position means no element matches |
| ConversionsHelper.GetDefaultValue | Trencadis.Core.Conversions/Trencadis.Core.Conversions/Helpers/ConversionsHelper.cs:27-45 | null for a null type, a reference type or `Nullable<T>`; for any other value type a non-null value of exactly that type, and the zero for the primitives and enums: 0 for integral types, 0.0 for float, double and decimal, false, '\0', and the enum value 0 |
| ConversionsHelper.IsDBNull | Trencadis.Core.Conversions/Trencadis.Core.Conversions/Helpers/ConversionsHelper.cs:147-157 | false for null; `DBNull.Value` is DBNull; only a value of a user-named type can have a type name equal to "DBNull" ignoring case |
| ConversionsHelper.BuiltInNamesAreNotDBNull | Trencadis.Core.Conversions/Trencadis.Core.Conversions/Helpers/ConversionsHelper.cs:147-157 | no primitive or string type's name equals "DBNull" ignoring case |
| ConversionsHelper.IsStringEmptyOrWhitespace | Trencadis.Core.Conversions/Trencadis.Core.Conversions/Helpers/ConversionsHelper.cs:159-174 | true only for a string, never for DBNull; true for every string made only of white space, the empty one included; false for every string with a character that is not white space |
| ConversionsHelper.NonWhiteCharacterIsNotBlank | Trencadis.Core.Conversions/Trencadis.Core.Conversions/Helpers/ConversionsHelper.cs:159-174 | a character that is not white space at any position makes the string not blank |
| ConversionsHelper.IsGenericType | Trencadis.Core.Conversions/Trencadis.Core.Conversions/Helpers/ConversionsHelper.cs:106-114 | false for a null type; true for every `Nullable<T>` |
| ConversionsHelper.TryParseNullableTypeAsWritten | Trencadis.Core.Conversions/Trencadis.Core.Conversions/Helpers/ConversionsHelper.cs:122-139 | as written: false with null for a null type and for a generic type other than `Nullable<T>`; a non-generic type throws `InvalidOperationException` (line 130); a `Nullable<T>` throws `IndexOutOfRangeException` (line 135 reads the argument of the open definition) |
| ConversionsHelper.TryParseNullableType | Trencadis.Core.Conversions/Trencadis.Core.Conversions/Helpers/ConversionsHelper.cs:122-139 | as intended: a non-generic type still throws `InvalidOperationException`; a generic type never throws; yields an argument exactly for `Nullable<T>`, and that argument is `T` |
| ConversionsHelper.NullableArgumentDiscrepancy | Trencadis.Core.Conversions/Trencadis.Core.Conversions/Helpers/ConversionsHelper.cs:135 | for every `Nullable<T>` the as-written parse throws where the intended one yields `T`; on all other types the two agree |
| ConversionsHelper.FindConversionOperator | Trencadis.Core.Conversions/Trencadis.Core.Conversions/Helpers/ConversionsHelper.cs:47-99 | no operator for a null value or type; "none" exactly when no operator of the kind declared on the value's type returns exactly the target type; otherwise the first such operator's invocation (result or exception) |
| ConversionsHelper.FoundOperatorIsDeclared | Trencadis.Core.Conversions/Trencadis.Core.Conversions/Helpers/ConversionsHelper.cs:74-99 | a found operator is of the requested kind, declared on the value's type, and its invocation gives the result or the exception |
| ConversionsHelper.HasImplicitConversionOperator | Trencadis.Core.Conversions/Trencadis.Core.Conversions/Helpers/ConversionsHelper.cs:47-72 | false for a null value or type; false exactly when no `op_Implicit` on the value's type returns the target; otherwise the result or exception of invoking an `op_Implicit` declared on the value's type |
| ConversionsHelper.HasExplicitConversionOperator | Trencadis.Core.Conversions/Trencadis.Core.Conversions/Helpers/ConversionsHelper.cs:74-99 | false for a null value or type; false exactly when no `op_Explicit` on the value's type returns the target; otherwise the result or exception of invoking an `op_Explicit` declared on the value's type |
| ConversionsHelper.MessageArgumentsAsWritten | Trencadis.Core.Conversions/Trencadis.Core.Conversions/Helpers/ConversionsHelper.cs:184-206 | as written: seven message arguments, the type slot repeats the default's string; a null value renders "(null)" and DBNull "[NULL]" |
| ConversionsHelper.MessageArguments | Trencadis.Core.Conversions/Trencadis.Core.Conversions/Helpers/ConversionsHelper.cs:184-206 | as intended: the default-value slot holds the default's string and the type slot its type name |
| ConversionsHelper.DefaultTypeSlotDiscrepancy | Trencadis.Core.Conversions/Trencadis.Core.Conversions/Helpers/ConversionsHelper.cs:202-203 | for an `int` default of -1 the as-written type slot reads "-1" where "System.Int32" is intended |
| ConversionsHelper.FillTemplate | Trencadis.Core.Conversions/Trencadis.Core.Conversions/Helpers/ConversionsHelper.cs:197-205 | the filled template opens with the value and its type, closes with the format provider's type, and is 145 characters longer than its seven arguments together |
| ConversionsHelper.FormatTypeConversionExceptionMessageAsWritten | Trencadis.Core.Conversions/Trencadis.Core.Conversions/Helpers/ConversionsHelper.cs:184-206 | as written, the message opens with the value's string and type and closes with the format provider's type |
| ConversionsHelper.FormatTypeConversionExceptionMessage | Trencadis.Core.Conversions/Trencadis.Core.Conversions/Helpers/ConversionsHelper.cs:184-206 | as intended, the same opening and closing |
| ConversionsHelper.MessagesDifferInTheTypeSlot | Trencadis.Core.Conversions/Trencadis.Core.Conversions/Helpers/ConversionsHelper.cs:189-203 | for every input, the two messages differ in length by exactly the default's type name against its string: slot {4} is the only difference |
| InterNumericConverters.Operand | Trencadis.Core.Conversions/Trencadis.Core.Conversions/SpecializedConversions/InterNumericConverters/InterNumericConverters.decimal-to-int.cs:15-29 | a decimal operand is always finite |
| InterNumericConverters.Trunc | Trencadis.Core.Conversions/Trencadis.Core.Conversions/SpecializedConversions/InterNumericConverters/InterNumericConverters.double-to-int.cs:32 | truncation toward zero: the integer is within one of the real, on the zero side |
| InterNumericConverters.IsNumericOverflow | Trencadis.Core.Conversions/Trencadis.Core.Conversions/SpecializedConversions/InterNumericConverters/InterNumericConverters.double-to-int.cs:15-21 | bounds are `int.MinValue`/`int.MaxValue`; overflow exactly for the infinities and finite values outside them; NaN does not overflow |
| InterNumericConverters.TryCastToNumber | Trencadis.Core.Conversions/Trencadis.Core.Conversions/SpecializedConversions/InterNumericConverters/InterNumericConverters.float-to-int.cs:24-34 | fails exactly for NaN; the decimal cast always succeeds; a success is the truncation and lies in the `int` range |
| InterNumericConverters.NarrowingOutcome | Trencadis.Core.Conversions/Trencadis.Core.Conversions/SpecializedConversions/InterNumericConverters/InterNumericConverters.base.cs:41-90 | always returns, with at most one notification and never a caught-exception one; in range gives the truncation silently; out of range or infinite gives the default with an overflow fallback; NaN gives the default with an invalid-cast fallback |
| InterNumericConverters.ConvertValue | Trencadis.Core.Conversions/Trencadis.Core.Conversions/SpecializedConversions/InterNumericConverters/InterNumericConverters.base.cs:41-90 | the method returns what `NarrowingOutcome` gives, and sends its notifications to the observer when there is one |
| InterNumericConverters.TruncatesTowardZero | Trencadis.Core.Conversions/Trencadis.Core.Conversions.Tests/ConverterTests.to-int.cs:415-458 | 3.0, 3.25, 3.5 and 3.65 give 3 from decimal, float and double |
| InterNumericConverters.NegativeTruncatesTowardZero | Trencadis.Core.Conversions/Trencadis.Core.Conversions/SpecializedConversions/InterNumericConverters/InterNumericConverters.double-to-int.cs:32 | -3.65 gives -3 from each source type |
| InterNumericConverters.DecimalExtremesOverflow | Trencadis.Core.Conversions/Trencadis.Core.Conversions.Tests/ConverterTests.to-int.cs:556-579 | `decimal.MaxValue` and `decimal.MinValue` give the default with an overflow fallback |
| StringToBoolConverter.TrueishAndFalseishAreDisjoint | Trencadis.Core.Conversions/Trencadis.Core.Conversions/SpecializedConversions/StringConverters/StringToBoolConverter.cs:24-58 | no string is both true-ish and false-ish, so testing true-ish first changes nothing |
| StringToBoolConverter.MatchIgnoresCase | Trencadis.Core.Conversions/Trencadis.Core.Conversions/SpecializedConversions/StringConverters/StringToBoolConverter.cs:24-45 | any casing of "true", "1", "y", "yes" is true-ish, and of "false", "0", "n", "no" false-ish |
| StringToBoolConverter.IsTrueishValue | Trencadis.Core.Conversions/Trencadis.Core.Conversions/SpecializedConversions/StringConverters/StringToBoolConverter.cs:17-30 | true exactly when the string, upper-cased letter by letter, is "TRUE", "1", "Y" or "YES"; so "tom" or "yea" is not true-ish, and every casing of the four words is |
| StringToBoolConverter.IsFalseishValue | Trencadis.Core.Conversions/Trencadis.Core.Conversions/SpecializedConversions/StringConverters/StringToBoolConverter.cs:32-45 | true exactly when the string, upper-cased letter by letter, is "FALSE", "0", "N" or "NO"; so "fun" or "nil" is not false-ish, and every casing of the four words is |
| StringToBoolConverter.BoolOutcome | Trencadis.Core.Conversions/Trencadis.Core.Conversions/SpecializedConversions/StringConverters/StringToBoolConverter.cs:48-75 | true-ish gives true and false-ish gives false, silently; any string whose upper-cased form is none of the eight words gives the default with one format fallback |
| StringToBoolConverter.NoTrimming | Trencadis.Core.Conversions/Trencadis.Core.Conversions/SpecializedConversions/StringConverters/StringToBoolConverter.cs:48-75 | " true" and "true " are not trimmed: they fall back with a format reason |
| StringToBoolConverter.ConvertValue | Trencadis.Core.Conversions/Trencadis.Core.Conversions/SpecializedConversions/StringConverters/StringToBoolConverter.cs:48-75 | the method returns what `BoolOutcome` gives and reports its notifications |
| StringToCharConverter.CharOutcome | Trencadis.Core.Conversions/Trencadis.Core.Conversions/SpecializedConversions/StringConverters/StringToCharConverter.cs:29-53 | a non-empty string gives its first character silently; the empty string gives the default with an argument (not format) fallback |
| StringToCharConverter.GetCharArray | Trencadis.Core.Conversions/Trencadis.Core.Conversions/SpecializedConversions/StringConverters/StringToCharConverter.cs:23-26 | the string's characters, all of them, in order |
| StringToCharConverter.LeadingWhiteSpaceIsKept | Trencadis.Core.Conversions/Trencadis.Core.Conversions/SpecializedConversions/StringConverters/StringToCharConverter.cs:23-26 | " x" gives ' ': the string is not trimmed |
| StringToCharConverter.ConvertValue | Trencadis.Core.Conversions/Trencadis.Core.Conversions/SpecializedConversions/StringConverters/StringToCharConverter.cs:29-53 | the method returns what `CharOutcome` gives and reports its notifications |
| StringToNumberConverter.GetParseNumberStyles | Trencadis.Core.Conversions/Trencadis.Core.Conversions/SpecializedConversions/StringConverters/StringToNumberConverter.base.cs:30-40 | exactly leading/trailing white, leading/trailing sign, decimal point, thousands and parentheses; no exponent, currency or hex |
| StringParsing.ParseOutcome | Trencadis.Core.Conversions/Trencadis.Core.Conversions/SpecializedConversions/StringConverters/StringToNumberConverter.base.cs:53-76 | always returns; silent exactly when the parse succeeds, and then returns the parsed value; a failed parse gives the default with one format fallback |
| StringToNumberConverter.NumberOutcome | Trencadis.Core.Conversions/Trencadis.Core.Conversions/SpecializedConversions/StringConverters/StringToNumberConverter.base.cs:53-76 | the parse is asked with those styles and the caller's format; its value is returned silently, and a failed parse gives the default with one format fallback |
| StringToNumberConverter.ConvertValue | Trencadis.Core.Conversions/Trencadis.Core.Conversions/SpecializedConversions/StringConverters/StringToNumberConverter.base.cs:53-76 | the method returns what `NumberOutcome` gives and reports its notifications |
| StringToDateTimeConverter.GetParseDateTimeStyles | Trencadis.Core.Conversions/Trencadis.Core.Conversions/SpecializedConversions/StringConverters/StringToDateTimeConverter.cs:22-29 | exactly leading, inner and trailing white space and local time; no universal-time or round-trip styles |
| StringToDateTimeConverter.DateTimeOutcome | Trencadis.Core.Conversions/Trencadis.Core.Conversions/SpecializedConversions/StringConverters/StringToDateTimeConverter.cs:39-67 | the date-time parse is asked with those styles and the caller's format; its value is returned silently, and a failed parse gives the default with one format fallback naming `DateTime` |
| StringToDateTimeConverter.ConvertValue | Trencadis.Core.Conversions/Trencadis.Core.Conversions/SpecializedConversions/StringConverters/StringToDateTimeConverter.cs:45-67 | the method returns what `DateTimeOutcome` gives and reports its notifications |
| StringToGuidConverter.GuidOutcome | Trencadis.Core.Conversions/Trencadis.Core.Conversions/SpecializedConversions/StringConverters/StringToGuidConverter.cs:18-40 | the GUID parse's value is returned silently, and a failed parse gives the default with one format fallback naming `Guid` |
| StringToGuidConverter.ConvertValue | Trencadis.Core.Conversions/Trencadis.Core.Conversions/SpecializedConversions/StringConverters/StringToGuidConverter.cs:18-40 | the method returns what `GuidOutcome` gives and reports its notifications |
| GenericConverter.EnumIsDefined | Trencadis.Core.Conversions/Trencadis.Core.Conversions/SpecializedConversions/GenericConverter.cs:69-72 | a string is defined exactly when it names a member; a value of the target enum or of its underlying integral type is defined exactly when it is a member's value; a value of another enum or integral type, bool or char is rejected with an argument exception; floats, decimals and other objects with an invalid-operation exception |
| GenericConverter.ParsedEnumValue | Trencadis.Core.Conversions/Trencadis.Core.Conversions/SpecializedConversions/GenericConverter.cs:76 | a non-string value parses back to its own number; a string parses to the value of the first member with that name |
| GenericConverter.ConvertByOperators | Trencadis.Core.Conversions/Trencadis.Core.Conversions/SpecializedConversions/GenericConverter.cs:83-100 | with no fitting implicit or explicit operator the result is `ChangeType(value, toType, format)` |
| GenericConverter.ConvertValue | Trencadis.Core.Conversions/Trencadis.Core.Conversions/SpecializedConversions/GenericConverter.cs:65-104 | for an enum target, a defined non-string value gives the enum value with the same number, a defined non-blank string gives the first member so named, a blank string the default, and an `IsDefined` exception propagates; otherwise the operator steps and `ChangeType` decide |
| GenericConverter.NewGenericConverter | Trencadis.Core.Conversions/Trencadis.Core.Conversions/SpecializedConversions/GenericConverter.cs:34-55 | a null target type throws `ArgumentNullException`; otherwise `ToType` is the argument |
| GenericConverter.ImplicitOperatorWins | Trencadis.Core.Conversions/Trencadis.Core.Conversions/SpecializedConversions/GenericConverter.cs:83-89 | the first fitting implicit operator decides, whatever explicit operators or `ChangeType` would give |
| GenericConverter.ExplicitOperatorSecond | Trencadis.Core.Conversions/Trencadis.Core.Conversions/SpecializedConversions/GenericConverter.cs:92-98 | with no fitting implicit operator the first fitting explicit operator decides |
| GenericConverter.FirstFitIsUnique | Trencadis.Core.Conversions/Trencadis.Core.Conversions/Helpers/ConversionsHelper.cs:49-71 | when an operator fits, the lookup invokes exactly the first one that fits |
| GenericConverter.DefinedEnumNameIgnoresOperators | Trencadis.Core.Conversions/Trencadis.Core.Conversions/SpecializedConversions/GenericConverter.cs:69-79 | a string naming a member converts to the first member with that name, whatever the operator table and `ChangeType` are |
| GenericConverter.UndefinedEnumNameFallsThrough | Trencadis.Core.Conversions/Trencadis.Core.Conversions/SpecializedConversions/GenericConverter.cs:69-100 | an undefined name goes on to the operators and `ChangeType` |
| SpecializedConverters.FromType | Trencadis.Core.Conversions/Trencadis.Core.Conversions/SpecializedConversions/SpecializedConverter.cs:45-65 | the generic converter is from `object`; the narrowing converters from decimal, float or double; all others from string |
| SpecializedConverters.ToType | Trencadis.Core.Conversions/Trencadis.Core.Conversions/SpecializedConversions/SpecializedConverter.cs:70-76 | `TTo`, a non-nullable value type, except the generic converter's own target |
| SpecializedConverters.RepairDefault | Trencadis.Core.Conversions/Trencadis.Core.Conversions/SpecializedConversions/SpecializedConverter.cs:124-147 | the repaired default is the given one or `default(TTo)`; it is null or assignable to `TTo`; a default assignable to `TTo` is kept; the generic converter keeps every default |
| SpecializedConverters.RepairDefaultValue | Trencadis.Core.Conversions/Trencadis.Core.Conversions/SpecializedConversions/SpecializedConverter.cs:124-147 | the step-by-step repair computes `RepairDefault` |
| SpecializedConverters.ConvertOutcome | Trencadis.Core.Conversions/Trencadis.Core.Conversions/SpecializedConversions/SpecializedConverter.cs:96-150 | a null, DBNull or non-`TFrom` value gives the default unchanged, silently; at most one notification; only the generic converter can throw, and it sends nothing |
| SpecializedConverters.NotificationsNameTheConversion | Trencadis.Core.Conversions/Trencadis.Core.Conversions/SpecializedConversions/SpecializedConverter.cs:96-150 | every notification is a fallback naming the value, `ToType`, the repaired default and the format |
| SpecializedConverters.ConvertValueNotificationsNameTheConversion | Trencadis.Core.Conversions/Trencadis.Core.Conversions/SpecializedConversions/SpecializedConverter.cs:86 | each converter's own `ConvertValue` reports only fallbacks naming the value, `ToType`, the default it was given and the format |
| SpecializedConverters.SpecializedResultHasTargetType | Trencadis.Core.Conversions/Trencadis.Core.Conversions/SpecializedConversions/SpecializedConverter.cs:118-149 | with well-typed parsers, a converter other than the generic one never throws and returns a value of its target type |
| SpecializedConverters.ConvertValueHasTargetType | Trencadis.Core.Conversions/Trencadis.Core.Conversions/SpecializedConversions/SpecializedConverter.cs:86 | given a default of its target type and well-typed parsers, each converter's own `ConvertValue` other than the generic one returns a value of that type |
| SpecializedConverters.GenericAdmitsAllAndKeepsDefault | Trencadis.Core.Conversions/Trencadis.Core.Conversions/SpecializedConversions/GenericConverter.cs:17 | the generic converter, being `<object, object>`, passes every value and its default straight to `ConvertValue` |
| SpecializedConverters.AdmittedValueReachesConvertValue | Trencadis.Core.Conversions/Trencadis.Core.Conversions/SpecializedConversions/SpecializedConverter.cs:149 | an admitted value reaches `ConvertValue` with the repaired default |
| SpecializedConverters.ConvertValue | Trencadis.Core.Conversions/Trencadis.Core.Conversions/SpecializedConversions/SpecializedConverter.cs:86 | each converter's `ConvertValue` returns its outcome and reports its notifications |
| SpecializedConverters.Convert | Trencadis.Core.Conversions/Trencadis.Core.Conversions/SpecializedConversions/SpecializedConverter.cs:96-150 | the method returns what `ConvertOutcome` gives and reports its notifications |
| SpecializedConverterLocator.GetSpecializedConverter | Trencadis.Core.Conversions/Trencadis.Core.Conversions/Infrastructure/SpecializedConverterLocator.cs:27-37 | null for any null argument; otherwise the first listed converter whose `FromType` and `ToType` equal the pair exactly, and null only when none does |
| SpecializedConverterLocator.LaterDuplicateIsShadowed | Trencadis.Core.Conversions/Trencadis.Core.Conversions/Infrastructure/SpecializedConverterLocator.cs:31 | a converter listed after an equal one is never the position found |
| SpecializedConverterLocator.HandlersOfAPairAreEqual | Trencadis.Core.Conversions/Trencadis.Core.Conversions/Infrastructure/SpecializedConverterLocator.cs:31 | two converters registered for the same pair are the same converter |
| Bootstrapping.DefaultRegistrations | Trencadis.Core.Conversions/Trencadis.Core.Conversions/Infrastructure/Bootstrapping/DefaultSpecializedConversionsBootstrapper.cs:27-50 | nineteen registrations, the eighth and ninth both string-to-`ulong`, none generic |
| Bootstrapping.SpecializedConversionsBootstrapper.constructor | Trencadis.Core.Conversions/Trencadis.Core.Conversions/Infrastructure/Bootstrapping/SpecializedConversionsBootstrapper.cs:26-29 | the list starts empty |
| Bootstrapping.SpecializedConversionsBootstrapper.Default | Trencadis.Core.Conversions/Trencadis.Core.Conversions/Infrastructure/Bootstrapping/DefaultSpecializedConversionsBootstrapper.cs:20-22 | a bootstrapper with an empty list and the default registrations |
| Bootstrapping.SpecializedConversionsBootstrapper.AddSpecializedConverter | Trencadis.Core.Conversions/Trencadis.Core.Conversions/Infrastructure/Bootstrapping/SpecializedConversionsBootstrapper.cs:56-60 | appends exactly one converter at the end |
| Bootstrapping.SpecializedConversionsBootstrapper.DiscoverConverters | Trencadis.Core.Conversions/Trencadis.Core.Conversions/Infrastructure/Bootstrapping/DefaultSpecializedConversionsBootstrapper.cs:27-50 | appends the registrations in order |
| Bootstrapping.SpecializedConversionsBootstrapper.DiscoveredSpecializedConverters | Trencadis.Core.Conversions/Trencadis.Core.Conversions/Infrastructure/Bootstrapping/SpecializedConversionsBootstrapper.cs:34-45 | afterwards the list is the registrations; a non-empty list is returned unchanged, and discovery reruns while the list is empty |
| Bootstrapping.DefaultLookupFindsEachRegistration | Trencadis.Core.Conversions/Trencadis.Core.Conversions/Infrastructure/Bootstrapping/DefaultSpecializedConversionsBootstrapper.cs:29-49 | every default registration is the converter the lookup finds for its own pair |
| Bootstrapping.SecondUlongRegistrationIsShadowed | Trencadis.Core.Conversions/Trencadis.Core.Conversions/Infrastructure/Bootstrapping/DefaultSpecializedConversionsBootstrapper.cs:36-37 | the second string-to-`ulong` registration is never selected |
| Bootstrapping.DefaultNumericPairs | Trencadis.Core.Conversions/Trencadis.Core.Conversions/Infrastructure/Bootstrapping/DefaultSpecializedConversionsBootstrapper.cs:42-44 | from a non-string type, a specialized converter exists exactly for decimal, float and double to `int` |
| Bootstrapping.DefaultStringTargets | Trencadis.Core.Conversions/Trencadis.Core.Conversions/Infrastructure/Bootstrapping/DefaultSpecializedConversionsBootstrapper.cs:29-49 | from string, a specialized converter exists exactly for the twelve number types, char, bool, `DateTime` and `Guid` |
| Bootstrapping.StringSourcedTargets | Trencadis.Core.Conversions/Trencadis.Core.Conversions/Infrastructure/Bootstrapping/DefaultSpecializedConversionsBootstrapper.cs:29-49 | a converter registered from string goes to a number type, char, bool, `DateTime` or `Guid` |
| Bootstrapping.DefaultStringTargetFound | Trencadis.Core.Conversions/Trencadis.Core.Conversions/Infrastructure/Bootstrapping/DefaultSpecializedConversionsBootstrapper.cs:29-49 | each of those targets has a string registration the lookup finds |
| Converter.EffectiveDefault | Trencadis.Core.Conversions/Trencadis.Core.Conversions/Converter.cs:60-64 | a null or DBNull default for a non-nullable value type becomes a value of that type, for `Nullable<T>` null; any other default is kept |
| Converter.MissingDefaultIsZero | Trencadis.Core.Conversions/Trencadis.Core.Conversions/Converter.cs:60-64 | a null or DBNull default becomes `default(T)`: 0 for integral types, 0.0 for float, double and decimal, false for bool, '\0' for char, the value 0 for an enum |
| Converter.Catch | Trencadis.Core.Conversions/Trencadis.Core.Conversions/Converter.cs:111-170 | a recognised exception gives the default with one caught-exception notification; any other is rethrown unchanged, silently |
| Converter.IsRecognized | Trencadis.Core.Conversions/Trencadis.Core.Conversions/Converter.cs:113-154 | the catch filter takes invalid-cast, format, overflow, the three argument exceptions and invalid-operation; index-out-of-range, null-reference, target-invocation and any other kind are not taken |
| Converter.CatchBlock | Trencadis.Core.Conversions/Trencadis.Core.Conversions/Converter.cs:111-170 | the method rethrows an unrecognised exception silently, and for a recognised one reports it and returns the default, as `Catch` states |
| Converter.SelectConverter | Trencadis.Core.Conversions/Trencadis.Core.Conversions/Converter.cs:103-107 | a registered converter for exactly (value type, target), or else the generic converter for the target; its `ToType` is the target |
| Converter.FoundConverterIsSelected | Trencadis.Core.Conversions/Trencadis.Core.Conversions/Converter.cs:103-107 | a converter the lookup finds for the value's type is the one used, and it is registered for that pair |
| Converter.UnwrapTarget | Trencadis.Core.Conversions/Trencadis.Core.Conversions/Converter.cs:87-95 | a non-generic target is kept; unwrapping throws exactly when the parse of a generic target throws |
| Converter.UnwrapTargetStripsNullable | Trencadis.Core.Conversions/Trencadis.Core.Conversions/Converter.cs:87-95 | with the corrected parse, unwrapping never throws and strips exactly one `Nullable<T>` |
| Converter.TryBlock | Trencadis.Core.Conversions/Trencadis.Core.Conversions/Converter.cs:84-110 | a throwing try block has sent nothing; at most one notification, and it is a fallback |
| Converter.ConvertWith | Trencadis.Core.Conversions/Trencadis.Core.Conversions/Converter.cs:84-172 | at most one notification; an exception that escapes is unrecognised and unreported; a caught-exception notification comes with the default as result |
| Converter.ConvertOutcome | Trencadis.Core.Conversions/Trencadis.Core.Conversions/Converter.cs:47-173 | a null target throws `ArgumentNullException`; a null, DBNull or blank value gives the effective default with exactly one argument-null fallback; at most one notification; a thrown exception is unrecognised and unreported; a caught-exception notification comes with the effective default as result |
| Converter.ConvertOutcomeAsWritten | Trencadis.Core.Conversions/Trencadis.Core.Conversions/Converter.cs:47-173 | as written, agrees with the intended dispatcher on a null target and on short-circuited values |
| Converter.AsWrittenAgreesOffNullable | Trencadis.Core.Conversions/Trencadis.Core.Conversions/Converter.cs:47-173 | as written, `Convert` equals the intended dispatcher on every target other than `Nullable<T>`, so every property of `ConvertOutcome` holds there |
| Converter.NullableTargetAsWrittenThrows | Trencadis.Core.Conversions/Trencadis.Core.Conversions/Converter.cs:87-95 | as written, every conversion of a real value to `Nullable<T>` throws `IndexOutOfRangeException` out of `Convert` |
| Converter.NullableTargetUnwraps | Trencadis.Core.Conversions/Trencadis.Core.Conversions/Converter.cs:87-95 | as intended, converting to `Nullable<T>` with a real default is converting to `T` |
| Converter.SelectedConverterDecides | Trencadis.Core.Conversions/Trencadis.Core.Conversions/Converter.cs:82-172 | for a target other than `Nullable<T>`, the selected converter's result is returned and its exception goes through the catch block |
| Converter.Convert | Trencadis.Core.Conversions/Trencadis.Core.Conversions/Converter.cs:47-173 | the method returns what `ConvertOutcome` gives, with or without an observer, and reports its notifications; the settings bootstrapper stays valid and has discovered once any conversion was tried |
| Converter.ConvertInTry | Trencadis.Core.Conversions/Trencadis.Core.Conversions/Converter.cs:82-172 | the try block, catch block and return compute the intended outcome |
| Converter.Try | Trencadis.Core.Conversions/Trencadis.Core.Conversions/Converter.cs:84-110 | the try block unwraps the target, discovers converters and runs the selected one |
| Converter.DiscoverKnownConverters | Trencadis.Core.Conversions/Trencadis.Core.Conversions/Converter.cs:97-103 | the converters of the settings' bootstrapper, or of a new default one; the settings bootstrapper has then discovered exactly its registrations |
| ConversionExtensions.CastTo | Trencadis.Core.Conversions/Trencadis.Core.Conversions/ConversionExtensions-object.cs:26 | the unboxing cast: null passes only to a reference type or `Nullable<T>`, a non-null value exactly when assignable; failures are null-reference or invalid-cast |
| ConversionExtensions.ConvertToOutcome | Trencadis.Core.Conversions/Trencadis.Core.Conversions/ConversionExtensions-object.cs:24-121 | same notifications as `Convert`; an exception of `Convert` propagates; a value `Convert` returns goes through the `(TTarget)` cast, so a returned value is null or assignable to the target, and a failed cast raises null-reference or invalid-cast |
| ConversionExtensions.ShortCircuitReturnsTypedDefault | Trencadis.Core.Conversions/Trencadis.Core.Conversions/ConversionExtensions-object.cs:94-102 | for a null, DBNull or blank value and a default that is a `TTarget`, the default comes back with one fallback |
| ConversionExtensions.TypedResultPassesTheCast | Trencadis.Core.Conversions/Trencadis.Core.Conversions/ConversionExtensions-object.cs:26 | a result of type `TTarget` passes the cast unchanged |
| ConversionExtensions.ConvertTo | Trencadis.Core.Conversions/Trencadis.Core.Conversions/ConversionExtensions-object.cs:24-32 | `Convert` with `default(T)`, the current culture and no observer, then the cast |
| ConversionExtensions.ConvertToObserved | Trencadis.Core.Conversions/Trencadis.Core.Conversions/ConversionExtensions-object.cs:41-49 | `Convert` with `default(T)`, the current culture and the observer, then the cast |
| ConversionExtensions.ConvertToWithFormat | Trencadis.Core.Conversions/Trencadis.Core.Conversions/ConversionExtensions-object.cs:58-66 | `Convert` with `default(T)`, the format and no observer, then the cast |
| ConversionExtensions.ConvertToWithDefaultObserved | Trencadis.Core.Conversions/Trencadis.Core.Conversions/ConversionExtensions-object.cs:76-84 | `Convert` with the default, the current culture and the observer, then the cast |
| ConversionExtensions.ConvertToWithDefaultAndFormat | Trencadis.Core.Conversions/Trencadis.Core.Conversions/ConversionExtensions-object.cs:94-102 | `Convert` with the default, the format and no observer, then the cast |
| ConversionExtensions.ConvertToWithDefaultFormatObserved | Trencadis.Core.Conversions/Trencadis.Core.Conversions/ConversionExtensions-object.cs:113-121 | all four arguments forwarded unchanged, then the cast |
| Scenarios.DefaultSelects | Trencadis.Core.Conversions/Trencadis.Core.Conversions/Converter.cs:103-107 | with the default registrations each registered converter is selected for its own pair |
| Scenarios.StringTargetSelected | Trencadis.Core.Conversions/Trencadis.Core.Conversions/Infrastructure/Bootstrapping/DefaultSpecializedConversionsBootstrapper.cs:29-49 | each default string target selects a string converter, the char converter for char and the number converter for its number type |
| Scenarios.StringHandlerAdmitsStrings | Trencadis.Core.Conversions/Trencadis.Core.Conversions/SpecializedConversions/SpecializedConverter.cs:118-122 | a converter registered from `string` is a specialized one and its type guard admits every string |
| Scenarios.StringToCharTakesFirstCharacter | Trencadis.Core.Conversions/Trencadis.Core.Conversions/Converter.cs:66-80 | through `Convert`, a non-blank string gives its first character silently; a blank one only the argument-null fallback, so the char converter's empty-string fallback is unreachable |
| Scenarios.StringToNumberReachesParser | Trencadis.Core.Conversions/Trencadis.Core.Conversions.Tests/ConverterTests.to-int.cs:188-196 | through `Convert`, a non-blank string to a number type is the number converter with the repaired default |
| Scenarios.StringToDefaultTargetIsTyped | Trencadis.Core.Conversions/Trencadis.Core.Conversions/Converter.cs:103-109 | with well-typed parsers, a non-blank string converts to every default string target without throwing, to a value of that type |
| Scenarios.StringConvertToDefaultTargetSucceeds | Trencadis.Core.Conversions/Trencadis.Core.Conversions/ConversionExtensions-object.cs:94-102 | `ConvertTo<T>` of a non-blank string returns a `T` for every default string target |
| Scenarios.NarrowingSelected | Trencadis.Core.Conversions/Trencadis.Core.Conversions/Infrastructure/Bootstrapping/DefaultSpecializedConversionsBootstrapper.cs:42-44 | a decimal, float or double selects its narrowing converter for `int` |
| Scenarios.NarrowingReachesConverter | Trencadis.Core.Conversions/Trencadis.Core.Conversions/Converter.cs:103-109 | through `Convert`, decimal, float and double to `int` is the narrowing converter with the repaired default |
| Scenarios.DoubleToIntTruncates | Trencadis.Core.Conversions/Trencadis.Core.Conversions.Tests/ConverterTests.to-int.cs:415-458 | through `Convert`, the double 3.65 gives 3 silently |
| Scenarios.DoubleNaNFallsBack | Trencadis.Core.Conversions/Trencadis.Core.Conversions.Tests/ConverterTests.to-int.cs:487-497 | through `Convert`, NaN with default -1 gives -1 with one invalid-cast fallback |
| Scenarios.NullToIntGivesZero | Trencadis.Core.Conversions/Trencadis.Core.Conversions.Tests/ConverterTests.to-int.cs:29-44 | null to `int` with a null default gives 0 with one argument-null fallback, as the test expects |
| Scenarios.NarrowingIgnoresChangeType | Trencadis.Core.Conversions/Trencadis.Core.Conversions/Converter.cs:103-109 | a decimal, float or double converted to `int` never consults `ChangeType`: platforms differing only in it give the same outcome |
| Scenarios.DoubleToIntTruncatesWhereChangeTypeRounds | Trencadis.Core.Conversions/Trencadis.Core.Conversions.Tests/ConverterTests.to-int.cs:427-445 | with a `ChangeType` that rounds 3.65 to 4, the generic converter would give 4, while `Convert` gives 3 |
| Scenarios.OtherSourcesSelectGeneric | Trencadis.Core.Conversions/Trencadis.Core.Conversions/Converter.cs:103-107 | every source type other than string, decimal, float and double goes to the generic converter |
| Scenarios.NoOperatorsMeansChangeType | Trencadis.Core.Conversions/Trencadis.Core.Conversions/SpecializedConversions/GenericConverter.cs:100 | with no operators, a generic conversion to a non-enum type is `ChangeType` |
| Scenarios.BoolToIntUsesChangeType | Trencadis.Core.Conversions/Trencadis.Core.Conversions/Converter.cs:111-169 | bool to `int` is `ChangeType`; its recognised exceptions give the default with a caught-exception notification, others propagate |
| Scenarios.DeclaredOperatorInvoked | Trencadis.Core.Conversions/Trencadis.Core.Conversions.Tests/Helpers/ImplicitConversions/ImplicitIntegerNumber.cs:28-41 | of the two operators such a class declares, the one returning `int` is invoked |
| Scenarios.ConversionOperatorToInt | Trencadis.Core.Conversions/Trencadis.Core.Conversions.Tests/ConverterTests.to-int.cs:586-611 | a class with implicit (or explicit) operators to and from `int` converts to `int` through its operator, silently (10 and 12 in the tests) |

## Left out

- Reflection, `Enum.IsDefined`/`Enum.Parse`, `ChangeType`, `TryParse` and `ToString` are oracles in `Platform`; their internals, culture rules and exception choice are not modelled.
- The concrete string-to-number subclasses (`StringToNumberConverter.to-*.cs`) are taken to be one-line calls of the number parse for their type; `StringToIntConverter`, `StringToUintConverter`, `StringToFloatConverter` and `StringToDecimalConverter` are not part of this model and are assumed to have the same shape.
- Float and double are extended reals with exact values; IEEE rounding is not modelled, so `(float)int.MaxValue` rounding to 2^31 in the float bound is not captured.
- InterNumericConverters.TryCastToNumber: requires the operand not to overflow, as the only caller checks first; the unchecked cast of an overflowing value is not modelled.
- Case-insensitive comparison folds ASCII letters only; culture-specific folding is not modelled.
- Strings are sequences of `char` (Unicode scalar values); UTF-16 surrogates are not modelled.
- Messages are not modelled word for word: notifications carry the exception kind, and the message formatter is modelled by its arguments and a template fill.
- `TypeConversionException`, `ISpecializedConverter` and `ISpecializedConversionsBootstrapper` carry no behaviour and are not modelled.
- The static `Converter.Settings` is the `settings` parameter of `Converter.Convert`, and the current culture is a parameter of the `ConvertTo` overloads.
- Bootstrapping.SpecializedConversionsBootstrapper.DiscoverConverters: the nineteen literal `AddSpecializedConverter` calls are a loop over the registration table, and a fresh converter instance is the converter value (no identity).
- Thread safety of the lazy list fill is not modelled.
- Types have no user hierarchy: assignability is identity, `object`, or `T` to `Nullable<T>`; enum/underlying-type unboxing in the final cast is not modelled.
- The `GetTypeInfo` null checks in `Converter.Convert` (the `ArgumentException` at Converter.cs:54-58), `SpecializedConverter.Convert` and `GenericConverter` cannot fail for a non-null type and are not modelled.
- `IFormatProvider` is either absent or a culture known by its name; other format providers are not modelled, and a provider's type name is always `System.Globalization.CultureInfo`.
- The converters are a closed datatype: the library's own converters plus the generic one. A user `ISpecializedConverter` registered by a custom bootstrapper is not modelled; `SpecializedConverterLocator.HandlersOfAPairAreEqual` and the "only the generic converter throws" clause of `SpecializedConverters.ConvertOutcome` hold for this closed set only.
- Converter.Convert: the intended `TryParseNullableType` is the one used (see Findings); the as-written behaviour is `ConvertOutcomeAsWritten`.

## Findings

| source | as written | input that shows it | evidently intended | confidence | as-written member | corrected member |
|---|---|---|---|---|---|---|
| Trencadis.Core.Conversions/Trencadis.Core.Conversions/Helpers/ConversionsHelper.cs:135 | the argument is read from `GetGenericTypeDefinition()`, the open `Nullable<>`, whose `GenericTypeArguments` is empty | `Convert(5, typeof(int?), null, format, observer)`: `IndexOutOfRangeException` escapes `Convert`, since it is not a recognised exception | read the argument from the type itself, so `int?` unwraps to `int` | not executed | Converter.NullableTargetAsWrittenThrows | Converter.NullableTargetUnwraps |
| Trencadis.Core.Conversions/Trencadis.Core.Conversions/Helpers/ConversionsHelper.cs:202-203 | the default value's string fills both the value slot {3} and the type slot {4} | any failed conversion with default -1: the message names the default's type as "-1" | the type slot holds the default's type name ("System.Int32") | not executed | ConversionsHelper.DefaultTypeSlotDiscrepancy | ConversionsHelper.MessageArguments |
