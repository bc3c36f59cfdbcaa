/** StringToBoolConverter: fixed true-ish and false-ish words, matched exactly
    but ignoring case; anything else falls back with a format error. */
module StringToBoolConverter {
  import opened Types
  import opened Observation

  /** Matching one of the eight words ignoring case is matching its folded form. */
  lemma FoldedWords(s: string)
    ensures EqualsIgnoreCase(s, "True") <==> Folded(s) == "TRUE"
    ensures EqualsIgnoreCase(s, "1") <==> Folded(s) == "1"
    ensures EqualsIgnoreCase(s, "y") <==> Folded(s) == "Y"
    ensures EqualsIgnoreCase(s, "yes") <==> Folded(s) == "YES"
    ensures EqualsIgnoreCase(s, "False") <==> Folded(s) == "FALSE"
    ensures EqualsIgnoreCase(s, "0") <==> Folded(s) == "0"
    ensures EqualsIgnoreCase(s, "n") <==> Folded(s) == "N"
    ensures EqualsIgnoreCase(s, "no") <==> Folded(s) == "NO"
  {
    var words := ["True", "1", "y", "yes", "False", "0", "n", "no"];
    forall w | w in words
      ensures EqualsIgnoreCase(s, w) <==> Folded(s) == Folded(w)
    {
      EqualsIgnoreCaseIsFoldedEquality(s, w);
    }
    assert Folded("True") == "TRUE";
    assert Folded("1") == "1";
    assert Folded("y") == "Y";
    assert Folded("yes") == "YES";
    assert Folded("False") == "FALSE";
    assert Folded("0") == "0";
    assert Folded("n") == "N";
    assert Folded("no") == "NO";
  }

  /** `IsTrueishValue`: "True" (`true.ToString()`), "1", "y" or "yes", ignoring case. */
  function IsTrueishValue(s: string): (r: bool)
    ensures r ==> |s| in {1, 3, 4} && FoldCase(s[0]) in {'T', '1', 'Y'}
    ensures s in ["True", "true", "TRUE", "1", "y", "Y", "yes", "Yes", "YES"] ==> r
    ensures r <==> Folded(s) in {"TRUE", "1", "Y", "YES"}
  {
    FoldedWords(s);
    EqualsIgnoreCase(s, "True") || EqualsIgnoreCase(s, "1") || EqualsIgnoreCase(s, "y") || EqualsIgnoreCase(s, "yes")
  }

  /** `IsFalseishValue`: "False" (`false.ToString()`), "0", "n" or "no", ignoring case. */
  function IsFalseishValue(s: string): (r: bool)
    ensures r ==> |s| in {1, 2, 5} && FoldCase(s[0]) in {'F', '0', 'N'}
    ensures s in ["False", "false", "FALSE", "0", "n", "N", "no", "No", "NO"] ==> r
    ensures r <==> Folded(s) in {"FALSE", "0", "N", "NO"}
  {
    FoldedWords(s);
    EqualsIgnoreCase(s, "False") || EqualsIgnoreCase(s, "0") || EqualsIgnoreCase(s, "n") || EqualsIgnoreCase(s, "no")
  }

  /** No string is both true-ish and false-ish, so testing true-ish first never decides a result. */
  lemma TrueishAndFalseishAreDisjoint(s: string)
    ensures !(IsTrueishValue(s) && IsFalseishValue(s))
  {
    // only the one-character words share a length
    if |s| == 1 {
      assert IsTrueishValue(s) ==> FoldCase(s[0]) == '1' || FoldCase(s[0]) == 'Y';
      assert IsFalseishValue(s) ==> FoldCase(s[0]) == '0' || FoldCase(s[0]) == 'N';
    }
  }

  /** Every casing of the eight words is recognised: the match ignores case. */
  lemma MatchIgnoresCase(s: string, w: string)
    requires w in ["true", "1", "y", "yes", "false", "0", "n", "no"]
    requires EqualsIgnoreCase(s, w)
    ensures w in ["true", "1", "y", "yes"] ==> IsTrueishValue(s)
    ensures w in ["false", "0", "n", "no"] ==> IsFalseishValue(s)
  {
  }

  /** What `ConvertValue` returns and which notifications it sends. */
  function BoolOutcome(s: string, defaultValue: Value, format: FormatProvider): (r: Step)
    ensures IsTrueishValue(s) ==> r == Step(Returned(Bool(true)), [])
    ensures IsFalseishValue(s) ==> r == Step(Returned(Bool(false)), [])
    ensures !IsTrueishValue(s) && !IsFalseishValue(s) ==>
      r == Step(Returned(defaultValue), [FallbackToDefault(Str(s), BoolType, defaultValue, format, Format)])
    ensures Folded(s) !in {"TRUE", "1", "Y", "YES", "FALSE", "0", "N", "NO"} ==>
      r == Step(Returned(defaultValue), [FallbackToDefault(Str(s), BoolType, defaultValue, format, Format)])
  {
    TrueishAndFalseishAreDisjoint(s);
    if IsTrueishValue(s) then Step(Returned(Bool(true)), [])
    else if IsFalseishValue(s) then Step(Returned(Bool(false)), [])
    else Step(Returned(defaultValue), [FallbackToDefault(Str(s), BoolType, defaultValue, format, Format)])
  }

  /** Nothing is trimmed: " true" and "true " are not recognised. */
  lemma NoTrimming(d: Value, format: FormatProvider)
    ensures BoolOutcome(" true", d, format) == Step(Returned(d), [FallbackToDefault(Str(" true"), BoolType, d, format, Format)])
    ensures BoolOutcome("true ", d, format) == Step(Returned(d), [FallbackToDefault(Str("true "), BoolType, d, format, Format)])
  {
    assert FoldCase(" true"[0]) != FoldCase("False"[0]);
    assert FoldCase("true "[0]) != FoldCase("False"[0]);
  }

  /** `StringToBoolConverter.ConvertValue` */
  method ConvertValue(s: string, defaultValue: Value, format: FormatProvider, observer: Observer?) returns (result: Value)
    modifies observer
    ensures result == BoolOutcome(s, defaultValue, format).outcome.value
    ensures observer != null ==>
      observer.notifications == old(observer.notifications) + BoolOutcome(s, defaultValue, format).notes
  {
    if IsTrueishValue(s) {
      return Bool(true);
    }

    if IsFalseishValue(s) {
      return Bool(false);
    }

    if observer != null {
      observer.NotifyKnownFallbackToDefaultValue(Str(s), BoolType, defaultValue, format, Format);
    }

    return defaultValue;
  }
}

/** StringToCharConverter: the first character of the string, untrimmed; an
    empty string falls back with an argument error. */
module StringToCharConverter {
  import opened Types
  import opened Observation

  /** `GetCharArray(value)`: `value.ToCharArray()`. */
  function GetCharArray(s: string): (chars: seq<char>)
    ensures |chars| == |s|
    ensures forall i :: 0 <= i < |s| ==> chars[i] == s[i]
  {
    s
  }

  /** What `ConvertValue` returns and which notifications it sends. */
  function CharOutcome(s: string, defaultValue: Value, format: FormatProvider): (r: Step)
    ensures |s| > 0 ==> r == Step(Returned(Char(s[0])), [])
    ensures |s| == 0 ==> r == Step(Returned(defaultValue), [FallbackToDefault(Str(s), CharType, defaultValue, format, Argument)])
  {
    var chars := GetCharArray(s);
    if |chars| > 0 then Step(Returned(Char(chars[0])), [])
    else Step(Returned(defaultValue), [FallbackToDefault(Str(s), CharType, defaultValue, format, Argument)])
  }

  /** A leading white-space character is the result: the string is not trimmed. */
  lemma LeadingWhiteSpaceIsKept(d: Value, format: FormatProvider)
    ensures CharOutcome(" x", d, format) == Step(Returned(Char(' ')), [])
  {
  }

  /** `StringToCharConverter.ConvertValue` */
  method ConvertValue(s: string, defaultValue: Value, format: FormatProvider, observer: Observer?) returns (result: Value)
    modifies observer
    ensures result == CharOutcome(s, defaultValue, format).outcome.value
    ensures observer != null ==>
      observer.notifications == old(observer.notifications) + CharOutcome(s, defaultValue, format).notes
  {
    var chars := GetCharArray(s);
    if |chars| > 0 {
      return Char(chars[0]);
    }

    if observer != null {
      observer.NotifyKnownFallbackToDefaultValue(Str(s), CharType, defaultValue, format, Argument);
    }

    return defaultValue;
  }
}

/** The parse-or-fall-back shape of the parsing string converters (numbers,
    `DateTime`, `Guid`): the parsed value, or the default with one format error. */
module StringParsing {
  import opened Types
  import opened Observation

  /** The shape shared by the parsing string converters: the parsed value, or
      the default with one format-error fallback naming the string and target type. */
  function ParseOutcome(parsed: Option<Value>, s: string, targetType: Type, defaultValue: Value, format: FormatProvider): (r: Step)
    ensures r.outcome.Returned? && |r.notes| <= 1
    ensures parsed.Some? <==> r.notes == []
    ensures parsed.Some? ==> r.outcome.value == parsed.value
    ensures parsed.None? ==> r == Step(Returned(defaultValue), [FallbackToDefault(Str(s), targetType, defaultValue, format, Format)])
  {
    match parsed
    case Some(v) => Step(Returned(v), [])
    case None => Step(Returned(defaultValue), [FallbackToDefault(Str(s), targetType, defaultValue, format, Format)])
  }
}

/** StringToNumberConverter<TNumber>: one `TryParse` with a fixed set of number
    styles; a failed parse falls back with a format error. The date-time and
    GUID converters have the same parse-or-fall-back shape. */
module StringToNumberConverter {
  import opened Types
  import opened Platform
  import opened Observation
  import StringParsing

  /** The numeric types with a string converter. */
  predicate IsNumberType(t: Type) {
    t.IntegralType? || t.FloatType? || t.DecimalType?
  }

  /** `GetParseNumberStyles()`: `Number` plus decimal point, thousands, leading
      and trailing sign and white space, and parentheses. */
  function GetParseNumberStyles(): (r: set<NumberStyle>)
    ensures r == {NumberStyle.AllowLeadingWhite, NumberStyle.AllowTrailingWhite, AllowLeadingSign, AllowTrailingSign,
                  AllowParentheses, AllowDecimalPoint, AllowThousands}
    ensures AllowExponent !in r && AllowCurrencySymbol !in r && AllowHexSpecifier !in r
  {
    NumberStylesNumber + {AllowDecimalPoint, AllowThousands, AllowLeadingSign, NumberStyle.AllowLeadingWhite,
                          AllowParentheses, AllowTrailingSign, NumberStyle.AllowTrailingWhite}
  }

  /** What `ConvertValue` returns and which notifications it sends: `TryParseNumber`
      is asked once, with the fixed styles and the caller's format. */
  function NumberOutcome(p: Platform, t: Type, s: string, defaultValue: Value, format: FormatProvider): (r: Step)
    ensures var parsed := p.tryParseNumber(t, s, GetParseNumberStyles(), format);
      parsed.Some? ==> r == Step(Returned(parsed.value), [])
    ensures p.tryParseNumber(t, s, GetParseNumberStyles(), format).None? ==>
      r == Step(Returned(defaultValue), [FallbackToDefault(Str(s), t, defaultValue, format, Format)])
  {
    StringParsing.ParseOutcome(p.tryParseNumber(t, s, GetParseNumberStyles(), format), s, t, defaultValue, format)
  }

  /** `StringToNumberConverter<TNumber>.ConvertValue` */
  method ConvertValue(p: Platform, t: Type, s: string, defaultValue: Value, format: FormatProvider, observer: Observer?)
    returns (result: Value)
    modifies observer
    ensures result == NumberOutcome(p, t, s, defaultValue, format).outcome.value
    ensures observer != null ==>
      observer.notifications == old(observer.notifications) + NumberOutcome(p, t, s, defaultValue, format).notes
  {
    var parseResult := p.tryParseNumber(t, s, GetParseNumberStyles(), format);
    if parseResult.Some? {
      return parseResult.value;
    }

    if observer != null {
      observer.NotifyKnownFallbackToDefaultValue(Str(s), t, defaultValue, format, Format);
    }

    return defaultValue;
  }
}

/** StringToDateTimeConverter: `DateTime.TryParse` with fixed styles and the caller's format. */
module StringToDateTimeConverter {
  import opened Types
  import opened Platform
  import opened Observation
  import StringParsing

  /** `GetParseDateTimeStyles()`: white space anywhere, and local time when no zone is given. */
  function GetParseDateTimeStyles(): (r: set<DateTimeStyle>)
    ensures r == {DateTimeStyle.AllowLeadingWhite, DateTimeStyle.AllowInnerWhite, DateTimeStyle.AllowTrailingWhite, AssumeLocal}
    ensures AssumeUniversal !in r && AdjustToUniversal !in r && RoundtripKind !in r
  {
    {DateTimeStyle.AllowInnerWhite, DateTimeStyle.AllowLeadingWhite, DateTimeStyle.AllowTrailingWhite}
      + DateTimeStylesAllowWhiteSpaces + {AssumeLocal}
  }

  /** What `ConvertValue` returns and which notifications it sends: the parse is
      asked once, with the fixed styles and the caller's format. */
  function DateTimeOutcome(p: Platform, s: string, defaultValue: Value, format: FormatProvider): (r: Step)
    ensures var parsed := p.tryParseDateTime(s, format, GetParseDateTimeStyles());
      parsed.Some? ==> r == Step(Returned(parsed.value), [])
    ensures p.tryParseDateTime(s, format, GetParseDateTimeStyles()).None? ==>
      r == Step(Returned(defaultValue), [FallbackToDefault(Str(s), DateTimeType, defaultValue, format, Format)])
  {
    StringParsing.ParseOutcome(p.tryParseDateTime(s, format, GetParseDateTimeStyles()), s, DateTimeType, defaultValue, format)
  }

  /** `StringToDateTimeConverter.ConvertValue` */
  method ConvertValue(p: Platform, s: string, defaultValue: Value, format: FormatProvider, observer: Observer?)
    returns (result: Value)
    modifies observer
    ensures result == DateTimeOutcome(p, s, defaultValue, format).outcome.value
    ensures observer != null ==>
      observer.notifications == old(observer.notifications) + DateTimeOutcome(p, s, defaultValue, format).notes
  {
    var parsedDateTime := p.tryParseDateTime(s, format, GetParseDateTimeStyles());
    if parsedDateTime.Some? {
      return parsedDateTime.value;
    }

    if observer != null {
      observer.NotifyKnownFallbackToDefaultValue(Str(s), DateTimeType, defaultValue, format, Format);
    }

    return defaultValue;
  }
}

/** StringToGuidConverter: `Guid.TryParse`, which takes no format. */
module StringToGuidConverter {
  import opened Types
  import opened Platform
  import opened Observation
  import StringParsing

  /** What `ConvertValue` returns and which notifications it sends; the caller's
      format reaches only the notification. */
  function GuidOutcome(p: Platform, s: string, defaultValue: Value, format: FormatProvider): (r: Step)
    ensures p.tryParseGuid(s).Some? ==> r == Step(Returned(p.tryParseGuid(s).value), [])
    ensures p.tryParseGuid(s).None? ==>
      r == Step(Returned(defaultValue), [FallbackToDefault(Str(s), GuidType, defaultValue, format, Format)])
  {
    StringParsing.ParseOutcome(p.tryParseGuid(s), s, GuidType, defaultValue, format)
  }

  /** `StringToGuidConverter.ConvertValue` */
  method ConvertValue(p: Platform, s: string, defaultValue: Value, format: FormatProvider, observer: Observer?)
    returns (result: Value)
    modifies observer
    ensures result == GuidOutcome(p, s, defaultValue, format).outcome.value
    ensures observer != null ==>
      observer.notifications == old(observer.notifications) + GuidOutcome(p, s, defaultValue, format).notes
  {
    var parseResult := p.tryParseGuid(s);
    if parseResult.Some? {
      return parseResult.value;
    }

    if observer != null {
      observer.NotifyKnownFallbackToDefaultValue(Str(s), GuidType, defaultValue, format, Format);
    }

    return defaultValue;
  }
}
