/** Typed reading of a field's attribute map: the contracts of the metadata
    helpers the field analysis calls (`ParseMetadata`, `ParseBooleanMetadata`,
    `ParseNullableBooleanMetadata`, `TryParseIntegerMetadata`) and the value
    parsers behind them. */
module Metadata {
  import opened Wrappers
  import opened EnumNames
  import opened Errors

  /** One attribute as the metadata builder delivers it: present without a
      value (`key`), or with one (`key: "text"`). An absent key is not in the map. */
  datatype AttrValue = Flag | Valued(text: string)

  type Attributes = map<string, AttrValue>

  /** A value read from the map together with the errors reading it produced. */
  datatype Parsed<T> = Parsed(value: T, diags: seq<Diagnostic>)

  /** The generic three-outcome pattern: an absent key gives `ifAbsent`, a key
      without a value gives `ifPresent`, a value goes through `tryParse`, and a
      value the parser rejects gives one error and falls back to `ifAbsent`. */
  function ParseMetadata<T>(md: Attributes, key: string, tryParse: string -> Option<T>, ifPresent: T, ifAbsent: T): (r: Parsed<T>)
    ensures key !in md ==> r == Parsed(ifAbsent, [])
    ensures key in md && md[key].Flag? ==> r == Parsed(ifPresent, [])
    ensures key in md && md[key].Valued? && tryParse(md[key].text).Some? ==>
              r == Parsed(tryParse(md[key].text).value, [])
    ensures key in md && md[key].Valued? && tryParse(md[key].text).None? ==>
              r == Parsed(ifAbsent, [InvalidMetadataValue(key, md[key].text)])
  {
    if key !in md then Parsed(ifAbsent, [])
    else match md[key]
      case Flag => Parsed(ifPresent, [])
      case Valued(text) =>
        match tryParse(text)
        case Some(v) => Parsed(v, [])
        case None => Parsed(ifAbsent, [InvalidMetadataValue(key, text)])
  }

  /** `bool.TryParse`: "true" or "false" up to case. */
  function ParseBool(text: string): (r: Option<bool>)
    ensures r == Some(true) <==> SameIgnoringCase(text, "true")
    ensures r == Some(false) <==> SameIgnoringCase(text, "false")
  {
    if SameIgnoringCase(text, "true") then Some(true)
    else if SameIgnoringCase(text, "false") then Some(false)
    else None
  }

  /** A boolean flag: absent is false, present without a value is true. */
  function ParseBooleanMetadata(md: Attributes, key: string): (r: Parsed<bool>)
    ensures r.value <==> key in md && (md[key].Flag? || SameIgnoringCase(md[key].text, "true"))
    ensures r.diags == [] <==> key !in md || md[key].Flag? || ParseBool(md[key].text).Some?
    ensures r.diags != [] ==> r.diags == [InvalidMetadataValue(key, md[key].text)]
  {
    ParseMetadata(md, key, ParseBool, true, false)
  }

  function ParseNullableBool(text: string): Option<Option<bool>>
  {
    match ParseBool(text)
    case Some(b) => Some(Some(b))
    case None => None
  }

  /** A tri-state flag: absent is unset, present without a value is true. */
  function ParseNullableBooleanMetadata(md: Attributes, key: string): (r: Parsed<Option<bool>>)
    ensures r.value == Option.None <==> key !in md || (md[key].Valued? && ParseBool(md[key].text).None?)
    ensures r.value == Some(true) <==> key in md && (md[key].Flag? || SameIgnoringCase(md[key].text, "true"))
    ensures r.value == Some(false) <==> key in md && md[key].Valued? && SameIgnoringCase(md[key].text, "false")
    ensures r.diags == [] <==> key !in md || md[key].Flag? || ParseBool(md[key].text).Some?
    ensures r.diags != [] ==> r.diags == [InvalidMetadataValue(key, md[key].text)]
  {
    ParseMetadata(md, key, ParseNullableBool, Some(true), Option.None)
  }

  const Int32Min: int := -0x8000_0000
  const Int32Max: int := 0x7fff_ffff

  predicate IsDigit(c: char)
  {
    '0' <= c <= '9'
  }

  predicate AllDigits(s: string)
  {
    forall i :: 0 <= i < |s| ==> IsDigit(s[i])
  }

  /** The number a string of decimal digits denotes. */
  function DigitsValue(s: string): nat
    requires AllDigits(s)
  {
    if s == [] then 0 else DigitsValue(s[..|s| - 1]) * 10 + (s[|s| - 1] as int - '0' as int)
  }

  function DigitChar(d: nat): char
    requires d < 10
  {
    ('0' as int + d) as char
  }

  /** The shortest decimal spelling of `n`. */
  function DecimalText(n: nat): (r: string)
    ensures |r| > 0 && AllDigits(r)
  {
    if n < 10 then [DigitChar(n)] else DecimalText(n / 10) + [DigitChar(n % 10)]
  }

  /** `int.ToString()`: a minus sign for negative values, then the digits. */
  function Int32Text(n: int): string
  {
    if n < 0 then "-" + DecimalText(-n) else DecimalText(n)
  }

  /** `int.TryParse`: an optional sign and one or more decimal digits, whose
      value fits in 32 bits. */
  function ParseInt32(text: string): (r: Option<int>)
    ensures r.Some? ==> Int32Min <= r.value <= Int32Max
  {
    var signed := |text| > 0 && (text[0] == '-' || text[0] == '+');
    var digits := if signed then text[1..] else text;
    if digits == [] || !AllDigits(digits) then None
    else
      var v: int := if signed && text[0] == '-' then 0 - DigitsValue(digits) as int else DigitsValue(digits);
      if Int32Min <= v <= Int32Max then Some(v) else None
  }

  lemma {:induction false} DecimalTextValue(n: nat)
    ensures DigitsValue(DecimalText(n)) == n
  {
    if n >= 10 {
      var t := DecimalText(n);
      assert t[..|t| - 1] == DecimalText(n / 10);
      DecimalTextValue(n / 10);
    }
  }

  /** Parsing what `int.ToString()` prints gives the number back. */
  lemma ParseInt32RoundTrip(n: int)
    requires Int32Min <= n <= Int32Max
    ensures ParseInt32(Int32Text(n)) == Some(n)
  {
    if n < 0 {
      assert Int32Text(n)[1..] == DecimalText(-n);
      DecimalTextValue(-n);
    } else {
      DecimalTextValue(n);
    }
  }

  /** `TryParseIntegerMetadata`, with its sentinel out-value replaced by the
      three outcomes it distinguishes. */
  datatype IntMetadata = Absent | Invalid | Value(n: int)

  function TryParseIntegerMetadata(md: Attributes, key: string): (r: IntMetadata)
    ensures r.Absent? <==> key !in md
    ensures r.Value? <==> key in md && md[key].Valued? && ParseInt32(md[key].text).Some?
    ensures r.Value? ==> Some(r.n) == ParseInt32(md[key].text)
  {
    if key !in md then Absent
    else match md[key]
      case Flag => Invalid
      case Valued(text) =>
        match ParseInt32(text)
        case Some(n) => Value(n)
        case None => Invalid
  }
}
