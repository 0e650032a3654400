/** The JSON value model the JSON field codec works on (the values of
    RFC 8259: object, array, number, string, boolean, null) and the Gson
    accessors (`getAsString`, `getAsInt`, ...) with their coercions. */
module Json {
  import opened Wrappers
  import opened JavaInt
  import opened Text
  import opened GameTypes

  /** A JSON number as Gson holds it: an integral value, or the bits of the
      `float`/`double` it was built from. */
  datatype Num = IntNum(n: int) | FloatNum(f: FloatBits) | DoubleNum(d: DoubleBits)

  datatype Json =
    | JNull
    | JBool(b: bool)
    | JNum(num: Num)
    | JString(s: string)
    | JArray(elems: seq<Json>)
    | JObject(members: map<string, Json>)

  /** The exceptions the JSON codec can raise. */
  datatype JsonError =
    | NoJsonHandler            // `FIELD_SERIALIZER.get(type)` was null
    | NullPointer              // a null value or a missing member was dereferenced
    | ClassCast                // a value of the wrong class reached a writer
    | NotPrimitive             // `getAsX` on an object or on JSON null
    | ArraySize(size: nat)     // `getAsX` on an array whose size is not 1
    | NotAnObject              // `getAsJsonObject` on a non-object
    | NotAnArray               // `getAsJsonArray` on a non-array
    | NumberFormat(text: string)
    | EmptyString              // `getAsCharacter` on ""
    | FloatConversion          // a float/double conversion the model leaves out
    | InvalidLocation(text: string)
    | CodecFailure             // a library codec's `orElseThrow`

  /** Gson's `getAsX` on an array of exactly one element answers for that
      element; on any other array, on an object or on null it throws. */
  function Scalar(j: Json): (r: Result<Json, JsonError>)
    ensures r.Ok? ==> r.value.JBool? || r.value.JNum? || r.value.JString?
    ensures (j.JBool? || j.JNum? || j.JString?) ==> r == Ok(j)
    ensures j.JNull? || j.JObject? ==> r == Err(NotPrimitive)
  {
    match j
    case JNull => Err(NotPrimitive)
    case JObject(_) => Err(NotPrimitive)
    case JArray(es) => if |es| == 1 then Scalar(es[0]) else Err(ArraySize(|es|))
    case _ => Ok(j)
  }

  /** `getAsString`. A float or double renders through Java's floating-point
      formatting, which the model leaves out. */
  function AsString(j: Json): (r: Result<string, JsonError>)
    ensures j.JString? ==> r == Ok(j.s)
    ensures j.JBool? ==> r == Ok(if j.b then "true" else "false")
    ensures j.JNum? && j.num.IntNum? ==> r == Ok(IntToString(j.num.n))
  {
    var p :- Scalar(j);
    match p
    case JString(s) => Ok(s)
    case JBool(b) => Ok(if b then "true" else "false")
    case JNum(IntNum(n)) => Ok(IntToString(n))
    case _ => Err(FloatConversion)
  }

  /** `Integer.parseInt` and its relatives: an optional sign, then at least
      one decimal digit of any script, and the value must lie in `[lo, hi]`;
      anything else throws `NumberFormatException` naming the text. */
  function ParseJavaInteger(s: string, lo: int, hi: int): (r: Result<int, JsonError>)
    ensures r.Ok? <==> Numeral(s) && lo <= NumeralValue(s) <= hi
    ensures r.Ok? ==> r.value == NumeralValue(s) && lo <= r.value <= hi
    ensures r.Err? ==> r.error == NumberFormat(s)
  {
    if !Numeral(s) then Err(NumberFormat(s))
    else
      var v := NumeralValue(s);
      if lo <= v <= hi then Ok(v) else Err(NumberFormat(s))
  }

  /** Printing a number and parsing it back gives the number. */
  lemma ParseIntToString(n: int, lo: int, hi: int)
    requires lo <= n <= hi
    ensures ParseJavaInteger(IntToString(n), lo, hi) == Ok(n)
  {
    var s := IntToString(n);
    if n < 0 {
      assert Unsigned(s) == NatToString(-n);
      ParseNatToString(-n);
      AsciiDigitsValue(NatToString(-n));
    } else {
      assert Unsigned(s) == NatToString(n);
      ParseNatToString(n);
      AsciiDigitsValue(NatToString(n));
    }
  }

  /** Digits of other scripts count: Arabic-Indic "٤٢" is 42 and extended
      Arabic-Indic "-۷" is -7; a lone sign is not a number. */
  lemma OtherScriptDigitsParse()
    ensures ParseJavaInteger([0x0664 as char, 0x0662 as char], INT_MIN, INT_MAX) == Ok(42)
    ensures ParseJavaInteger(['-', 0x06F7 as char], INT_MIN, INT_MAX) == Ok(-7)
    ensures ParseJavaInteger("+", INT_MIN, INT_MAX) == Err(NumberFormat("+"))
  {
    var z := DIGIT_ZEROS;
    assert z[1..][0] == 0x0660 && z[1..][1..][0] == 0x06F0;
    forall c: char | 0x0660 <= c as int < 0x066A
      ensures JavaDigit(c) == c as int - 0x0660
    {
      assert DigitIn(c, z) == DigitIn(c, z[1..]);
    }
    forall c: char | 0x06F0 <= c as int < 0x06FA
      ensures JavaDigit(c) == c as int - 0x06F0
    {
      assert DigitIn(c, z) == DigitIn(c, z[1..]) == DigitIn(c, z[1..][1..]);
    }
    var arabic := [0x0664 as char, 0x0662 as char];
    assert JavaDigit(arabic[0]) == 4 && JavaDigit(arabic[1]) == 2;
    assert arabic[..1] == [arabic[0]] && Unsigned(arabic) == arabic;
    assert JavaDigitsValue(arabic) == 42;
    assert Unsigned(['-', 0x06F7 as char]) == [0x06F7 as char];
  }

  /** The integral value behind `getAsByte`/`getAsShort`/`getAsInt`/
      `getAsLong` before narrowing: a number as it stands (the caller keeps
      its low bits), a string through the matching `parseX` in `[lo, hi]`. */
  function AsIntegral(j: Json, lo: int, hi: int): (r: Result<int, JsonError>)
    ensures j.JNum? && j.num.IntNum? ==> r == Ok(j.num.n)
    ensures j.JString? ==> r == ParseJavaInteger(j.s, lo, hi)
  {
    var p :- Scalar(j);
    match p
    case JNum(IntNum(n)) => Ok(n)
    case JNum(_) => Err(FloatConversion)
    case JString(s) => ParseJavaInteger(s, lo, hi)
    case JBool(b) => Err(NumberFormat(if b then "true" else "false"))
    case _ => Err(NotPrimitive)
  }

  /** `getAsBoolean`: a boolean as it stands, anything else true exactly when
      its string form is "true" ignoring case. */
  function AsBool(j: Json): (r: Result<bool, JsonError>)
    ensures j.JBool? ==> r == Ok(j.b)
    ensures j.JString? ==> r == Ok(EqualsIgnoreCase(j.s, "true"))
    ensures j.JNum? ==> r == Ok(false)
  {
    var p :- Scalar(j);
    match p
    case JBool(b) => Ok(b)
    case JString(s) => Ok(EqualsIgnoreCase(s, "true"))
    case JNum(IntNum(n)) => NumberNeverTrue(n); Ok(EqualsIgnoreCase(IntToString(n), "true"))
    case _ => Ok(false)
  }

  /** The decimal form of a number never reads as "true". */
  lemma NumberNeverTrue(n: int)
    ensures !EqualsIgnoreCase(IntToString(n), "true")
  {
    var s := IntToString(n);
    if |s| == 4 {
      if n < 0 {
        assert s[0] == '-';
      } else {
        assert '0' <= s[0] <= '9';
      }
      assert !Text.CharsMatchIgnoreCase(s[0], 't');
    }
  }

  /** `getAsCharacter`: the first character of the string form. */
  function AsChar(j: Json): (r: Result<char, JsonError>)
    ensures j.JString? && |j.s| > 0 ==> r == Ok(j.s[0])
    ensures j.JString? && |j.s| == 0 ==> r == Err(EmptyString)
  {
    var s :- AsString(j);
    if |s| == 0 then Err(EmptyString) else Ok(s[0])
  }

  /** `getAsFloat` and `getAsDouble` on the number of the same width; every
      other conversion is floating-point formatting or parsing. */
  function AsFloat(j: Json): (r: Result<FloatBits, JsonError>)
    ensures j.JNum? && j.num.FloatNum? ==> r == Ok(j.num.f)
  {
    var p :- Scalar(j);
    if p.JNum? && p.num.FloatNum? then Ok(p.num.f) else Err(FloatConversion)
  }

  function AsDouble(j: Json): (r: Result<DoubleBits, JsonError>)
    ensures j.JNum? && j.num.DoubleNum? ==> r == Ok(j.num.d)
  {
    var p :- Scalar(j);
    if p.JNum? && p.num.DoubleNum? then Ok(p.num.d) else Err(FloatConversion)
  }

  /** `getAsJsonObject` / `getAsJsonArray`: casts that throw on another kind. */
  function AsObject(j: Json): (r: Result<map<string, Json>, JsonError>)
    ensures r.Ok? <==> j.JObject?
    ensures j.JObject? ==> r.value == j.members
  {
    if j.JObject? then Ok(j.members) else Err(NotAnObject)
  }

  function AsArray(j: Json): (r: Result<seq<Json>, JsonError>)
    ensures r.Ok? <==> j.JArray?
    ensures j.JArray? ==> r.value == j.elems
  {
    if j.JArray? then Ok(j.elems) else Err(NotAnArray)
  }

  /** `JsonObject.get(name)`: Java null for a missing member; dereferencing it
      throws. */
  function Member(o: map<string, Json>, name: string): (r: Result<Json, JsonError>)
    ensures r.Ok? <==> name in o
    ensures name in o ==> r.value == o[name]
  {
    if name in o then Ok(o[name]) else Err(NullPointer)
  }

  /** `ResourceLocation.parse(element.getAsString())`. */
  function AsLocation(j: Json): (r: Result<ResLoc, JsonError>)
    ensures r.Ok? ==> ValidNamespace(r.value.namespace) && ValidPath(r.value.path)
  {
    var s :- AsString(j);
    match ParseResLoc(s)
    case Some(l) => Ok(l)
    case None => Err(InvalidLocation(s))
  }

  /** A location written with `toString` reads back. */
  lemma LocationRoundTrip(l: ResLoc)
    requires Printable(l)
    ensures AsLocation(JString(ResLocString(l))) == Ok(l)
  {
    ParsePrintedResLoc(l);
  }
}
