/** The few `java.lang.String` operations the modelled code relies on:
    decimal rendering (`String.valueOf`), `indexOf(char)` and
    `equalsIgnoreCase`, the latter with the case mappings of the ASCII
    letters and of the characters that map onto them. */
module Text {

  function DigitChar(d: nat): (c: char)
    requires d < 10
    ensures '0' <= c <= '9'
  {
    ['0', '1', '2', '3', '4', '5', '6', '7', '8', '9'][d]
  }

  function DigitValue(c: char): nat
    requires '0' <= c <= '9'
  {
    (c as int - '0' as int) as nat
  }

  predicate IsDigits(s: string) {
    |s| > 0 && forall i :: 0 <= i < |s| ==> '0' <= s[i] <= '9'
  }

  /** `String.valueOf(n)` for a non-negative `n`: most significant digit first. */
  function NatToString(n: nat): (s: string)
    ensures IsDigits(s)
    ensures |s| > 1 ==> s[0] != '0'
  {
    if n < 10 then [DigitChar(n)] else NatToString(n / 10) + [DigitChar(n % 10)]
  }

  /** `String.valueOf(i)` for any integer. */
  function IntToString(i: int): (s: string)
    ensures |s| > 0
    ensures i < 0 <==> s[0] == '-'
  {
    if i < 0 then "-" + NatToString(-i) else NatToString(i)
  }

  /** Reads a run of decimal digits back as a number. */
  function ParseDigits(s: string): nat
    requires IsDigits(s)
  {
    if |s| == 1 then DigitValue(s[0])
    else ParseDigits(s[..|s| - 1]) * 10 + DigitValue(s[|s| - 1])
  }

  lemma {:induction false} ParseNatToString(n: nat)
    ensures ParseDigits(NatToString(n)) == n
  {
    if n >= 10 {
      var s := NatToString(n);
      assert s[..|s| - 1] == NatToString(n / 10);
      ParseNatToString(n / 10);
    }
  }

  /** Distinct numbers never render to the same decimal string. */
  lemma NatToStringInjective(a: nat, b: nat)
    requires NatToString(a) == NatToString(b)
    ensures a == b
  {
    ParseNatToString(a);
    ParseNatToString(b);
  }

  /** The first code point of every run of ten decimal digits (Unicode
      general category Nd) in the Basic Multilingual Plane, ASCII first.
      `Character.digit(c, 10)` gives each digit its offset from its run's
      zero. A Java `char` is one UTF-16 unit, so the digits outside this
      plane reach `parseInt` as surrogates, which are not digits. */
  const DIGIT_ZEROS: seq<int> := [
    0x0030, 0x0660, 0x06F0, 0x07C0, 0x0966, 0x09E6, 0x0A66, 0x0AE6, 0x0B66, 0x0BE6,
    0x0C66, 0x0CE6, 0x0D66, 0x0DE6, 0x0E50, 0x0ED0, 0x0F20, 0x1040, 0x1090, 0x17E0,
    0x1810, 0x1946, 0x19D0, 0x1A80, 0x1A90, 0x1B50, 0x1BB0, 0x1C40, 0x1C50, 0xA620,
    0xA8D0, 0xA900, 0xA9D0, 0xA9F0, 0xAA50, 0xABF0, 0xFF10]

  function DigitIn(c: char, zeros: seq<int>): (d: int)
    ensures -1 <= d < 10
  {
    if |zeros| == 0 then -1
    else if zeros[0] <= c as int < zeros[0] + 10 then c as int - zeros[0]
    else DigitIn(c, zeros[1..])
  }

  /** `Character.digit(c, 10)`: the value of a decimal digit of any script,
      or -1. */
  function JavaDigit(c: char): (d: int)
    ensures -1 <= d < 10
    ensures '0' <= c <= '9' ==> d == DigitValue(c)
  {
    DigitIn(c, DIGIT_ZEROS)
  }

  /** A run of characters `parseInt` accepts as digits. */
  predicate IsJavaDigits(s: string) {
    |s| > 0 && forall i :: 0 <= i < |s| ==> JavaDigit(s[i]) >= 0
  }

  /** The value of such a run, most significant digit first. */
  function JavaDigitsValue(s: string): nat
    requires IsJavaDigits(s)
  {
    if |s| == 1 then JavaDigit(s[0]) as nat
    else JavaDigitsValue(s[..|s| - 1]) * 10 + JavaDigit(s[|s| - 1]) as nat
  }

  /** ASCII digits are Java digits with their usual values. */
  lemma {:induction false} AsciiDigitsValue(s: string)
    requires IsDigits(s)
    ensures IsJavaDigits(s) && JavaDigitsValue(s) == ParseDigits(s)
  {
    if |s| > 1 {
      AsciiDigitsValue(s[..|s| - 1]);
    }
  }

  /** What follows an optional leading '-' or '+'. */
  function Unsigned(s: string): (u: string)
    ensures |u| == |s| || (|s| > 0 && (s[0] == '-' || s[0] == '+') && u == s[1..])
  {
    if |s| > 0 && (s[0] == '-' || s[0] == '+') then s[1..] else s
  }

  /** The text `Integer.parseInt` accepts before its range check: an optional
      sign and at least one digit, so a lone sign is not a number. */
  predicate Numeral(s: string) {
    IsJavaDigits(Unsigned(s))
  }

  /** The value of a numeral, negated after a '-'. */
  function NumeralValue(s: string): int
    requires Numeral(s)
  {
    if s[0] == '-' then -(JavaDigitsValue(Unsigned(s)) as int) else JavaDigitsValue(Unsigned(s)) as int
  }

  /** `s.indexOf(c)`: the first position of `c`, or -1. */
  function IndexOf(s: string, c: char): (i: int)
    ensures -1 <= i < |s|
    ensures i == -1 <==> c !in s
    ensures i >= 0 ==> s[i] == c && c !in s[..i]
  {
    if |s| == 0 then -1
    else if s[0] == c then 0
    else
      var j := IndexOf(s[1..], c);
      assert s[1..][..(if j < 0 then 0 else j)] == s[1..(if j < 0 then 1 else j + 1)];
      if j < 0 then -1 else j + 1
  }

  function ToLowerAscii(c: char): char {
    if 'A' <= c <= 'Z' then (c as int + 32) as char else c
  }

  function ToUpperAscii(c: char): char {
    if 'a' <= c <= 'z' then (c as int - 32) as char else c
  }

  // The four characters outside ASCII whose simple case mapping in Unicode
  // is an ASCII letter.
  const DOTTED_CAPITAL_I: char := 0x0130 as char
  const DOTLESS_SMALL_I: char := 0x0131 as char
  const LONG_S: char := 0x017F as char
  const KELVIN_SIGN: char := 0x212A as char

  /** `Character.toUpperCase` for ASCII letters and for the characters whose
      upper case is one; every other character is its own upper case. */
  function ToUpperCase(c: char): (u: char)
    ensures 'a' <= c <= 'z' ==> u == ToUpperAscii(c)
    ensures c == DOTLESS_SMALL_I ==> u == 'I'
    ensures c == LONG_S ==> u == 'S'
    ensures u as int < 128 <==> c as int < 128 || c == DOTLESS_SMALL_I || c == LONG_S
  {
    if c == DOTLESS_SMALL_I then 'I'
    else if c == LONG_S then 'S'
    else ToUpperAscii(c)
  }

  /** `Character.toLowerCase` for ASCII letters and for the characters whose
      lower case is one; every other character is its own lower case. */
  function ToLowerCase(c: char): (l: char)
    ensures 'A' <= c <= 'Z' ==> l == ToLowerAscii(c)
    ensures c == DOTTED_CAPITAL_I ==> l == 'i'
    ensures c == KELVIN_SIGN ==> l == 'k'
    ensures l as int < 128 <==> c as int < 128 || c == DOTTED_CAPITAL_I || c == KELVIN_SIGN
  {
    if c == DOTTED_CAPITAL_I then 'i'
    else if c == KELVIN_SIGN then 'k'
    else ToLowerAscii(c)
  }

  /** One step of `regionMatches(true, ...)`: equal characters, equal upper
      cases, or equal lower cases of the upper cases. */
  predicate CharsMatchIgnoreCase(a: char, b: char) {
    a == b || ToUpperCase(a) == ToUpperCase(b)
    || ToLowerCase(ToUpperCase(a)) == ToLowerCase(ToUpperCase(b))
  }

  /** `a.equalsIgnoreCase(b)`: equal lengths and every position matches. */
  predicate EqualsIgnoreCase(a: string, b: string) {
    |a| == |b| && forall i :: 0 <= i < |a| ==> CharsMatchIgnoreCase(a[i], b[i])
  }

  /** Which characters an ASCII character matches, ignoring case: an ASCII
      character with the same lower case, or one of the four special
      characters against its letter (dotted and dotless i against 'i', the
      long s against 's', the Kelvin sign against 'k'). */
  predicate AsciiFoldMatch(a: char, c: char) {
    if c as int < 128 then ToLowerAscii(a) == ToLowerAscii(c)
    else
      || (ToLowerAscii(a) == 'i' && (c == DOTTED_CAPITAL_I || c == DOTLESS_SMALL_I))
      || (ToLowerAscii(a) == 's' && c == LONG_S)
      || (ToLowerAscii(a) == 'k' && c == KELVIN_SIGN)
  }

  lemma AsciiCharMatches(a: char, c: char)
    requires a as int < 128
    ensures CharsMatchIgnoreCase(a, c) <==> AsciiFoldMatch(a, c)
  {
  }

  /** Against ASCII text, the case-insensitive comparison is the
      character-by-character reference match. */
  lemma {:induction false} AsciiEqualsIgnoreCase(a: string, b: string)
    requires forall i :: 0 <= i < |a| ==> a[i] as int < 128
    ensures EqualsIgnoreCase(a, b) <==> |a| == |b| && forall i :: 0 <= i < |a| ==> AsciiFoldMatch(a[i], b[i])
  {
    forall i | 0 <= i < |a| && i < |b|
      ensures CharsMatchIgnoreCase(a[i], b[i]) <==> AsciiFoldMatch(a[i], b[i])
    {
      AsciiCharMatches(a[i], b[i]);
    }
  }
}
