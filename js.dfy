/**
 * The few JavaScript value conversions the list UI depends on:
 * the string a number becomes when it is used as an object key
 * (Number::toString for integers), the "array index" test that decides
 * where a key goes in Object.keys order, and parseInt with no radix.
 */
module Js {

  /** A number as produced by parseInt: an integer, or NaN when no digit was found. */
  datatype Number = Int(value: int) | NaN

  /**
   * Strict equality (===) on parseInt results: NaN is not equal to itself.
   * Array.prototype.includes compares with SameValueZero instead, under which
   * NaN does equal NaN; that comparison is plain datatype equality, so
   * `x in s` is exactly `s.includes(x)`.
   */
  predicate StrictEquals(a: Number, b: Number) {
    a.Int? && b.Int? && a.value == b.value
  }

  predicate IsDecimalDigit(c: char) {
    '0' <= c <= '9'
  }

  predicate IsHexDigit(c: char) {
    IsDecimalDigit(c) || 'a' <= c <= 'f' || 'A' <= c <= 'F'
  }

  predicate IsRadixDigit(c: char, hex: bool) {
    if hex then IsHexDigit(c) else IsDecimalDigit(c)
  }

  function DigitValue(c: char): (d: nat)
    requires IsHexDigit(c)
    ensures d < 16
    ensures IsDecimalDigit(c) ==> d < 10
  {
    if IsDecimalDigit(c) then c as int - '0' as int
    else if 'a' <= c <= 'f' then c as int - 'a' as int + 10
    else c as int - 'A' as int + 10
  }

  predicate AllDigits(s: string, hex: bool) {
    forall i :: 0 <= i < |s| ==> IsRadixDigit(s[i], hex)
  }

  /** The value of a digit string, most significant digit first. */
  function RadixValue(s: string, hex: bool): nat
    requires AllDigits(s, hex)
  {
    if s == [] then 0
    else RadixValue(s[..|s| - 1], hex) * (if hex then 16 else 10) + DigitValue(s[|s| - 1])
  }

  /** The decimal digits of n, without leading zeros. */
  function NatToString(n: nat): string {
    var d := ['0' + (n % 10) as char];
    if n < 10 then d else NatToString(n / 10) + d
  }

  /** NatToString writes canonical decimal digits that read back as n. */
  lemma {:induction false} NatToStringDigits(n: nat)
    ensures var s := NatToString(n);
      && |s| > 0 && AllDigits(s, false)
      && RadixValue(s, false) == n
      && (s[0] == '0' ==> n == 0 && |s| == 1)
  {
    if n >= 10 {
      NatToStringDigits(n / 10);
      var p := NatToString(n / 10);
      var d := ['0' + (n % 10) as char];
      assert (p + d)[..|p + d| - 1] == p;
    }
  }

  /** String(n) for an integer n: what a numeric list_number becomes as an object key. */
  function IntToString(n: int): string {
    if n < 0 then "-" + NatToString(-n) else NatToString(n)
  }

  /** The largest array index, 2^32 - 2 (section 6.1.7 of ECMA-262). */
  const MaxArrayIndex: nat := 4294967294

  /**
   * A key is an array index when it is the canonical decimal string of an
   * integer from 0 to 2^32 - 2: digits only, no leading zero, in range.
   * Object.keys lists such keys first, in ascending numeric order.
   */
  predicate IsArrayIndex(s: string) {
    && |s| > 0
    && AllDigits(s, false)
    && (s[0] == '0' ==> |s| == 1)
    && RadixValue(s, false) <= MaxArrayIndex
  }

  type IndexKey = s: string | IsArrayIndex(s) witness "0"

  function IndexValue(k: IndexKey): nat {
    RadixValue(k, false)
  }

  lemma {:induction false} ArrayIndexOfInt(n: int)
    ensures IsArrayIndex(IntToString(n)) <==> 0 <= n <= MaxArrayIndex
    ensures 0 <= n <= MaxArrayIndex ==> IndexValue(IntToString(n)) == n
  {
    NatToStringDigits(if n < 0 then -n else n);
    if n < 0 {
      assert IntToString(n)[0] == '-';
      assert !IsDecimalDigit(IntToString(n)[0]);
    }
  }

  /** The white space and line terminators parseInt skips (StrWhiteSpaceChar). */
  predicate IsWhiteSpace(c: char) {
    || c == '\t' || c == '\U{B}' || c == '\U{C}' || c == ' ' || c == '\U{A0}' || c == '\U{FEFF}'
    || c == '\n' || c == '\r' || c == '\U{2028}' || c == '\U{2029}'
    || c == '\U{1680}' || ('\U{2000}' <= c <= '\U{200A}') || c == '\U{202F}' || c == '\U{205F}' || c == '\U{3000}'
  }

  function TrimStart(s: string): string {
    if s != [] && IsWhiteSpace(s[0]) then TrimStart(s[1..]) else s
  }

  /** TrimStart drops the white space that begins s and stops at the first character that is not white space. */
  lemma {:induction false} TrimStartSuffix(s: string)
    ensures var t := TrimStart(s);
      && |t| <= |s| && t == s[|s| - |t|..]
      && (forall i :: 0 <= i < |s| - |t| ==> IsWhiteSpace(s[i]))
      && (t != [] ==> !IsWhiteSpace(t[0]))
  {
    if s != [] && IsWhiteSpace(s[0]) {
      TrimStartSuffix(s[1..]);
      assert forall i :: 0 < i < |s| ==> s[i] == s[1..][i - 1];
    }
  }

  /** The longest prefix of s made of digits of the radix. */
  function DigitPrefix(s: string, hex: bool): string {
    if s != [] && IsRadixDigit(s[0], hex) then [s[0]] + DigitPrefix(s[1..], hex) else []
  }

  /** DigitPrefix is a prefix of s, all digits, and the next character is not a digit. */
  lemma {:induction false} DigitPrefixLongest(s: string, hex: bool)
    ensures var z := DigitPrefix(s, hex);
      && |z| <= |s| && z == s[..|z|] && AllDigits(z, hex)
      && (|z| < |s| ==> !IsRadixDigit(s[|z|], hex))
  {
    if s != [] && IsRadixDigit(s[0], hex) {
      DigitPrefixLongest(s[1..], hex);
      var z := DigitPrefix(s, hex);
      var rest := DigitPrefix(s[1..], hex);
      assert z == [s[0]] + rest;
      assert forall i :: 0 < i < |z| ==> z[i] == rest[i - 1];
    }
  }

  /**
   * parseInt(s) with no radix argument (section 19.2.5 of ECMA-262): skip
   * leading white space, take an optional sign, switch to base 16 on a
   * "0x"/"0X" prefix, then read the longest run of digits; no digit gives NaN.
   * A negative zero is folded into zero, which neither === nor includes
   * tells apart from it.
   */
  function ParseInt(s: string): Number {
    ParseSigned(TrimStart(s))
  }

  function ParseSigned(t: string): Number {
    if |t| > 0 && t[0] == '-' then Negate(ParseUnsigned(t[1..]))
    else if |t| > 0 && t[0] == '+' then ParseUnsigned(t[1..])
    else ParseUnsigned(t)
  }

  function Negate(n: Number): Number {
    match n
    case NaN => NaN
    case Int(v) => Int(-v)
  }

  function ParseUnsigned(u: string): Number {
    var hex := |u| >= 2 && u[0] == '0' && (u[1] == 'x' || u[1] == 'X');
    var z := DigitPrefix(if hex then u[2..] else u, hex);
    DigitPrefixLongest(if hex then u[2..] else u, hex);
    if z == [] then NaN else Int(RadixValue(z, hex))
  }

  lemma {:induction false} DigitPrefixOfDigits(s: string, hex: bool)
    requires AllDigits(s, hex)
    ensures DigitPrefix(s, hex) == s
  {
    if s != [] {
      DigitPrefixOfDigits(s[1..], hex);
    }
  }

  /** parseInt(String(n)) == n: a numeric key is read back as the number it came from. */
  lemma ParseIntOfIntToString(n: int)
    ensures ParseInt(IntToString(n)) == Int(n)
  {
    var m: nat := if n < 0 then -n else n;
    var digits := NatToString(m);
    NatToStringDigits(m);
    ParseUnsignedOfNatToString(m);
    var s := IntToString(n);
    if n < 0 {
      assert s == "-" + digits;
      assert s[1..] == digits;
    }
    assert !IsWhiteSpace(s[0]);
    assert TrimStart(s) == s;
  }

  lemma ParseUnsignedOfNatToString(m: nat)
    ensures ParseUnsigned(NatToString(m)) == Int(m)
  {
    var digits := NatToString(m);
    NatToStringDigits(m);
    DigitPrefixOfDigits(digits, false);
    assert !(|digits| >= 2 && digits[0] == '0');
  }
}
