/**
 * The few pieces of java.lang.String and java.lang.Long the core relies on:
 * ASCII lower-casing, String.trim, startsWith, Long.toString and Long.parseLong.
 */
module Strings {
  import opened Wrappers

  /** Long.MIN_VALUE and Long.MAX_VALUE. */
  const LongMin: int := -0x8000_0000_0000_0000
  const LongMax: int :=  0x7FFF_FFFF_FFFF_FFFF

  function LowerChar(c: char): (r: char)
    ensures 'A' <= c <= 'Z' ==> r as int == c as int + 32
    ensures !('A' <= c <= 'Z') ==> r == c
  {
    if 'A' <= c <= 'Z' then (c as int + 32) as char else c
  }

  /** String.toLowerCase, restricted to the ASCII letters. */
  function ToLower(s: string): (r: string)
    ensures |r| == |s|
    ensures forall i :: 0 <= i < |s| ==> r[i] == LowerChar(s[i])
  {
    seq(|s|, i requires 0 <= i < |s| => LowerChar(s[i]))
  }

  predicate IsLower(s: string) {
    forall i :: 0 <= i < |s| ==> !('A' <= s[i] <= 'Z')
  }

  lemma ToLowerIsLower(s: string)
    ensures IsLower(ToLower(s))
    ensures ToLower(ToLower(s)) == ToLower(s)
  {
  }

  lemma ToLowerAppend(a: string, b: string)
    ensures ToLower(a + b) == ToLower(a) + ToLower(b)
  {
  }

  function StartsWith(s: string, prefix: string): bool {
    |prefix| <= |s| && s[..|prefix|] == prefix
  }

  /** The characters String.trim removes: every code point up to U+0020. */
  predicate IsTrimmable(c: char) {
    c <= ' '
  }

  predicate IsBlank(s: string) {
    forall i :: 0 <= i < |s| ==> IsTrimmable(s[i])
  }

  /** How many trimmable characters `s` starts with (String.trim's first scan). */
  function Leading(s: string): (n: nat)
    ensures n <= |s|
    ensures forall i :: 0 <= i < n ==> IsTrimmable(s[i])
    ensures n < |s| ==> !IsTrimmable(s[n])
  {
    if |s| > 0 && IsTrimmable(s[0]) then 1 + Leading(s[1..]) else 0
  }

  /** How many trimmable characters `s` ends with (String.trim's second scan). */
  function Trailing(s: string): (n: nat)
    ensures n <= |s|
    ensures forall i :: |s| - n <= i < |s| ==> IsTrimmable(s[i])
    ensures n < |s| ==> !IsTrimmable(s[|s| - n - 1])
  {
    if |s| > 0 && IsTrimmable(s[|s| - 1]) then 1 + Trailing(s[..|s| - 1]) else 0
  }

  /**
   * String.trim: `s` without its leading and its trailing characters up to U+0020.
   * What is left neither starts nor ends with such a character.
   */
  function Trim(s: string): (r: string)
    ensures |r| <= |s|
    ensures |r| > 0 ==> !IsTrimmable(r[0]) && !IsTrimmable(r[|r| - 1])
  {
    var t := s[Leading(s)..];
    t[..|t| - Trailing(t)]
  }

  /** trim().isEmpty() holds exactly when every character is trimmable. */
  lemma TrimEmptyIffBlank(s: string)
    ensures Trim(s) == [] <==> IsBlank(s)
  {
  }

  predicate IsDigit(c: char) {
    '0' <= c <= '9'
  }

  predicate AllDigits(s: string) {
    forall i :: 0 <= i < |s| ==> IsDigit(s[i])
  }

  function DigitChar(d: nat): (c: char)
    requires d < 10
    ensures IsDigit(c)
  {
    ('0' as int + d) as char
  }

  function DigitValue(c: char): (d: nat)
    requires IsDigit(c)
    ensures d < 10 && DigitChar(d) == c
  {
    c as int - '0' as int
  }

  /** The decimal digits of `n`, most significant first, without leading zeros. */
  function NatToDecimal(n: nat): (r: string)
    ensures |r| >= 1 && IsDigit(r[0])
    ensures |r| > 1 ==> r[0] != '0'
  {
    if n < 10 then [DigitChar(n)] else NatToDecimal(n / 10) + [DigitChar(n % 10)]
  }

  /** Long.toString: a minus sign before the digits of a negative number. */
  function IntToDecimal(i: int): (r: string)
    ensures |r| >= 1
  {
    if i < 0 then "-" + NatToDecimal(-i) else NatToDecimal(i)
  }

  /** The number a run of decimal digits denotes. */
  function DigitsValue(s: string): nat
    requires AllDigits(s)
  {
    if |s| == 0 then 0 else DigitsValue(s[..|s| - 1]) * 10 + DigitValue(s[|s| - 1])
  }

  /** The decimal digits of `n` are digits, and they denote `n`. */
  lemma {:induction false} DigitsValueOfDecimal(n: nat)
    ensures AllDigits(NatToDecimal(n)) && DigitsValue(NatToDecimal(n)) == n
  {
    if n >= 10 {
      var r := NatToDecimal(n);
      DigitsValueOfDecimal(n / 10);
      assert r == NatToDecimal(n / 10) + [DigitChar(n % 10)];
      assert r[..|r| - 1] == NatToDecimal(n / 10);
    }
  }

  /**
   * Long.parseLong over ASCII digits: an optional '+' or '-', then at least one
   * digit, and a value in the 64-bit range; anything else is a NumberFormatException.
   */
  function ParseLong(s: string): (r: Option<int>)
    ensures r.Some? ==> LongMin <= r.value <= LongMax
  {
    var negative := |s| > 0 && s[0] == '-';
    var digits := if |s| > 0 && (s[0] == '-' || s[0] == '+') then s[1..] else s;
    if |digits| == 0 || !AllDigits(digits) then None
    else
      var v: int := if negative then -(DigitsValue(digits) as int) else DigitsValue(digits);
      if LongMin <= v <= LongMax then Some(v) else None
  }

  /** Printing a long and parsing it back gives the same number. */
  lemma ParseLongOfDecimal(i: int)
    requires LongMin <= i <= LongMax
    ensures ParseLong(IntToDecimal(i)) == Some(i)
  {
    if i < 0 {
      DigitsValueOfDecimal(-i);
      ParseNegative(IntToDecimal(i), NatToDecimal(-i));
    } else {
      DigitsValueOfDecimal(i);
      ParseUnsigned(IntToDecimal(i));
    }
  }

  lemma ParseUnsigned(s: string)
    requires |s| > 0 && AllDigits(s) && DigitsValue(s) <= LongMax
    ensures ParseLong(s) == Some(DigitsValue(s))
  {
    assert IsDigit(s[0]);
  }

  lemma ParseNegative(s: string, digits: string)
    requires s == "-" + digits
    requires |digits| > 0 && AllDigits(digits) && DigitsValue(digits) <= -LongMin
    ensures ParseLong(s) == Some(-(DigitsValue(digits) as int))
  {
    assert s[1..] == digits;
  }
}
