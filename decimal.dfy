/**
 * Decimal text of integers, as JavaScript's template literals print them, and
 * `parseInt(text)` with no radix, which reads them back.
 */
module Decimal {
  import opened Wrappers

  predicate IsDigit(c: char)
  {
    '0' <= c <= '9'
  }

  predicate AllDigits(s: string)
  {
    forall i :: 0 <= i < |s| ==> IsDigit(s[i])
  }

  function DigitChar(d: nat): (c: char)
    requires d < 10
    ensures IsDigit(c)
  {
    ('0' as int + d) as char
  }

  function DigitValue(c: char): (d: nat)
    requires IsDigit(c)
    ensures d < 10
  {
    c as int - '0' as int
  }

  /** The number a string of decimal digits denotes. */
  function ValueOf(s: string): nat
    requires AllDigits(s)
  {
    if s == [] then 0 else 10 * ValueOf(s[..|s| - 1]) + DigitValue(s[|s| - 1])
  }

  /** The shortest decimal text of a natural number: no leading zero except in "0". */
  function NatToString(n: nat): (s: string)
    ensures |s| >= 1 && AllDigits(s)
    ensures s[0] == '0' <==> n == 0
  {
    if n < 10 then [DigitChar(n)] else NatToString(n / 10) + [DigitChar(n % 10)]
  }

  /** The text of an integer, with a leading '-' when it is negative. */
  function IntToString(i: int): (s: string)
    ensures |s| >= 1
    ensures i < 0 <==> s[0] == '-'
  {
    if i < 0 then "-" + NatToString(-i) else NatToString(i)
  }

  /** The longest prefix made of digits. */
  function LeadingDigits(s: string): (p: string)
    ensures p <= s && AllDigits(p)
    ensures |p| < |s| ==> !IsDigit(s[|p|])
  {
    if s != [] && IsDigit(s[0]) then [s[0]] + LeadingDigits(s[1..]) else []
  }

  predicate IsHexDigit(c: char)
  {
    IsDigit(c) || 'a' <= c <= 'f' || 'A' <= c <= 'F'
  }

  predicate AllHexDigits(s: string)
  {
    forall i :: 0 <= i < |s| ==> IsHexDigit(s[i])
  }

  function HexDigitValue(c: char): (d: nat)
    requires IsHexDigit(c)
    ensures d < 16
    ensures IsDigit(c) ==> d == DigitValue(c)
  {
    if IsDigit(c) then DigitValue(c)
    else if 'a' <= c <= 'f' then c as int - 'a' as int + 10
    else c as int - 'A' as int + 10
  }

  /** The number a string of hexadecimal digits denotes. */
  function HexValueOf(s: string): nat
    requires AllHexDigits(s)
  {
    if s == [] then 0 else 16 * HexValueOf(s[..|s| - 1]) + HexDigitValue(s[|s| - 1])
  }

  /** The longest prefix made of hexadecimal digits. */
  function LeadingHexDigits(s: string): (p: string)
    ensures p <= s && AllHexDigits(p)
    ensures |p| < |s| ==> !IsHexDigit(s[|p|])
  {
    if s != [] && IsHexDigit(s[0]) then [s[0]] + LeadingHexDigits(s[1..]) else []
  }

  /** The text after an optional sign. */
  function Unsigned(s: string): string
  {
    if s != [] && (s[0] == '-' || s[0] == '+') then s[1..] else s
  }

  /** Without a radix, `parseInt` reads text starting `0x` or `0X` as hexadecimal. */
  predicate HexPrefixed(s: string)
  {
    |s| >= 2 && s[0] == '0' && (s[1] == 'x' || s[1] == 'X')
  }

  /**
   * `parseInt(s)` with no radix: an optional sign, then either `0x` or `0X` and the
   * longest run of hexadecimal digits, or the longest run of decimal digits; no
   * digits at all is NaN, written None.
   */
  function ParseInt(s: string): (r: Option<int>)
    ensures HexPrefixed(Unsigned(s)) ==> (r.None? <==> LeadingHexDigits(Unsigned(s)[2..]) == [])
    ensures !HexPrefixed(Unsigned(s)) ==> (r.None? <==> LeadingDigits(Unsigned(s)) == [])
    ensures r.Some? && r.value < 0 ==> s[0] == '-'
  {
    var body := Unsigned(s);
    var digits := if HexPrefixed(body) then LeadingHexDigits(body[2..]) else LeadingDigits(body);
    var magnitude: int :=
      if digits == [] then 0
      else if HexPrefixed(body) then HexValueOf(digits)
      else ValueOf(digits);
    if digits == [] then None
    else if s[0] == '-' then Some(-magnitude)
    else Some(magnitude)
  }

  /** Radix-less `parseInt` on a hexadecimal prefix: `"0x"` alone is NaN. */
  lemma ParseIntHexExamples()
    ensures ParseInt("0x") == None
    ensures ParseInt("0x1A") == Some(26)
    ensures ParseInt("-0Xf") == Some(-15)
  {
    assert LeadingHexDigits("1A") == "1A" by {
      assert "1A"[1..] == "A" && "A"[1..] == [];
    }
    assert "1A"[..1] == "1" && "1"[..0] == [];
    assert HexValueOf("1A") == 26;
    assert "-0Xf"[1..][2..] == "f";
    assert "0x1A"[2..] == "1A";
  }

  /** The value of one or two digits. */
  lemma ValueOfShort(s: string)
    requires 1 <= |s| <= 2 && AllDigits(s)
    ensures |s| == 1 ==> ValueOf(s) == DigitValue(s[0])
    ensures |s| == 2 ==> ValueOf(s) == 10 * DigitValue(s[0]) + DigitValue(s[1])
  {
    assert s[..|s| - 1][..0] == [];
    if |s| == 2 {
      assert s[..1] == [s[0]];
    }
  }

  lemma {:induction false} ValueOfNatToString(n: nat)
    ensures ValueOf(NatToString(n)) == n
  {
    if n >= 10 {
      var s := NatToString(n);
      assert s[..|s| - 1] == NatToString(n / 10);
      ValueOfNatToString(n / 10);
    }
  }

  lemma {:induction false} LeadingDigitsOfDigits(s: string)
    requires AllDigits(s)
    ensures LeadingDigits(s) == s
  {
    if s != [] {
      LeadingDigitsOfDigits(s[1..]);
    }
  }

  /** Reading back the printed text of any integer gives that integer. */
  lemma IntToStringRoundTrip(i: int)
    ensures ParseInt(IntToString(i)) == Some(i)
  {
    var n: nat := if i < 0 then -i else i;
    var digits := NatToString(n);
    ValueOfNatToString(n);
    LeadingDigitsOfDigits(digits);
    if i < 0 {
      assert IntToString(i)[1..] == digits;
    } else {
      assert IntToString(i) == digits;
    }
  }

  /** Printing is one-to-one: distinct integers have distinct texts. */
  lemma IntToStringInjective(i: int, j: int)
    requires IntToString(i) == IntToString(j)
    ensures i == j
  {
    IntToStringRoundTrip(i);
    IntToStringRoundTrip(j);
  }
}
