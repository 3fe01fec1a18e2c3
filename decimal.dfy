/** Base-10 rendering of integers, as AssemblyScript's `i32.toString()` produces it:
    an optional '-' sign followed by the digits of the magnitude, most significant
    first, without leading zeros. The parser is the partner that proves the
    rendering loses nothing. */
module Decimal {

  predicate IsDigit(c: char) {
    '0' <= c <= '9'
  }

  predicate IsDigits(s: string) {
    forall c :: c in s ==> IsDigit(c)
  }

  /** Every character is a digit or a minus sign: in particular no ',', '}' or blank. */
  predicate IsNumeral(s: string) {
    forall c :: c in s ==> IsDigit(c) || c == '-'
  }

  function DigitValue(c: char): (d: nat)
    requires IsDigit(c)
    ensures d < 10
  {
    c as int - '0' as int
  }

  function DigitChar(d: nat): (c: char)
    requires d < 10
    ensures IsDigit(c) && DigitValue(c) == d
  {
    ('0' as int + d) as char
  }

  /** The digits of a natural number; "0" for zero, no leading zeros otherwise. */
  function NatToDec(n: nat): (s: string)
    ensures 1 <= |s| && IsDigits(s) && IsDigit(s[0])
    ensures s[0] == '0' <==> n == 0
  {
    if n < 10 then [DigitChar(n)] else NatToDec(n / 10) + [DigitChar(n % 10)]
  }

  /** `toString()` of a signed integer. */
  function IntToDec(n: int): (s: string)
    ensures 1 <= |s| && IsNumeral(s)
    ensures s[0] == '-' <==> n < 0
  {
    if n < 0 then "-" + NatToDec(-n) else NatToDec(n)
  }

  function ParseNat(s: string): nat
    requires IsDigits(s)
  {
    if s == [] then 0 else 10 * ParseNat(s[..|s| - 1]) + DigitValue(s[|s| - 1])
  }

  /** Strings IntToDec can produce the shape of: digits, optionally after one '-'. */
  predicate IsDecimal(s: string) {
    if |s| > 0 && s[0] == '-' then IsDigits(s[1..]) else IsDigits(s)
  }

  function ParseDec(s: string): int
    requires IsDecimal(s)
  {
    if |s| > 0 && s[0] == '-' then -(ParseNat(s[1..]) as int) else ParseNat(s)
  }

  lemma {:induction false} ParseNatToDec(n: nat)
    ensures ParseNat(NatToDec(n)) == n
  {
    if n >= 10 {
      var s := NatToDec(n);
      assert s[..|s| - 1] == NatToDec(n / 10);
      ParseNatToDec(n / 10);
    }
  }

  /** Parsing the rendering gives the number back. */
  lemma DecRoundTrip(n: int)
    ensures IsDecimal(IntToDec(n)) && ParseDec(IntToDec(n)) == n
  {
    if n < 0 {
      assert IntToDec(n)[1..] == NatToDec(-n);
      ParseNatToDec(-n);
    } else {
      ParseNatToDec(n);
    }
  }

  /** Two integers with the same rendering are equal. */
  lemma DecInjective(a: int, b: int)
    requires IntToDec(a) == IntToDec(b)
    ensures a == b
  {
    DecRoundTrip(a);
    DecRoundTrip(b);
  }

  function Pow10(k: nat): (p: nat)
    ensures p >= 1
  {
    if k == 0 then 1 else 10 * Pow10(k - 1)
  }

  lemma {:induction false} NatToDecLength(n: nat, k: nat)
    requires 1 <= k && n < Pow10(k)
    ensures |NatToDec(n)| <= k
  {
    if n >= 10 {
      assert k >= 2;
      NatToDecLength(n / 10, k - 1);
    }
  }

  /** A 32-bit signed value renders in at most eleven characters (sign and ten digits). */
  lemma I32DecLength(n: int)
    requires -0x8000_0000 <= n < 0x8000_0000
    ensures |IntToDec(n)| <= 11
  {
    assert Pow10(10) == 10_000_000_000;
    if n < 0 {
      NatToDecLength(-n, 10);
    } else {
      NatToDecLength(n, 10);
    }
  }

  /** The smallest i32 keeps all its digits: the sign is not lost by negating it. */
  lemma MinI32Dec()
    ensures IntToDec(-0x8000_0000) == "-2147483648"
  {
    assert NatToDec(214) == "214";
    assert NatToDec(214748) == "214748";
    assert NatToDec(214748364) == "214748364";
  }
}
