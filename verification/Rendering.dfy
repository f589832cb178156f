/** Decimal and fixed-width hexadecimal text, as Python's f-strings and UUID.hex produce it. */
module Rendering {

  const DIGITS: string := "0123456789"
  const HEX_DIGITS: string := "0123456789abcdef"

  predicate IsDigit(c: char) {
    '0' <= c <= '9'
  }

  predicate IsHexDigit(c: char) {
    '0' <= c <= '9' || 'a' <= c <= 'f'
  }

  function Decimal(n: nat): (s: string)
    ensures |s| > 0
    ensures forall i :: 0 <= i < |s| ==> IsDigit(s[i])
  {
    if n < 10 then [DIGITS[n]] else Decimal(n / 10) + [DIGITS[n % 10]]
  }

  lemma LastDigit(n: nat)
    ensures var s := Decimal(n); s[|s| - 1] == DIGITS[n % 10]
    ensures var s := Decimal(n); s[..|s| - 1] == if n < 10 then "" else Decimal(n / 10)
  {
  }

  lemma DigitInjective(a: nat, b: nat)
    requires a < 10 && b < 10 && DIGITS[a] == DIGITS[b]
    ensures a == b
  {
  }

  lemma SameQuotientAndDigit(m: nat, n: nat)
    requires m / 10 == n / 10 && m % 10 == n % 10
    ensures m == n
  {
  }

  /** Different numbers have different decimal texts. */
  lemma {:induction false} DecimalInjective(m: nat, n: nat)
    requires Decimal(m) == Decimal(n)
    ensures m == n
  {
    LastDigit(m);
    LastDigit(n);
    DigitInjective(m % 10, n % 10);
    if m >= 10 && n >= 10 { DecimalInjective(m / 10, n / 10); }
    SameQuotientAndDigit(m, n);
  }

  function PowerOfTen(d: nat): (p: nat)
    ensures p >= 1
  {
    if d == 0 then 1 else 10 * PowerOfTen(d - 1)
  }

  /** A positive number of digits d suffices exactly for the numbers below 10^d. */
  lemma {:induction false} DecimalLength(n: nat, d: nat)
    requires d >= 1
    ensures |Decimal(n)| <= d <==> n < PowerOfTen(d)
  {
    if n < 10 {
      assert PowerOfTen(d) == 10 * PowerOfTen(d - 1);
    } else if d == 1 {
      assert PowerOfTen(1) == 10 * PowerOfTen(0);
      assert |Decimal(n / 10)| >= 1;
    } else {
      DecimalLength(n / 10, d - 1);
      assert PowerOfTen(d) == 10 * PowerOfTen(d - 1);
    }
  }

  /** The lowest `width` hexadecimal digits of n, most significant first. */
  function Hex(n: nat, width: nat): (s: string)
    ensures |s| == width
    ensures forall i :: 0 <= i < |s| ==> IsHexDigit(s[i])
  {
    if width == 0 then "" else Hex(n / 16, width - 1) + [HEX_DIGITS[n % 16]]
  }

  function DigitValue(c: char): nat {
    if '0' <= c <= '9' then c as nat - '0' as nat
    else if 'a' <= c <= 'f' then c as nat - 'a' as nat + 10
    else 0
  }

  /** The number that a text of digits stands for. */
  function Read(s: string, base: nat): nat {
    if s == "" then 0 else base * Read(s[..|s| - 1], base) + DigitValue(s[|s| - 1])
  }

  /** Decimal text reads back as the number. */
  lemma {:induction false} DecimalReadsBack(n: nat)
    ensures Read(Decimal(n), 10) == n
  {
    LastDigit(n);
    if n >= 10 { DecimalReadsBack(n / 10); }
  }

  function PowerOf16(d: nat): (p: nat)
    ensures p >= 1
  {
    if d == 0 then 1 else 16 * PowerOf16(d - 1)
  }

  /** Fixed-width hexadecimal text reads back as the number, if it has room for it. */
  lemma {:induction false} HexReadsBack(n: nat, width: nat)
    requires n < PowerOf16(width)
    ensures Read(Hex(n, width), 16) == n
  {
    if width > 0 {
      HexReadsBack(n / 16, width - 1);
      assert Hex(n, width)[..width - 1] == Hex(n / 16, width - 1);
    }
  }
}
