/** Decimal digit strings: how the programs print integers (JavaScript's
    number-to-string for whole numbers, Python's `%d`-style fields) and how
    they read digit runs back. */
module Decimal {

  predicate IsDigit(c: char) {
    '0' <= c <= '9'
  }

  predicate AllDigits(s: string) {
    forall i :: 0 <= i < |s| ==> IsDigit(s[i])
  }

  function DigitValue(c: char): (d: nat)
    requires IsDigit(c)
    ensures d < 10
  {
    c as int - '0' as int
  }

  function DigitChar(d: nat): (c: char)
    requires d < 10
    ensures IsDigit(c) && DigitValue(c) == d
  {
    (d + '0' as int) as char
  }

  /** The value of a run of decimal digits (leading zeros allowed). */
  function DecimalValue(s: string): nat
    requires AllDigits(s)
  {
    if s == [] then 0 else DecimalValue(s[..|s| - 1]) * 10 + DigitValue(s[|s| - 1])
  }

  function Pow10(k: nat): nat
  {
    if k == 0 then 1 else 10 * Pow10(k - 1)
  }

  /** Shortest decimal rendering of a natural number: no sign, no leading zero. */
  function NatToDecimal(n: nat): (s: string)
    ensures 1 <= |s| && AllDigits(s)
    ensures s[0] == '0' <==> n == 0
    ensures n < 10 <==> |s| == 1
  {
    if n < 10 then [DigitChar(n)] else NatToDecimal(n / 10) + [DigitChar(n % 10)]
  }

  /** JavaScript's rendering of a whole number: a minus sign before negative values. */
  function IntToDecimal(i: int): (s: string)
    ensures 1 <= |s|
    ensures s[0] == '-' <==> i < 0
    ensures i >= 0 ==> AllDigits(s)
  {
    if i < 0 then "-" + NatToDecimal(-i) else NatToDecimal(i)
  }

  /** A four-digit number prints as its four digits. */
  lemma FourDigitDecimal(n: nat, s: string)
    requires 1000 <= n < 10000 && |s| == 4
    requires s == [DigitChar(n / 1000), DigitChar(n / 100 % 10), DigitChar(n / 10 % 10), DigitChar(n % 10)]
    ensures IntToDecimal(n) == s
  {
    assert NatToDecimal(n / 1000) == [s[0]];
    assert NatToDecimal(n / 100) == [s[0], s[1]];
    assert NatToDecimal(n / 10) == [s[0], s[1], s[2]];
  }

  /** A fixed-width field padded with leading zeros, as `%02d` or `%04d` prints it. */
  function ZeroPadded(n: nat, width: nat): (s: string)
    requires n < Pow10(width)
    ensures |s| == width && AllDigits(s)
    ensures DecimalValue(s) == n
  {
    if width == 0 then []
    else
      var front := ZeroPadded(n / 10, width - 1);
      var s := front + [DigitChar(n % 10)];
      assert s[..|s| - 1] == front;
      s
  }

  /** A run of k digits is worth less than 10^k. */
  lemma {:induction false} DecimalValueBound(s: string)
    requires AllDigits(s)
    ensures DecimalValue(s) < Pow10(|s|)
  {
    if s != [] {
      var front := s[..|s| - 1];
      DecimalValueBound(front);
      assert DecimalValue(front) * 10 <= (Pow10(|front|) - 1) * 10;
    }
  }

  /** Reading back the shortest rendering gives the number. */
  lemma {:induction false} DecimalRoundTrip(n: nat)
    ensures DecimalValue(NatToDecimal(n)) == n
  {
    if n >= 10 {
      var s := NatToDecimal(n);
      assert s[..|s| - 1] == NatToDecimal(n / 10);
      DecimalRoundTrip(n / 10);
    }
  }

  lemma DecimalInjective(m: nat, n: nat)
    requires NatToDecimal(m) == NatToDecimal(n)
    ensures m == n
  {
    DecimalRoundTrip(m);
    DecimalRoundTrip(n);
  }

  /** A number's digits can be told apart from whatever non-digit text follows:
      equal strings of the form digits-then-text have equal numbers and equal text. */
  lemma DecimalPrefixUnique(m: nat, n: nat, x: string, y: string)
    requires NatToDecimal(m) + x == NatToDecimal(n) + y
    requires x == [] || !IsDigit(x[0])
    requires y == [] || !IsDigit(y[0])
    ensures m == n && x == y
  {
    var dm, dn := NatToDecimal(m), NatToDecimal(n);
    assert dm == (dm + x)[..|dm|] == (dn + y)[..|dn|] == dn;
    DecimalInjective(m, n);
    assert x == (dm + x)[|dm|..] == (dn + y)[|dn|..] == y;
  }

  /** The same for signed numbers as JavaScript prints them. */
  lemma NegativeSplit(i: int, x: string)
    requires i < 0
    ensures IntToDecimal(i) + x == "-" + (NatToDecimal(-i) + x)
  {
  }

  lemma IntPrefixUnique(m: int, n: int, x: string, y: string)
    requires IntToDecimal(m) + x == IntToDecimal(n) + y
    requires x == [] || !IsDigit(x[0])
    requires y == [] || !IsDigit(y[0])
    ensures m == n && x == y
  {
    var im, iN := IntToDecimal(m), IntToDecimal(n);
    assert (im + x)[0] == im[0] && (iN + y)[0] == iN[0];
    if m < 0 && n < 0 {
      var dm, dn := NatToDecimal(-m), NatToDecimal(-n);
      NegativeSplit(m, x);
      NegativeSplit(n, y);
      SamePrefix("-", dm + x, dn + y);
      DecimalPrefixUnique(-m, -n, x, y);
    } else if m >= 0 && n >= 0 {
      DecimalPrefixUnique(m, n, x, y);
    }
  }

  /** Equal strings after the same prefix are equal. */
  lemma SamePrefix(p: string, a: string, b: string)
    requires p + a == p + b
    ensures a == b
  {
    assert a == (p + a)[|p|..];
    assert b == (p + b)[|p|..];
  }

  lemma IntToDecimalInjective(m: int, n: int)
    requires IntToDecimal(m) == IntToDecimal(n)
    ensures m == n
  {
    assert IntToDecimal(m) + "" == IntToDecimal(n) + "";
    IntPrefixUnique(m, n, "", "");
  }
}
