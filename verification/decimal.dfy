/** Decimal rendering of natural numbers as `fmt` prints them with `%d`
    and `%0Nd`, together with the inverse parse used to state round trips. */
module Decimal {

  predicate IsDigit(c: char) {
    '0' <= c <= '9'
  }

  predicate AllDigits(s: string) {
    forall i :: 0 <= i < |s| ==> IsDigit(s[i])
  }

  function Digit(d: nat): (c: char)
    requires d < 10
    ensures IsDigit(c)
  {
    (('0' as int) + d) as char
  }

  function DigitValue(c: char): (d: nat)
    requires IsDigit(c)
    ensures d < 10
  {
    c as int - '0' as int
  }

  /** The shortest decimal numeral of `n` (`%d`). */
  function DecimalString(n: nat): (s: string)
    ensures 1 <= |s|
    ensures AllDigits(s)
    ensures n < 10 <==> |s| == 1
    ensures n < 100 ==> |s| <= 2
    ensures n < 10000 ==> |s| <= 4
    decreases n
  {
    if n < 10 then [Digit(n)] else DecimalString(n / 10) + [Digit(n % 10)]
  }

  /** The value denoted by a string of decimal digits (the empty string denotes 0). */
  function ParseDecimal(s: string): nat
    requires AllDigits(s)
  {
    if |s| == 0 then 0 else 10 * ParseDecimal(s[..|s| - 1]) + DigitValue(s[|s| - 1])
  }

  /** `k` copies of `c`. */
  function Repeat(c: char, k: nat): (s: string)
    ensures |s| == k
    ensures forall i :: 0 <= i < k ==> s[i] == c
  {
    seq(k, _ => c)
  }

  function Zeros(k: nat): string {
    Repeat('0', k)
  }

  /** `%0<width>d`: the numeral of `n`, left-padded with zeros to `width` characters. */
  function PadZero(n: nat, width: nat): (s: string)
    ensures AllDigits(s)
    ensures |s| == if |DecimalString(n)| < width then width else |DecimalString(n)|
  {
    var d := DecimalString(n);
    if |d| < width then Zeros(width - |d|) + d else d
  }

  lemma {:induction false} ParseDecimalString(n: nat)
    ensures ParseDecimal(DecimalString(n)) == n
    decreases n
  {
    var s := DecimalString(n);
    if n < 10 {
      assert s[..0] == [];
    } else {
      ParseDecimalString(n / 10);
      assert s[..|s| - 1] == DecimalString(n / 10);
    }
  }

  lemma {:induction false} ParseLeadingZeros(k: nat, s: string)
    requires AllDigits(s)
    ensures ParseDecimal(Zeros(k) + s) == ParseDecimal(s)
    decreases |s|, k
  {
    var z := Zeros(k) + s;
    if |s| == 0 {
      if k > 0 {
        assert z[..|z| - 1] == Zeros(k - 1) + s;
        ParseLeadingZeros(k - 1, s);
      }
    } else {
      var init := s[..|s| - 1];
      assert z[..|z| - 1] == Zeros(k) + init;
      ParseLeadingZeros(k, init);
    }
  }

  /** A padded numeral is the plain numeral behind `width - |numeral|` zeros, or none. */
  lemma PadZeroShape(n: nat, width: nat)
    ensures var d := DecimalString(n);
      PadZero(n, width) == Zeros(if |d| < width then width - |d| else 0) + d
  {
    var d := DecimalString(n);
    if |d| >= width {
      assert Zeros(0) + d == d;
    }
  }

  /** Zero padding never changes the value read back. */
  lemma ParsePadZero(n: nat, width: nat)
    ensures ParseDecimal(PadZero(n, width)) == n
  {
    var d := DecimalString(n);
    var k := if |d| < width then width - |d| else 0;
    PadZeroShape(n, width);
    ParseLeadingZeros(k, d);
    ParseDecimalString(n);
  }

  /** Distinct numbers have distinct numerals, so `path.i` names are distinct. */
  lemma DecimalStringInjective(a: nat, b: nat)
    requires DecimalString(a) == DecimalString(b)
    ensures a == b
  {
    ParseDecimalString(a);
    ParseDecimalString(b);
  }

  /** `%02d` of a number below 100 is exactly two digits wide. */
  lemma TwoWide(n: nat)
    requires n < 100
    ensures |PadZero(n, 2)| == 2
  {
  }

  /** `%04d` of a number below 10000 is exactly four digits wide. */
  lemma FourWide(n: nat)
    requires n < 10000
    ensures |PadZero(n, 4)| == 4
  {
  }
}
