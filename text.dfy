/**
 * Decimal numerals as Go's `fmt` (%d) and `time` packages write them, and
 * the fixed-width digit fields that `time.Parse` reads back.
 */
module Text {

  predicate IsDigit(c: char) { '0' <= c <= '9' }

  predicate AllDigits(s: string) { forall i :: 0 <= i < |s| ==> IsDigit(s[i]) }

  function Digit(d: int): (c: char)
    requires 0 <= d <= 9
    ensures IsDigit(c) && DigitValue(c) == d
  {
    ('0' as int + d) as char
  }

  function DigitValue(c: char): (d: int)
    requires IsDigit(c)
    ensures 0 <= d <= 9
  {
    c as int - '0' as int
  }

  /** The number a string of digits denotes, most significant digit first. */
  function DigitsValue(s: string): nat
    requires AllDigits(s)
  {
    if s == [] then 0 else DigitsValue(s[..|s| - 1]) * 10 + DigitValue(s[|s| - 1])
  }

  /** The digits of `n` with no leading zero (`%d` of a non-negative number). */
  function Decimal(n: nat): (s: string)
    ensures 1 <= |s| && AllDigits(s)
  {
    if n < 10 then [Digit(n)] else Decimal(n / 10) + [Digit(n % 10)]
  }

  /** `s` preceded by as many '0' as it takes to reach `width` characters. */
  function ZeroPad(s: string, width: nat): (r: string)
    ensures |r| == if |s| < width then width else |s|
    ensures r[|r| - |s|..] == s
    ensures forall i :: 0 <= i < |r| - |s| ==> r[i] == '0'
  {
    if |s| < width then seq(width - |s|, _ => '0') + s else s
  }

  /**
   * Go's `appendInt(b, x, width)` from package `time`: a '-' for a negative
   * value, then the magnitude written with at least `width` digits; two- and
   * four-digit fields take the fast path that writes each digit directly.
   */
  function PaddedInt(x: int, width: nat): string
  {
    var u := if x < 0 then -x else x;
    var sign := if x < 0 then "-" else "";
    if width == 2 && u < 100 then
      sign + [Digit(u / 10), Digit(u % 10)]
    else if width == 4 && u < 10000 then
      sign + [Digit(u / 1000), Digit(u / 100 % 10), Digit(u / 10 % 10), Digit(u % 10)]
    else
      sign + ZeroPad(Decimal(u), width)
  }

  /** `fmt.Sprintf("%d", x)`. */
  function FormatInt(x: int): string
  {
    if x < 0 then "-" + Decimal(-x) else Decimal(x)
  }

  /** `%d` writes the sign only for a negative number, then digits that read back as the magnitude. */
  lemma FormatIntDigits(x: int)
    ensures var s := FormatInt(x);
            && (x >= 0 ==> AllDigits(s) && DigitsValue(s) == x)
            && (x < 0 ==> |s| >= 2 && s[0] == '-' && AllDigits(s[1..]) && DigitsValue(s[1..]) == -x)
  {
    if x >= 0 {
      DecimalRoundTrip(x);
    } else {
      DecimalRoundTrip(-x);
      assert FormatInt(x)[1..] == Decimal(-x);
    }
  }

  lemma {:induction false} DecimalRoundTrip(n: nat)
    ensures DigitsValue(Decimal(n)) == n
  {
    if n >= 10 {
      var s := Decimal(n);
      assert s[..|s| - 1] == Decimal(n / 10);
      DecimalRoundTrip(n / 10);
    }
  }

  /** Two digit characters read back as the number they denote. */
  lemma TwoDigitsValue(s: string)
    requires |s| == 2 && AllDigits(s)
    ensures DigitsValue(s) == 10 * DigitValue(s[0]) + DigitValue(s[1])
  {
    var a := s[..1];
    assert a[..0] == [] && a[0] == s[0];
    assert DigitsValue(a) == DigitValue(s[0]);
    assert s[..|s| - 1] == a;
  }

  lemma FourDigitsValue(s: string)
    requires |s| == 4 && AllDigits(s)
    ensures DigitsValue(s) == 1000 * DigitValue(s[0]) + 100 * DigitValue(s[1])
                              + 10 * DigitValue(s[2]) + DigitValue(s[3])
  {
    var a, b := s[..2], s[..3];
    TwoDigitsValue(a);
    assert b[..2] == a && b[2] == s[2];
    assert DigitsValue(b) == DigitsValue(a) * 10 + DigitValue(s[2]);
    assert s[..3] == b;
  }

  /** A two-digit field is written as exactly two digits, and reading them gives the number back. */
  lemma PaddedTwo(n: int)
    requires 0 <= n <= 99
    ensures var s := PaddedInt(n, 2); |s| == 2 && AllDigits(s) && DigitsValue(s) == n
  {
    TwoDigitsValue(PaddedInt(n, 2));
  }

  /** Any two digits are the two-digit field of the number they denote. */
  lemma TwoDigitsCanonical(s: string)
    requires |s| == 2 && AllDigits(s)
    ensures DigitsValue(s) <= 99 && PaddedInt(DigitsValue(s), 2) == s
  {
    TwoDigitsValue(s);
  }

  /** The four decimal digits of a number below 10000, as the fast path of `PaddedInt` extracts them. */
  lemma FourDigitSplit(n: int, a: int, b: int, c: int, d: int)
    requires 0 <= a <= 9 && 0 <= b <= 9 && 0 <= c <= 9 && 0 <= d <= 9
    ensures n == 1000 * a + 100 * b + 10 * c + d
        <==> n / 1000 == a && n / 100 % 10 == b && n / 10 % 10 == c && n % 10 == d && 0 <= n
  {
    if n == 1000 * a + 100 * b + 10 * c + d {
      assert n / 10 == 100 * a + 10 * b + c;
      assert n / 100 == n / 10 / 10 == 10 * a + b;
      assert n / 1000 == n / 100 / 10 == a;
    }
    if n / 1000 == a && n / 100 % 10 == b && n / 10 % 10 == c && n % 10 == d && 0 <= n {
      assert n / 100 / 10 == n / 1000;
      assert n / 10 / 10 == n / 100;
      assert n / 100 == 10 * a + b;
      assert n / 10 == 10 * (n / 100) + c;
    }
  }

  lemma PaddedFour(n: int)
    requires 0 <= n <= 9999
    ensures var s := PaddedInt(n, 4); |s| == 4 && AllDigits(s) && DigitsValue(s) == n
  {
    var s := PaddedInt(n, 4);
    assert s == [Digit(n / 1000), Digit(n / 100 % 10), Digit(n / 10 % 10), Digit(n % 10)];
    FourDigitsValue(s);
    FourDigitSplit(n, n / 1000, n / 100 % 10, n / 10 % 10, n % 10);
  }

  lemma FourDigitsCanonical(s: string)
    requires |s| == 4 && AllDigits(s)
    ensures DigitsValue(s) <= 9999 && PaddedInt(DigitsValue(s), 4) == s
  {
    FourDigitsValue(s);
    var a, b, c, d := DigitValue(s[0]), DigitValue(s[1]), DigitValue(s[2]), DigitValue(s[3]);
    FourDigitSplit(DigitsValue(s), a, b, c, d);
    assert Digit(a) == s[0] && Digit(b) == s[1] && Digit(c) == s[2] && Digit(d) == s[3];
  }
}
