/**
 * Decimal rendering of natural numbers, as Rust's `{}` and `{:02}` formats and chrono's
 * `%Y`, `%m`, `%d` produce it, together with the reading back of a digit string.
 */
module Decimal {

  predicate IsDigit(c: char)
  {
    '0' <= c <= '9'
  }

  predicate IsDigits(s: string)
  {
    forall i :: 0 <= i < |s| ==> IsDigit(s[i])
  }

  /** A digit string never contains the path separator. */
  lemma DigitsHaveNoSlash(s: string)
    requires IsDigits(s)
    ensures '/' !in s
  {
  }

  function DigitChar(d: nat): (c: char)
    requires d < 10
    ensures IsDigit(c)
  {
    ('0' as int + d) as char
  }

  function DigitValue(c: char): nat
    requires IsDigit(c)
  {
    c as int - '0' as int
  }

  function Pow10(k: nat): nat
  {
    if k == 0 then 1 else 10 * Pow10(k - 1)
  }

  /** The decimal digits of `n`, most significant first, with no leading zero ("0" for zero). */
  function Digits(n: nat): (s: string)
    ensures |s| >= 1 && IsDigits(s)
    decreases n
  {
    if n < 10 then [DigitChar(n)] else Digits(n / 10) + [DigitChar(n % 10)]
  }

  /** A string of `k` zeros. */
  function Zeros(k: nat): (s: string)
    ensures |s| == k && IsDigits(s)
  {
    seq(k, _ => '0')
  }

  /** The digits of `n`, left-padded with zeros to at least `width` characters. */
  function Padded(n: nat, width: nat): string
  {
    var d := Digits(n);
    (if |d| < width then Zeros(width - |d|) else []) + d
  }

  /** The number a digit string denotes. */
  function Value(s: string): nat
    requires IsDigits(s)
  {
    if s == [] then 0 else 10 * Value(s[..|s| - 1]) + DigitValue(s[|s| - 1])
  }

  /** Reading back the rendered digits gives the number. */
  lemma {:induction false} DigitsRoundTrip(n: nat)
    ensures Value(Digits(n)) == n
    decreases n
  {
    if n >= 10 {
      DigitsRoundTrip(n / 10);
      var s := Digits(n);
      assert s[..|s| - 1] == Digits(n / 10);
    }
  }

  /** A number below 10^k has at most k digits, and a number of at least 10^k has more than k. */
  lemma {:induction false} DigitsLength(n: nat, k: nat)
    ensures n < Pow10(k) && k >= 1 ==> |Digits(n)| <= k
    ensures Pow10(k) <= n ==> |Digits(n)| > k
    decreases n
  {
    if n >= 10 {
      if k >= 1 {
        DigitsLength(n / 10, k - 1);
        assert n < Pow10(k) ==> n / 10 < Pow10(k - 1);
        assert Pow10(k) <= n ==> Pow10(k - 1) <= n / 10;
      }
    } else if k >= 1 {
      Pow10AtLeastTen(k);
    }
  }

  lemma {:induction false} Pow10AtLeastTen(k: nat)
    requires k >= 1
    ensures Pow10(k) >= 10
  {
    if k > 1 {
      Pow10AtLeastTen(k - 1);
    }
  }

  /** Leading zeros do not change the value of a digit string. */
  lemma {:induction false} ValueLeadingZeros(k: nat, s: string)
    requires IsDigits(s)
    ensures IsDigits(Zeros(k) + s)
    ensures Value(Zeros(k) + s) == Value(s)
    decreases |s|
  {
    var z := Zeros(k);
    if s == [] {
      assert z + s == z;
      ValueZeros(k);
    } else {
      var t := z + s;
      assert t[..|t| - 1] == z + s[..|s| - 1];
      ValueLeadingZeros(k, s[..|s| - 1]);
    }
  }

  lemma {:induction false} ValueZeros(k: nat)
    ensures Value(Zeros(k)) == 0
  {
    if k > 0 {
      assert Zeros(k)[..k - 1] == Zeros(k - 1);
      ValueZeros(k - 1);
    }
  }

  /** A padded rendering is a digit string of the requested width (or wider) denoting `n`. */
  lemma PaddedRoundTrip(n: nat, width: nat)
    ensures IsDigits(Padded(n, width))
    ensures Value(Padded(n, width)) == n
    ensures |Padded(n, width)| == if |Digits(n)| < width then width else |Digits(n)|
  {
    var d := Digits(n);
    DigitsRoundTrip(n);
    if |d| < width {
      ValueLeadingZeros(width - |d|, d);
    } else {
      assert Padded(n, width) == d;
    }
  }

  /** Below 10^width, the padded rendering has exactly `width` digits. */
  lemma PaddedWidth(n: nat, width: nat)
    requires 1 <= width && n < Pow10(width)
    ensures |Padded(n, width)| == width
  {
    DigitsLength(n, width);
    PaddedRoundTrip(n, width);
  }
}
