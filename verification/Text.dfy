/** Decimal numerals as text: plain numerals, zero-padded numerals and fixed-point numerals,
    each with the parser that undoes it. */
module Text {
  import opened Wrappers

  predicate IsDigit(c: char) {
    '0' <= c <= '9'
  }

  function DigitChar(d: nat): char
    requires d < 10
  {
    '0' + d as char
  }

  function DigitValue(c: char): nat
    requires IsDigit(c)
  {
    c as int - '0' as int
  }

  predicate ColonFree(s: string) {
    forall k :: 0 <= k < |s| ==> s[k] != ':'
  }

  ghost predicate AllDigits(s: string) {
    forall k :: 0 <= k < |s| ==> IsDigit(s[k])
  }

  /** The shortest decimal numeral of `n`. */
  function Digits(n: nat): (s: string)
    ensures |s| > 0
    ensures AllDigits(s)
  {
    if n < 10 then [DigitChar(n)] else Digits(n / 10) + [DigitChar(n % 10)]
  }

  /** Reads a non-empty run of digits; anything else is rejected. */
  function ParseDigits(s: string): Option<nat> {
    if s == [] || !IsDigit(s[|s| - 1]) then None
    else if |s| == 1 then Some(DigitValue(s[0]))
    else
      match ParseDigits(s[..|s| - 1])
      case None => None
      case Some(n) => Some(10 * n + DigitValue(s[|s| - 1]))
  }

  lemma {:induction false} DigitsRoundTrip(n: nat)
    ensures ParseDigits(Digits(n)) == Some(n)
  {
    if n >= 10 {
      DigitsRoundTrip(n / 10);
      var s := Digits(n);
      assert s[..|s| - 1] == Digits(n / 10);
    }
  }

  lemma DigitsInjective(m: nat, n: nat)
    requires Digits(m) == Digits(n)
    ensures m == n
  {
    DigitsRoundTrip(m);
    DigitsRoundTrip(n);
  }

  function Zeros(n: nat): (s: string)
    ensures |s| == n && forall k :: 0 <= k < n ==> s[k] == '0'
  {
    seq(n, _ => '0')
  }

  /** `n` padded on the left with zeros to at least `width` characters. */
  function Padded(n: nat, width: nat): (s: string)
    ensures |s| >= width && |s| >= |Digits(n)| && AllDigits(s)
  {
    var d := Digits(n);
    if |d| >= width then d else Zeros(width - |d|) + d
  }

  lemma {:induction false} LeadingZeros(k: nat, s: string)
    requires s != [] && AllDigits(s)
    ensures ParseDigits(Zeros(k) + s) == ParseDigits(s)
  {
    var t := Zeros(k) + s;
    if |s| > 1 {
      LeadingZeros(k, s[..|s| - 1]);
      assert t[..|t| - 1] == Zeros(k) + s[..|s| - 1];
    } else if k > 0 {
      LeadingZeros(k - 1, "0");
      assert t[..|t| - 1] == Zeros(k - 1) + "0";
    } else {
      assert t == s;
    }
  }

  lemma PaddedRoundTrip(n: nat, width: nat)
    ensures ParseDigits(Padded(n, width)) == Some(n)
  {
    DigitsRoundTrip(n);
    var d := Digits(n);
    if |d| < width {
      LeadingZeros(width - |d|, d);
    }
  }

  function Pow10(n: nat): (p: nat)
    ensures p > 0
  {
    if n == 0 then 1 else 10 * Pow10(n - 1)
  }

  /** A numeral has at most `k` characters exactly when its value is below `10^k`. */
  lemma {:induction false} DigitsLength(n: nat, k: nat)
    requires k > 0
    ensures |Digits(n)| <= k <==> n < Pow10(k)
  {
    if n >= 10 {
      if k > 1 {
        DigitsLength(n / 10, k - 1);
        assert Pow10(k) == 10 * Pow10(k - 1);
      } else {
        assert Pow10(1) == 10 * Pow10(0);
      }
    } else {
      assert Pow10(k) >= 10 by {
        assert Pow10(k) == 10 * Pow10(k - 1);
      }
    }
  }

  function Quotient(m: nat, p: nat): (q: nat)
    requires p > 0
  {
    m / p
  }

  function Remainder(m: nat, p: nat): (r: nat)
    requires p > 0
    ensures r < p && Recombined(Quotient(m, p), r, p) == m
  {
    m % p
  }

  function Recombined(q: nat, r: nat, p: nat): nat {
    q * p + r
  }

  /** The value `v / 10^places` written the way a fixed-scale decimal column prints: an optional
      minus sign, an integer part, a point and exactly `places` fraction digits. */
  function PrintFixed(v: int, places: nat): string
  {
    if v < 0 then "-" + PrintUnsigned(-v, places) else PrintUnsigned(v, places)
  }

  function PrintUnsigned(m: nat, places: nat): string {
    Digits(Quotient(m, Pow10(places))) + "." + Padded(Remainder(m, Pow10(places)), places)
  }

  function ParseFixed(s: string, places: nat): Option<int> {
    if s != [] && s[0] == '-' then
      match ParseUnsigned(s[1..], places)
      case None => None
      case Some(m) => Some(-m)
    else
      ParseUnsigned(s, places)
  }

  function ParseUnsigned(s: string, places: nat): Option<int> {
    if |s| < places + 2 || s[|s| - places - 1] != '.' then None
    else
      match (ParseDigits(s[..|s| - places - 1]), ParseDigits(s[|s| - places..]))
      case (Some(whole), Some(fraction)) => Some(Recombined(whole, fraction, Pow10(places)))
      case _ => None
  }

  lemma UnsignedRoundTrip(m: nat, places: nat)
    requires places > 0
    ensures ParseUnsigned(PrintUnsigned(m, places), places) == Some(m)
    ensures PrintUnsigned(m, places)[0] != '-'
  {
    var q, r := Quotient(m, Pow10(places)), Remainder(m, Pow10(places));
    var whole, fraction := Digits(q), Padded(r, places);
    var u := whole + "." + fraction;
    DigitsLength(r, places);
    assert |fraction| == places;
    assert u[..|u| - places - 1] == whole;
    assert u[|u| - places..] == fraction;
    DigitsRoundTrip(q);
    PaddedRoundTrip(r, places);
    assert u[0] == whole[0] && IsDigit(whole[0]);
  }

  lemma SignIsRead(u: string, m: int, places: nat)
    requires u != [] && u[0] != '-' && ParseUnsigned(u, places) == Some(m)
    ensures ParseFixed(u, places) == Some(m) && ParseFixed("-" + u, places) == Some(-m)
  {
    assert ("-" + u)[1..] == u;
  }

  /** Printing at a fixed scale loses nothing: the text reads back as the value it came from. */
  lemma FixedRoundTrip(v: int, places: nat)
    requires places > 0
    ensures ParseFixed(PrintFixed(v, places), places) == Some(v)
  {
    var m := if v < 0 then -v else v;
    UnsignedRoundTrip(m, places);
    SignIsRead(PrintUnsigned(m, places), m, places);
  }
}
