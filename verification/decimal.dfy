/**
 * Decimal renderings of the one-time codes: Integer.toString for the OTP
 * ledger's codes and the "%06d" zero padding of the registration code.
 */
module Decimal {
  import opened Base

  predicate IsDigit(c: char)
  {
    '0' <= c <= '9'
  }

  predicate AllDigits(s: string)
  {
    forall i :: 0 <= i < |s| ==> IsDigit(s[i])
  }

  function DigitChar(d: nat): (c: char)
    requires d < 10
    ensures IsDigit(c)
  {
    ('0' as int + d) as char
  }

  function DigitValue(c: char): nat
    requires IsDigit(c)
  {
    c as int - '0' as int
  }

  function Pow10(k: nat): (r: nat)
    ensures r >= 1
  {
    if k == 0 then 1 else 10 * Pow10(k - 1)
  }

  /** The number a string of decimal digits denotes. */
  function ValueOf(s: string): nat
    requires AllDigits(s)
  {
    if s == [] then 0 else ValueOf(s[..|s| - 1]) * 10 + DigitValue(s[|s| - 1])
  }

  /** Integer.toString of a non-negative value: digits only, no leading zero,
      and denoting the value itself. */
  function ToDecimal(n: nat): (r: string)
    ensures |r| >= 1 && AllDigits(r)
    ensures ValueOf(r) == n
    ensures r[0] == '0' ==> n == 0
    decreases n
  {
    if n < 10 then [DigitChar(n)]
    else
      var prefix := ToDecimal(n / 10);
      var r := prefix + [DigitChar(n % 10)];
      assert r[..|r| - 1] == prefix;
      r
  }

  /** A value below 10^k needs at most k digits, and one of at least 10^(k-1) at least k. */
  lemma {:induction false} DecimalLength(n: nat, k: nat)
    requires k >= 1
    ensures n < Pow10(k) ==> |ToDecimal(n)| <= k
    ensures Pow10(k - 1) <= n ==> |ToDecimal(n)| >= k
  {
    if k > 1 && n >= 10 {
      DecimalLength(n / 10, k - 1);
      assert Pow10(k) == 10 * Pow10(k - 1);
      assert Pow10(k - 1) == 10 * Pow10(k - 2);
      assert n < Pow10(k) ==> n / 10 < Pow10(k - 1);
      assert Pow10(k - 1) <= n ==> Pow10(k - 2) <= n / 10;
    } else if k > 1 {
      assert Pow10(k - 1) == 10 * Pow10(k - 2);
    }
  }

  function Zeros(k: nat): (r: string)
    ensures |r| == k && AllDigits(r)
  {
    seq(k, i => '0')
  }

  /** Leading zeros do not change the value a digit string denotes. */
  lemma {:induction false} LeadingZerosNeutral(k: nat, s: string)
    requires AllDigits(s)
    ensures AllDigits(Zeros(k) + s) && ValueOf(Zeros(k) + s) == ValueOf(s)
    decreases |s|
  {
    var z := Zeros(k) + s;
    if s == [] {
      assert z == Zeros(k);
      ZerosValue(k);
    } else {
      var init := s[..|s| - 1];
      assert z[..|z| - 1] == Zeros(k) + init;
      LeadingZerosNeutral(k, init);
    }
  }

  lemma {:induction false} ZerosValue(k: nat)
    ensures ValueOf(Zeros(k)) == 0
  {
    if k > 0 {
      assert Zeros(k)[..k - 1] == Zeros(k - 1);
      ZerosValue(k - 1);
    }
  }

  /** String.format("%0<width>d", n) for a non-negative n: left-padded with
      zeros to the width, never truncated, and still denoting n. */
  function ZeroPad(n: nat, width: nat): (r: string)
    ensures |r| == Max(width, |ToDecimal(n)|)
    ensures AllDigits(r) && ValueOf(r) == n
  {
    var digits := ToDecimal(n);
    LeadingZerosNeutral(if |digits| < width then width - |digits| else 0, digits);
    if |digits| < width then Zeros(width - |digits|) + digits
    else
      assert Zeros(0) + digits == digits;
      digits
  }

  /** The registration code: "%06d" of a draw in 0..999999 is exactly six digits. */
  lemma SixDigitCode(draw: nat)
    requires draw < 1000000
    ensures |ZeroPad(draw, 6)| == 6 && AllDigits(ZeroPad(draw, 6))
    ensures ValueOf(ZeroPad(draw, 6)) == draw
  {
    assert Pow10(6) == 1000000;
    DecimalLength(draw, 6);
  }
}
