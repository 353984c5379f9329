/**
 * Shared vocabulary of the valuation model: optional values (JavaScript's
 * `null`/`undefined`), the two rounding operations the code uses on money
 * and on day counts, and decimal digits.
 */
module Common {

  /** A value that may be absent; `None` stands for both `null` and `undefined`. */
  datatype Option<T> = None | Some(value: T) {
    /** The `x ?? d` operator. */
    function GetOr(d: T): T {
      if Some? then value else d
    }
  }

  /** A configuration value such as an API key is set when it is present and non-empty. */
  predicate Configured(key: Option<string>) {
    key.Some? && key.value != ""
  }

  function Max(a: real, b: real): (m: real)
    ensures m >= a && m >= b && (m == a || m == b)
  {
    if a >= b then a else b
  }

  /** `Math.round`: the nearest integer, halves rounded towards +infinity. */
  function Round(x: real): (n: int)
    ensures x - 0.5 < n as real <= x + 0.5
  {
    (x + 0.5).Floor
  }

  /** `Math.round(x * 100) / 100`: rounding to whole cents. */
  function RoundCents(x: real): (r: real)
    ensures x - 0.005 < r <= x + 0.005
    ensures (r * 100.0).Floor as real == r * 100.0
  {
    Round(100.0 * x) as real / 100.0
  }

  /**
   * `Number(x.toFixed(2))`: toFixed rounds the magnitude to the nearest
   * hundredth, taking the larger magnitude on a tie, and keeps the sign.
   */
  function ToFixed2(x: real): (r: real)
    ensures x - 0.005 <= r <= x + 0.005
    ensures x >= 0.0 ==> r >= 0.0
    ensures (r * 100.0).Floor as real == r * 100.0
  {
    if x < 0.0 then
      var m := RoundCents(-x);
      assert -m * 100.0 == -(m * 100.0);
      assert (m * 100.0).Floor as real == m * 100.0;
      assert (-(m * 100.0)).Floor == -((m * 100.0).Floor);
      -m
    else RoundCents(x)
  }

  lemma RoundCentsMonotone(x: real, y: real)
    requires x <= y
    ensures RoundCents(x) <= RoundCents(y)
  {
    assert (100.0 * x + 0.5).Floor <= (100.0 * y + 0.5).Floor;
  }

  /** A value already in whole cents is left alone by rounding. */
  lemma RoundCentsOfCents(n: int)
    ensures RoundCents(n as real / 100.0) == n as real / 100.0
  {
    assert 100.0 * (n as real / 100.0) + 0.5 == n as real + 0.5;
    assert (n as real + 0.5).Floor == n;
  }

  predicate IsDigit(c: char) {
    '0' <= c <= '9'
  }

  function DigitValue(c: char): (d: nat)
    requires IsDigit(c)
    ensures d < 10
  {
    (c as int) - ('0' as int)
  }

  function DigitChar(d: nat): (c: char)
    requires d < 10
    ensures IsDigit(c) && DigitValue(c) == d
  {
    ((('0' as int) + d) as char)
  }

  predicate AllDigits(s: string) {
    forall i :: 0 <= i < |s| ==> IsDigit(s[i])
  }

  /** The value of a string of decimal digits, most significant first. */
  function DigitsValue(s: string): nat
    requires AllDigits(s)
  {
    if s == [] then 0 else DigitsValue(s[..|s| - 1]) * 10 + DigitValue(s[|s| - 1])
  }

  /** The decimal representation of a natural number, without leading zeros. */
  function NatDigits(n: nat): (s: string)
    ensures |s| > 0 && AllDigits(s)
  {
    if n < 10 then [DigitChar(n)] else NatDigits(n / 10) + [DigitChar(n % 10)]
  }

  lemma {:induction false} DigitsOfNat(n: nat)
    ensures DigitsValue(NatDigits(n)) == n
  {
    if n >= 10 {
      var s := NatDigits(n);
      assert s[..|s| - 1] == NatDigits(n / 10);
      DigitsOfNat(n / 10);
    }
  }

  function Pow10(k: nat): (p: nat)
    ensures p >= 1
  {
    if k == 0 then 1 else 10 * Pow10(k - 1)
  }
}
