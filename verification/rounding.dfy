/** The two roundings the metrics use, on exact reals: `Math.round` and
    `Number.prototype.toFixed(2)` read back by `parseFloat`. */
module Rounding {

  /** The result is a whole number of hundredths. */
  predicate IsHundredths(x: real)
  {
    (x * 100.0).Floor as real == x * 100.0
  }

  /** `r` is `x` to two decimals, halves away from zero: a whole number of
      hundredths in the half-open band of width 0.01 around `x`, open on the side
      towards zero. */
  predicate TwoDecimalsOf(x: real, r: real)
  {
    && IsHundredths(r)
    && (x >= 0.0 ==> x - 0.005 < r <= x + 0.005)
    && (x < 0.0 ==> x - 0.005 <= r < x + 0.005)
  }

  /** The band holds one whole number of hundredths only, so it fixes the value. */
  lemma TwoDecimalsUnique(x: real, r1: real, r2: real)
    requires TwoDecimalsOf(x, r1) && TwoDecimalsOf(x, r2)
    ensures r1 == r2
  {
    var n1 := (r1 * 100.0).Floor;
    var n2 := (r2 * 100.0).Floor;
    assert -1.0 < (n1 - n2) as real < 1.0;
    assert n1 == n2;
  }

  /** `Math.round(x)`: the nearest integer, halves rounded towards positive infinity. */
  function JsRound(x: real): (r: int)
    ensures r as real - 0.5 <= x < r as real + 0.5
  {
    (x + 0.5).Floor
  }

  /** `parseFloat(x.toFixed(2))`: the nearest hundredth, halves rounded away from zero
      (`toFixed` rounds the magnitude and then puts the sign back). */
  function Round2(x: real): (r: real)
    ensures TwoDecimalsOf(x, r)
    ensures x >= 0.0 ==> r >= 0.0
  {
    if x >= 0.0 then
      var n := JsRound(x * 100.0);
      Hundredths(n);
      n as real / 100.0
    else
      var n := JsRound(-x * 100.0);
      Hundredths(-n);
      (-n) as real / 100.0
  }

  /** `n` hundredths is a whole number of hundredths. */
  lemma Hundredths(n: int)
    ensures (n as real / 100.0) * 100.0 == n as real
    ensures IsHundredths(n as real / 100.0)
  {
    assert (n as real / 100.0) * 100.0 == n as real;
    assert (n as real).Floor == n;
  }

  /** A value that already is a whole number of hundredths is left unchanged:
      re-rounding a displayed value is harmless. */
  lemma Round2Idempotent(x: real)
    requires IsHundredths(x)
    ensures Round2(x) == x
  {
    var k := (x * 100.0).Floor;
    if x >= 0.0 {
      assert JsRound(x * 100.0) == k;
    } else {
      assert JsRound(-x * 100.0) == -k;
    }
  }
}
