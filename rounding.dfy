/**
 * Rounding of a health value to one decimal place, as Python's `round(x, 1)`
 * does it: to the nearest multiple of one tenth, and on an exact tie to the
 * tenth whose last digit is even. The value is an exact `real` here, so the
 * tie rule applies to the value itself rather than to its binary float form.
 */
module Rounding {

  /** `r` is a whole number of tenths. */
  predicate IsTenth(r: real) {
    (r * 10.0).Floor as real == r * 10.0
  }

  function Abs(x: real): real {
    if x < 0.0 then -x else x
  }

  /** The number of tenths `round(x, 1)` picks, before scaling back. */
  function TenthsOf(x: real): (k: int)
    ensures -0.5 <= k as real - x * 10.0 <= 0.5
  {
    var n := (x * 10.0).Floor;
    var frac := x * 10.0 - n as real;
    if frac < 0.5 then n
    else if frac > 0.5 then n + 1
    else if n % 2 == 0 then n
    else n + 1
  }

  /** `round(x, 1)`: a whole number of tenths at most half a tenth from `x`. */
  function RoundTenth(x: real): (r: real)
    ensures IsTenth(r)
    ensures -0.05 <= r - x <= 0.05
  {
    var k := TenthsOf(x);
    var r := k as real / 10.0;
    assert r * 10.0 == k as real;
    assert (k as real).Floor == k;
    assert r - x == (k as real - x * 10.0) / 10.0;
    r
  }

  /** No other whole number of tenths lies closer to `x` than `round(x, 1)`. */
  lemma RoundTenthNearest(x: real, j: int)
    ensures Abs(RoundTenth(x) - x) <= Abs(j as real / 10.0 - x)
  {
    var n := (x * 10.0).Floor;
    var k := TenthsOf(x);
    assert RoundTenth(x) - x == (k as real - x * 10.0) / 10.0;
    assert j as real / 10.0 - x == (j as real - x * 10.0) / 10.0;
    if j <= n - 1 {
      assert j as real - x * 10.0 <= -1.0;
    } else if j >= n + 2 {
      assert j as real - x * 10.0 >= 1.0;
    }
  }

  /** On an exact tie the result is an even number of tenths. */
  lemma RoundTenthTiesToEven(x: real)
    requires x * 10.0 - (x * 10.0).Floor as real == 0.5
    ensures (RoundTenth(x) * 10.0).Floor % 2 == 0
  {
    assert RoundTenth(x) * 10.0 == TenthsOf(x) as real;
  }

  /** A value that already is a whole number of tenths is left unchanged. */
  lemma RoundTenthIdempotent(x: real)
    requires IsTenth(x)
    ensures RoundTenth(x) == x
  {
    assert TenthsOf(x) == (x * 10.0).Floor;
  }

  /** Bounds that are whole numbers of tenths survive rounding: if
      `a/10 <= x <= b/10` then `a/10 <= round(x, 1) <= b/10`. */
  lemma RoundTenthKeepsBounds(x: real, a: int, b: int)
    requires a as real <= x * 10.0 <= b as real
    ensures a as real <= RoundTenth(x) * 10.0 <= b as real
  {
    var n := (x * 10.0).Floor;
    assert a <= n <= b;
    assert RoundTenth(x) * 10.0 == TenthsOf(x) as real;
    if n == b {
      assert x * 10.0 == n as real;
    }
  }
}
