/**
 * `x.toFixed(2)` read back as a number (`parseFloat(x.toFixed(2))` and
 * `+x.toFixed(2)` in the chart pipeline), on exact reals: the nearest
 * multiple of 1/100, ties away from zero, the sign handled separately as
 * ECMAScript's Number.prototype.toFixed does.
 */
module Rounding {

  /** The nearest whole number of hundredths to a non-negative `x`, ties upward. */
  function HalfUpHundredths(x: real): (n: nat)
    requires x >= 0.0
    ensures n as real - 0.5 <= x * 100.0 < n as real + 0.5
  {
    (x * 100.0 + 0.5).Floor
  }

  /** The signed number of hundredths `toFixed(2)` prints for `x`. */
  function RoundHundredths(x: real): int {
    if x < 0.0 then -(HalfUpHundredths(-x) as int) else HalfUpHundredths(x)
  }

  function Round2(x: real): real {
    RoundHundredths(x) as real / 100.0
  }

  /** `x` is already a whole number of hundredths. */
  predicate OnGrid(x: real) {
    (x * 100.0).Floor as real == x * 100.0
  }

  function Max(a: real, b: real): real {
    if a < b then b else a
  }

  function Min(a: real, b: real): real {
    if a < b then a else b
  }

  lemma Round2Close(x: real)
    ensures x - 0.005 <= Round2(x) <= x + 0.005
  {
  }

  lemma Round2IsOnGrid(x: real)
    ensures OnGrid(Round2(x))
  {
    assert Round2(x) * 100.0 == RoundHundredths(x) as real;
  }

  lemma Round2Fixes(x: real)
    requires OnGrid(x)
    ensures Round2(x) == x
  {
    var h := (x * 100.0).Floor;
    if x < 0.0 {
      assert (-x * 100.0 + 0.5).Floor == -h;
    } else {
      assert (x * 100.0 + 0.5).Floor == h;
    }
  }

  lemma Round2Monotone(x: real, y: real)
    requires x <= y
    ensures Round2(x) <= Round2(y)
  {
    assert RoundHundredths(x) <= RoundHundredths(y);
  }

  /** A value on the grid and a value off it keep their order after rounding. */
  lemma Round2BelowGridPoint(x: real, g: real)
    requires x <= g && OnGrid(g)
    ensures Round2(x) <= g
  {
    Round2Monotone(x, g);
    Round2Fixes(g);
  }

  lemma Round2AboveGridPoint(x: real, g: real)
    requires g <= x && OnGrid(g)
    ensures g <= Round2(x)
  {
    Round2Monotone(g, x);
    Round2Fixes(g);
  }
}
