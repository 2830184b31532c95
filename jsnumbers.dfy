/**
 * The JavaScript number operations the calendar code relies on, over exact
 * integers and reals: the truncating remainder `%`, `Math.floor` and
 * `Math.round`.
 */
module JsNumbers {

  /** JavaScript `a % m` on integers: the remainder takes the sign of `a`. */
  function JsRem(a: int, m: int): (r: int)
    requires m > 0
    ensures -m < r < m
    ensures a >= 0 ==> r == a % m
    ensures a < 0 ==> r <= 0
  {
    if a >= 0 then a % m else -((-a) % m)
  }

  /** The integer part of `x`, rounding toward zero (`Math.trunc`). */
  function Trunc(x: real): (r: int)
    ensures x >= 0.0 ==> r == x.Floor
    ensures x < 0.0 ==> r == -((-x).Floor)
  {
    if x >= 0.0 then x.Floor else -((-x).Floor)
  }

  /**
   * JavaScript `x % 360` on numbers, `x - 360 * trunc(x / 360)`: the only
   * real-valued remainder the modelled code takes, on degrees of longitude.
   */
  function JsDegRem(x: real): (r: real)
    ensures x >= 0.0 ==> 0.0 <= r < 360.0
    ensures x < 0.0 ==> -360.0 < r <= 0.0
    ensures 0.0 <= x < 360.0 ==> r == x
    ensures 360.0 <= x < 720.0 ==> r == x - 360.0
  {
    x - 360.0 * (Trunc(x / 360.0) as real)
  }

  /**
   * JavaScript `x % 1440` on numbers: the remainder of a count of minutes
   * by the minutes of a day.
   */
  function JsMinuteRem(x: real): (r: real)
    ensures x >= 0.0 ==> 0.0 <= r < 1440.0
    ensures x < 0.0 ==> -1440.0 < r <= 0.0
    ensures 0.0 <= x < 1440.0 ==> r == x
    ensures 1440.0 <= x < 2880.0 ==> r == x - 1440.0
  {
    x - 1440.0 * (Trunc(x / 1440.0) as real)
  }

  /** `Math.round`: the nearest integer, halves rounded toward +infinity. */
  function Round(x: real): (r: int)
    ensures (r as real) - 0.5 <= x < (r as real) + 0.5
  {
    (x + 0.5).Floor
  }

  /** `Math.abs` on numbers. */
  function Abs(x: real): (r: real)
    ensures r >= 0.0 && (r == x || r == -x)
  {
    if x < 0.0 then -x else x
  }

  /** `Math.max` on two numbers. */
  function Max(a: real, b: real): (r: real)
    ensures r >= a && r >= b && (r == a || r == b)
  {
    if a < b then b else a
  }
}
