/**
 The small part of Kotlin's numeric semantics that the camera core relies on,
 written out over unbounded `int` and exact `real`:
 - `Float.roundToInt()` rounds to the nearest integer, ties towards positive infinity;
 - `Float.toInt()` truncates towards zero;
 - `Int / Int` truncates towards zero (Dafny's own `/` is Euclidean).
 Saturation at the 32-bit bounds and NaN/infinity are not modelled.
 */
module KotlinMath {

  function Abs(x: int): nat {
    if x < 0 then -x else x
  }

  function AbsReal(x: real): real {
    if x < 0.0 then -x else x
  }

  function MinReal(a: real, b: real): real {
    if a <= b then a else b
  }

  function MaxReal(a: real, b: real): real {
    if a <= b then b else a
  }

  /** `x.roundToInt()`: the integer nearest to `x`, a tie going up. */
  function RoundToInt(x: real): (r: int)
    ensures x - 0.5 < r as real <= x + 0.5
  {
    (x + 0.5).Floor
  }

  /** `x.toInt()`: drops the fractional part, towards zero. */
  function TruncToInt(x: real): (r: int)
    ensures AbsReal(r as real) <= AbsReal(x) < AbsReal(r as real) + 1.0
    ensures (x >= 0.0 ==> r >= 0) && (x <= 0.0 ==> r <= 0)
  {
    if x >= 0.0 then x.Floor else -((-x).Floor)
  }

  /** Kotlin/JVM integer division `a / b`: the quotient truncated towards zero. */
  function TruncDiv(a: int, b: int): (q: int)
    requires b != 0
    ensures Abs(a - b * q) < Abs(b)
    ensures a - b * q == 0 || (a - b * q > 0 <==> a > 0)
  {
    if a >= 0 then
      if b > 0 then a / b else -(a / -b)
    else
      if b > 0 then -((-a) / b) else (-a) / (-b)
  }

  /** Halving a non-negative number never makes it exceed itself, and doubling the half loses at most one. */
  lemma HalfBounds(a: int)
    requires a >= 0
    ensures 0 <= TruncDiv(a, 2) && 2 * TruncDiv(a, 2) <= a <= 2 * TruncDiv(a, 2) + 1
  {
  }

  /** Truncating halving is monotone on non-negative numbers. */
  lemma HalfMonotone(a: int, b: int)
    requires 0 <= a <= b
    ensures TruncDiv(a, 2) <= TruncDiv(b, 2)
  {
  }

  /** Rounding to the nearest integer is monotone. */
  lemma RoundMonotone(x: real, y: real)
    requires x <= y
    ensures RoundToInt(x) <= RoundToInt(y)
  {
  }
}
