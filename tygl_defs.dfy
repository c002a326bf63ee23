/**
 * The inline helpers of TyGLDefs.h: `max`, `min` (on `int` and on
 * `GLfloat`) and `clamp` on `int`. GL floats are modelled as `real`.
 */
module TyGLDefs {

  /** The larger argument; on a tie, the second (`a > b ? a : b`). */
  function Max(a: int, b: int): (r: int)
    ensures r >= a && r >= b
    ensures r == a || r == b
  {
    if a > b then a else b
  }

  /** The smaller argument; on a tie, the second (`a < b ? a : b`). */
  function Min(a: int, b: int): (r: int)
    ensures r <= a && r <= b
    ensures r == a || r == b
  {
    if a < b then a else b
  }

  function MaxReal(a: real, b: real): (r: real)
    ensures r >= a && r >= b
    ensures r == a || r == b
  {
    if a > b then a else b
  }

  function MinReal(a: real, b: real): (r: real)
    ensures r <= a && r <= b
    ensures r == a || r == b
  {
    if a < b then a else b
  }

  /** `clamp(value, minValue, maxValue) = min(max(value, minValue), maxValue)`. */
  function Clamp(value: int, minValue: int, maxValue: int): (r: int)
    ensures r <= maxValue
    ensures minValue <= maxValue ==> minValue <= r
    ensures minValue <= value <= maxValue ==> r == value
    ensures value < minValue && minValue <= maxValue ==> r == minValue
    ensures value > maxValue ==> r == maxValue
  {
    Min(Max(value, minValue), maxValue)
  }

  /** With an empty range (`minValue > maxValue`) the upper bound wins. */
  lemma ClampEmptyRange(value: int, minValue: int, maxValue: int)
    requires minValue > maxValue
    ensures Clamp(value, minValue, maxValue) == maxValue
  {
  }

  /** Clamping is monotone in the value for a fixed range. */
  lemma ClampMonotone(v: int, w: int, minValue: int, maxValue: int)
    requires v <= w
    ensures Clamp(v, minValue, maxValue) <= Clamp(w, minValue, maxValue)
  {
  }

  /** Clamping twice into the same non-empty range is clamping once. */
  lemma ClampIdempotent(v: int, minValue: int, maxValue: int)
    requires minValue <= maxValue
    ensures Clamp(Clamp(v, minValue, maxValue), minValue, maxValue) == Clamp(v, minValue, maxValue)
  {
  }
}
