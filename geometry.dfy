/**
 * The WebCore geometry values the TyGL code takes as input: `IntRect`,
 * `FloatPoint` and `FloatRect`. Only the accessors the TyGL code calls are
 * given; floating-point coordinates are modelled as `real`.
 */
module Geometry {

  datatype IntRect = IntRect(x: int, y: int, width: int, height: int)
  {
    function MaxX(): int { x + width }
    function MaxY(): int { y + height }
  }

  datatype FloatPoint = FloatPoint(px: real, py: real)

  datatype FloatRect = FloatRect(fx: real, fy: real, fwidth: real, fheight: real)
  {
    function MaxX(): real { fx + fwidth }
    function MaxY(): real { fy + fheight }
  }

  /** C++ conversion of a float to an integer: truncation toward zero. */
  function TruncateToInt(x: real): (r: int)
    ensures x >= 0.0 ==> 0 <= r && r as real <= x < r as real + 1.0
    ensures x <= 0.0 ==> r <= 0 && r as real - 1.0 < x <= r as real
  {
    if x >= 0.0 then x.Floor else -((-x).Floor)
  }

  /** Converting an integer-valued float gives that integer back. */
  lemma TruncateExact(n: int)
    ensures TruncateToInt(n as real) == n
  {
  }
}
