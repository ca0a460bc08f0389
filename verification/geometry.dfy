/** Integer geometry shared by the toolbar controller: points, sizes, the
    C++ `int` range and C++'s truncating integer division. */
module Geometry {

  /** The option type used for a parent widget that may be absent and for a
      toolbar pointer that may be null. */
  datatype Option<+T> = None | Some(value: T)

  /** The range of a C++ `int` on the platforms the viewer targets. */
  const IntMin: int := -0x8000_0000
  const IntMax: int := 0x7FFF_FFFF

  predicate InInt32(x: int) {
    IntMin <= x <= IntMax
  }

  type Int32 = x: int | InInt32(x)

  /** A point in pixels (QPoint); coordinates are unbounded here, see the
      anchor lemmas for when they stay inside the `int` range. */
  datatype Point = Point(x: int, y: int) {
    function Plus(other: Point): Point {
      Point(x + other.x, y + other.y)
    }

    function Minus(other: Point): Point {
      Point(x - other.x, y - other.y)
    }
  }

  /** A width and height in pixels (QSize, or the size part of a QRect). */
  datatype Size = Size(width: int, height: int)

  /** C++ `a / 2` on an `int`: the quotient is truncated toward zero, so
      the remainder takes the sign of the dividend. Dafny's own `/` is
      Euclidean and rounds the negative odd values the other way. */
  function TruncHalf(a: int): (q: int)
    ensures a >= 0 ==> 0 <= a - 2 * q <= 1
    ensures a < 0 ==> -1 <= a - 2 * q <= 0
  {
    if a >= 0 then a / 2 else -((-a) / 2)
  }

  /** Truncating and Euclidean halving disagree exactly on the negative odd
      values, where the truncated quotient is one larger. */
  lemma TruncHalfVersusEuclidean(a: int)
    ensures TruncHalf(a) == a / 2 <==> (a >= 0 || a % 2 == 0)
    ensures a < 0 && a % 2 != 0 ==> TruncHalf(a) == a / 2 + 1
  {
  }
}
