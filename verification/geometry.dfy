/** Integer pixel points and straight lines `y = a*x + b` in image
    coordinates. Java's `java.awt.Point` holds two `int`s and hashes
    by value, so a `Point` here is a value type usable as a map key. */
module Geometry {

  datatype Point = Point(x: int, y: int)

  /** The line `y = a*x + b`: slope `a` and intercept `b`. */
  datatype Line = Line(a: real, b: real)

  /** The height of `line` above abscissa `x`. */
  function Eval(line: Line, x: real): real
  {
    line.a * x + line.b
  }

  /** The real point `(x, y)` lies on `line`. */
  predicate OnLine(line: Line, x: real, y: real)
  {
    y == Eval(line, x)
  }

  /** The squared Euclidean distance between two real points. */
  function SqDist(x1: real, y1: real, x2: real, y2: real): (d: real)
    ensures d >= 0.0
  {
    var dx, dy := x1 - x2, y1 - y2;
    SquarePositive(dx);
    SquarePositive(dy);
    dx * dx + dy * dy
  }

  /** A square is non-negative. */
  lemma SquarePositive(v: real)
    ensures v * v >= 0.0
  {
    if v < 0.0 {
      var w := -v;
      assert v * v == w * w;
    }
  }
}
