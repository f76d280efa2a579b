/** Orthogonal projection of a point cloud on the mid line, and the grouping
    of the cloud's points by rounded landing point (`projectOnLine`). */
module Projection {
  import opened Geometry
  import opened Rounding
  import opened Buckets

  /** The foot of the perpendicular from `(x, y)` to `line`, by the closed
      form of `projectOnLine`: the point of the line whose displacement from
      `(x, y)` is orthogonal to the line's direction `(1, a)`. */
  function Foot(x: real, y: real, line: Line): (f: (real, real))
    ensures OnLine(line, f.0, f.1)
    ensures (x - f.0) + line.a * (y - f.1) == 0.0
  {
    var a, b := line.a, line.b;
    SquarePositive(a);
    var d := a * a + 1.0;
    var x1 := ((x + a * y) - a * b) / d;
    var y1 := (a * (x + a * y) + b) / d;
    FootAlgebra(x, y, a, b, d, x1, y1);
    (x1, y1)
  }

  /** The algebra behind `Foot`: multiplying out the common denominator. */
  lemma FootAlgebra(x: real, y: real, a: real, b: real, d: real, x1: real, y1: real)
    requires d == a * a + 1.0
    requires x1 * d == (x + a * y) - a * b
    requires y1 * d == a * (x + a * y) + b
    ensures y1 == a * x1 + b
    ensures (x - x1) + a * (y - y1) == 0.0
  {
    SquarePositive(a);
    assert (a * x1 + b) * d == a * (x1 * d) + b * d;
    assert (a * x1 + b) * d == y1 * d;
    assert ((x - x1) + a * (y - y1)) * d == x * d - x1 * d + a * y * d - a * (y1 * d);
    assert ((x - x1) + a * (y - y1)) * d == 0.0;
  }

  /** A point of the line with an orthogonal displacement is the foot: the
      two properties of `Foot` characterise it. */
  lemma FootUnique(x: real, y: real, line: Line, u: real, v: real)
    requires OnLine(line, u, v)
    requires (x - u) + line.a * (y - v) == 0.0
    ensures (u, v) == Foot(x, y, line)
  {
    var a, b := line.a, line.b;
    SquarePositive(a);
    var d := a * a + 1.0;
    var f := Foot(x, y, line);
    assert u * d == (x + a * y) - a * b;
    assert f.0 * d == (x + a * y) - a * b;
    assert (u - f.0) * d == 0.0;
    assert u == f.0;
  }

  /** A point already on the line is its own foot. */
  lemma FootOfPointOnLine(x: real, y: real, line: Line)
    requires OnLine(line, x, y)
    ensures Foot(x, y, line) == (x, y)
  {
    FootUnique(x, y, line, x, y);
  }

  /** The landing point of `p`: its foot on `line`, each coordinate rounded
      half-to-even to an integer. It is within half a pixel of the foot. */
  function Landing(p: Point, line: Line): (k: Point)
    ensures var f := Foot(p.x as real, p.y as real, line);
            -0.5 <= f.0 - k.x as real <= 0.5 && -0.5 <= f.1 - k.y as real <= 0.5
  {
    var f := Foot(p.x as real, p.y as real, line);
    Point(Rint(f.0), Rint(f.1))
  }

  /** The landing function of `line`, the key of `projectOnLine`'s map. */
  function LandingOf(line: Line): Point -> Point
  {
    p => Landing(p, line)
  }

  /** `projectOnLine`: the bucket map of a cloud, built in one pass over the
      points. Its keys are the landing points and each bucket is the
      ordered list of points landing there. */
  method ProjectOnLine(points: seq<Point>, line: Line) returns (land: map<Point, seq<Point>>)
    ensures land.Keys == Keys(points, LandingOf(line))
    ensures forall k :: k in land ==> land[k] == Bucket(points, LandingOf(line), k)
  {
    var key := LandingOf(line);
    land := map[];
    var i := 0;
    while i < |points|
      invariant 0 <= i <= |points|
      invariant land.Keys == Keys(points[..i], key)
      invariant forall k :: k in land ==> land[k] == Bucket(points[..i], key, k)
    {
      var point := points[i];
      var landingPoint := key(point);
      ghost var before := land;
      if landingPoint !in land {
        land := land[landingPoint := []];
      }
      land := land[landingPoint := land[landingPoint] + [point]];
      AddToBucket(before, points[..i], point, key);
      assert points[..i + 1] == points[..i] + [point];
      i := i + 1;
    }
    assert points[..i] == points;
  }
}
