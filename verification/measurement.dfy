/** The thickness measurement of `measure`: mid line, landing buckets of the
    two clouds, the valid rectangle, the shared landing points, and for each
    of them a signed thickness and a position along the mid line.

    `Math.sqrt` is not part of this model: it is the parameter `sqrt`, and
    `Math.pow(v, 2)` is the exact square `v * v`. The calibration
    `pixelWidth` is a parameter as well. */
module Measurement {
  import opened Wrappers
  import opened Geometry
  import opened Rounding
  import opened Midline
  import opened Projection
  import opened Buckets
  import opened Bounds
  import opened AveragePosition

  /** `Math.signum` of an integer-valued dot product. */
  function Signum(v: int): (s: int)
    ensures -1 <= s <= 1
    ensures s > 0 <==> v > 0
    ensures s < 0 <==> v < 0
  {
    if v > 0 then 1 else if v < 0 then -1 else 0
  }

  /** The dot product of the displacements from landing point `k` to the
      two centroids `p1` and `p2`; negative when the centroids lie on
      opposite sides of `k`. */
  function Dot(p1: Point, p2: Point, k: Point): (d: int)
    ensures p1 == k || p2 == k ==> d == 0
    ensures p1 == p2 ==> d >= 0
  {
    (p1.x - k.x) * (p2.x - k.x) + (p1.y - k.y) * (p2.y - k.y)
  }

  /** The distance from `p` to `k` in pixels. */
  function Dist(p: Point, k: Point, sqrt: real -> real): (d: real)
    ensures (forall r :: 0.0 <= r ==> 0.0 <= sqrt(r)) ==> 0.0 <= d
  {
    sqrt(SqDist(p.x as real, p.y as real, k.x as real, k.y as real))
  }

  /** The signed thickness at landing point `k`: `d1 - sign * d2`, scaled
      by the pixel width. */
  function Thickness(p1: Point, p2: Point, k: Point, pixelWidth: real, sqrt: real -> real): real
  {
    (Dist(p1, k, sqrt) - Signum(Dot(p1, p2, k)) as real * Dist(p2, k, sqrt)) * pixelWidth
  }

  /** The position of landing point `k`: its distance from the anchor,
      scaled by the pixel width. */
  function Position(k: Point, anchor: (real, real), pixelWidth: real, sqrt: real -> real): (pos: real)
    ensures (forall r :: 0.0 <= r ==> 0.0 <= sqrt(r)) && 0.0 <= pixelWidth ==> 0.0 <= pos
  {
    sqrt(SqDist(k.x as real, k.y as real, anchor.0, anchor.1)) * pixelWidth
  }

  /** The origin of positions `(xLine0, yLine0)`: the point of the mid line
      above the left side of the valid rectangle. */
  function Anchor(rect: Box, mid: Line): (anchor: (real, real))
    ensures OnLine(mid, anchor.0, anchor.1)
    ensures anchor.0 == rect.xmin as real
  {
    (rect.xmin as real, mid.a * rect.xmin as real + mid.b)
  }

  /** The sign decides how the two distances combine: their sum when the
      centroids are on opposite sides, their difference when on the same
      side, the first distance alone when the displacements are
      perpendicular. */
  lemma ThicknessBySide(p1: Point, p2: Point, k: Point, pixelWidth: real, sqrt: real -> real)
    ensures Dot(p1, p2, k) < 0 ==>
              Thickness(p1, p2, k, pixelWidth, sqrt) == (Dist(p1, k, sqrt) + Dist(p2, k, sqrt)) * pixelWidth
    ensures Dot(p1, p2, k) > 0 ==>
              Thickness(p1, p2, k, pixelWidth, sqrt) == (Dist(p1, k, sqrt) - Dist(p2, k, sqrt)) * pixelWidth
    ensures Dot(p1, p2, k) == 0 ==>
              Thickness(p1, p2, k, pixelWidth, sqrt) == Dist(p1, k, sqrt) * pixelWidth
  {
  }

  /** With a non-negative square root and pixel width, the thickness across
      opposite sides is never negative. */
  lemma ThicknessNonNegative(p1: Point, p2: Point, k: Point, pixelWidth: real, sqrt: real -> real)
    requires forall r :: 0.0 <= r ==> 0.0 <= sqrt(r)
    requires 0.0 <= pixelWidth
    requires Dot(p1, p2, k) < 0
    ensures 0.0 <= Thickness(p1, p2, k, pixelWidth, sqrt)
  {
    ThicknessBySide(p1, p2, k, pixelWidth, sqrt);
    var d := Dist(p1, k, sqrt) + Dist(p2, k, sqrt);
    assert 0.0 <= d;
    assert 0.0 <= d * pixelWidth;
  }

  /** Swapping the two clouds' centroids keeps the thickness when they lie
      on opposite sides, negates it when they lie on the same side, and
      trades `d1` for `d2` when their displacements are perpendicular. */
  lemma ThicknessSwap(p1: Point, p2: Point, k: Point, pixelWidth: real, sqrt: real -> real)
    ensures Dot(p1, p2, k) < 0 ==>
              Thickness(p2, p1, k, pixelWidth, sqrt) == Thickness(p1, p2, k, pixelWidth, sqrt)
    ensures Dot(p1, p2, k) > 0 ==>
              Thickness(p2, p1, k, pixelWidth, sqrt) == -Thickness(p1, p2, k, pixelWidth, sqrt)
    ensures Dot(p1, p2, k) == 0 ==>
              && Thickness(p1, p2, k, pixelWidth, sqrt) == Dist(p1, k, sqrt) * pixelWidth
              && Thickness(p2, p1, k, pixelWidth, sqrt) == Dist(p2, k, sqrt) * pixelWidth
  {
    assert Dot(p2, p1, k) == Dot(p1, p2, k);
    ThicknessBySide(p1, p2, k, pixelWidth, sqrt);
    ThicknessBySide(p2, p1, k, pixelWidth, sqrt);
  }

  /** The thickness is linear in the pixel width. */
  lemma ThicknessScales(p1: Point, p2: Point, k: Point, pixelWidth: real, c: real, sqrt: real -> real)
    ensures Thickness(p1, p2, k, c * pixelWidth, sqrt) == c * Thickness(p1, p2, k, pixelWidth, sqrt)
  {
    Rescale(Dist(p1, k, sqrt) - Signum(Dot(p1, p2, k)) as real * Dist(p2, k, sqrt), c, pixelWidth);
  }

  /** The position is linear in the pixel width. */
  lemma PositionScales(k: Point, anchor: (real, real), pixelWidth: real, c: real, sqrt: real -> real)
    ensures Position(k, anchor, c * pixelWidth, sqrt) == c * Position(k, anchor, pixelWidth, sqrt)
  {
    Rescale(sqrt(SqDist(k.x as real, k.y as real, anchor.0, anchor.1)), c, pixelWidth);
  }

  lemma Rescale(t: real, c: real, w: real)
    ensures t * (c * w) == c * (t * w)
  {
  }

  /** Two horizontal faces at heights 0 and 4: the mid line is `y = 2`,
      points `(x, 0)` and `(x, 4)` both land on `(x, 2)`, their centroids lie
      on opposite sides, and the thickness is the sum of two distances of
      squared length 4, which is `4 * pixelWidth` with the exact root. */
  lemma HorizontalFaces(x: int, pixelWidth: real, sqrt: real -> real)
    ensures MidLine(Line(0.0, 0.0), Line(0.0, 4.0)) == Line(0.0, 2.0)
    ensures Landing(Point(x, 0), Line(0.0, 2.0)) == Point(x, 2)
    ensures Landing(Point(x, 4), Line(0.0, 2.0)) == Point(x, 2)
    ensures Dot(Point(x, 0), Point(x, 4), Point(x, 2)) == -4
    ensures Thickness(Point(x, 0), Point(x, 4), Point(x, 2), pixelWidth, sqrt)
            == (sqrt(4.0) + sqrt(4.0)) * pixelWidth
    ensures sqrt(4.0) == 2.0 ==>
              Thickness(Point(x, 0), Point(x, 4), Point(x, 2), pixelWidth, sqrt) == 4.0 * pixelWidth
  {
    var line := Line(0.0, 2.0);
    FootUnique(x as real, 0.0, line, x as real, 2.0);
    FootUnique(x as real, 4.0, line, x as real, 2.0);
    RintOfInt(x);
    RintOfInt(2);
    assert SqDist(x as real, 0.0, x as real, 2.0) == 4.0;
    assert SqDist(x as real, 4.0, x as real, 2.0) == 4.0;
    var p1, p2, k := Point(x, 0), Point(x, 4), Point(x, 2);
    ThicknessBySide(p1, p2, k, pixelWidth, sqrt);
    if sqrt(4.0) == 2.0 {
      assert Dist(p1, k, sqrt) == 2.0 && Dist(p2, k, sqrt) == 2.0;
    }
  }

  /** The loop of `measure` over the shared landing points: slot `i` is
      filled for a key inside the rectangle and left at zero otherwise. */
  method FillSlots(landPoints: seq<Point>, land1: map<Point, seq<Point>>, land2: map<Point, seq<Point>>,
                   rect: Option<Box>, mid: Line, pixelWidth: real, sqrt: real -> real)
    returns (positions: seq<real>, distances: seq<real>)
    requires forall i :: 0 <= i < |landPoints| ==> landPoints[i] in land1 && landPoints[i] in land2
    ensures |positions| == |landPoints| && |distances| == |landPoints|
    ensures forall i :: 0 <= i < |landPoints| && !InRectangle(rect, landPoints[i]) ==>
              positions[i] == 0.0 && distances[i] == 0.0
    ensures forall i :: 0 <= i < |landPoints| && InRectangle(rect, landPoints[i]) ==>
              var k := landPoints[i];
              && distances[i] == Thickness(Centroid(land1[k]), Centroid(land2[k]), k, pixelWidth, sqrt)
              && positions[i] == Position(k, Anchor(rect.value, mid), pixelWidth, sqrt)
  {
    distances := seq(|landPoints|, _ => 0.0);
    positions := seq(|landPoints|, _ => 0.0);
    for i := 0 to |landPoints|
      invariant |positions| == |landPoints| && |distances| == |landPoints|
      invariant forall j :: i <= j < |landPoints| ==> positions[j] == 0.0 && distances[j] == 0.0
      invariant forall j :: 0 <= j < i && !InRectangle(rect, landPoints[j]) ==>
                  positions[j] == 0.0 && distances[j] == 0.0
      invariant forall j :: 0 <= j < i && InRectangle(rect, landPoints[j]) ==>
                  var k := landPoints[j];
                  && distances[j] == Thickness(Centroid(land1[k]), Centroid(land2[k]), k, pixelWidth, sqrt)
                  && positions[j] == Position(k, Anchor(rect.value, mid), pixelWidth, sqrt)
    {
      var landPoint := landPoints[i];
      if !InRectangle(rect, landPoint) {
        continue;
      }
      var p1 := MeasureAveragePosition(land1[landPoint]);
      var p2 := MeasureAveragePosition(land2[landPoint]);
      distances := distances[i := Thickness(p1, p2, landPoint, pixelWidth, sqrt)];
      positions := positions[i := Position(landPoint, Anchor(rect.value, mid), pixelWidth, sqrt)];
    }
  }

  /** The outcome of one measurement: the mid line, the valid rectangle
      (`None` when a cloud is empty), the shared landing points in the order
      of enumeration, and the parallel position and thickness arrays. */
  datatype Measurement = Measurement(mid: Line, rect: Option<Box>, landPoints: seq<Point>,
                                     positions: seq<real>, thicknesses: seq<real>)

  /** `measure`, from the two clouds and their fitted lines to the
      thickness profile. */
  method Measure(points1: seq<Point>, points2: seq<Point>, fit1: Line, fit2: Line,
                 pixelWidth: real, sqrt: real -> real)
    returns (m: Measurement)
    ensures m.mid == MidLine(fit1, fit2)
    ensures m.rect.Some? <==> |points1| > 0 && |points2| > 0
    ensures m.rect.Some? ==> IsValidRectangle(m.rect.value, Keys(points1, LandingOf(m.mid)), Keys(points2, LandingOf(m.mid)))
    ensures forall k :: k in m.landPoints <==>
              k in Keys(points1, LandingOf(m.mid)) && k in Keys(points2, LandingOf(m.mid))
    ensures Distinct(m.landPoints)
    ensures |m.positions| == |m.landPoints| && |m.thicknesses| == |m.landPoints|
    ensures forall i :: 0 <= i < |m.landPoints| ==>
              var k := m.landPoints[i];
              && InRectangle(m.rect, k)
              && m.thicknesses[i] == Thickness(Centroid(Bucket(points1, LandingOf(m.mid), k)),
                                               Centroid(Bucket(points2, LandingOf(m.mid), k)), k, pixelWidth, sqrt)
              && m.positions[i] == Position(k, Anchor(m.rect.value, m.mid), pixelWidth, sqrt)
  {
    var mid := MidLine(fit1, fit2);
    var land1 := ProjectOnLine(points1, mid);
    var land2 := ProjectOnLine(points2, mid);
    KeysNonEmpty(points1, LandingOf(mid));
    KeysNonEmpty(points2, LandingOf(mid));
    m := Pair(land1, land2, mid, pixelWidth, sqrt);
    SlotsFromBuckets(m, land1, land2, points1, points2, pixelWidth, sqrt);
  }

  /** The slots computed from the two bucket maps are the slots of the
      reference buckets of the two clouds. */
  lemma SlotsFromBuckets(m: Measurement, land1: map<Point, seq<Point>>, land2: map<Point, seq<Point>>,
                         points1: seq<Point>, points2: seq<Point>, pixelWidth: real, sqrt: real -> real)
    requires forall k :: k in land1 ==> land1[k] == Bucket(points1, LandingOf(m.mid), k)
    requires forall k :: k in land2 ==> land2[k] == Bucket(points2, LandingOf(m.mid), k)
    requires |m.positions| == |m.landPoints| && |m.thicknesses| == |m.landPoints|
    requires forall i :: 0 <= i < |m.landPoints| ==>
              var k := m.landPoints[i];
              && k in land1 && k in land2
              && InRectangle(m.rect, k)
              && m.thicknesses[i] == Thickness(Centroid(land1[k]), Centroid(land2[k]), k, pixelWidth, sqrt)
              && m.positions[i] == Position(k, Anchor(m.rect.value, m.mid), pixelWidth, sqrt)
    ensures forall i :: 0 <= i < |m.landPoints| ==>
              var k := m.landPoints[i];
              && InRectangle(m.rect, k)
              && m.thicknesses[i] == Thickness(Centroid(Bucket(points1, LandingOf(m.mid), k)),
                                               Centroid(Bucket(points2, LandingOf(m.mid), k)), k, pixelWidth, sqrt)
              && m.positions[i] == Position(k, Anchor(m.rect.value, m.mid), pixelWidth, sqrt)
  {
    forall i | 0 <= i < |m.landPoints|
      ensures land1[m.landPoints[i]] == Bucket(points1, LandingOf(m.mid), m.landPoints[i])
      ensures land2[m.landPoints[i]] == Bucket(points2, LandingOf(m.mid), m.landPoints[i])
    {
    }
  }

  /** The part of `measure` after the projections: valid rectangle, shared
      landing points, and one slot per shared point, from the two bucket
      maps. */
  method Pair(land1: map<Point, seq<Point>>, land2: map<Point, seq<Point>>, mid: Line,
              pixelWidth: real, sqrt: real -> real)
    returns (m: Measurement)
    ensures m.mid == mid
    ensures m.rect.Some? <==> |land1.Keys| > 0 && |land2.Keys| > 0
    ensures m.rect.Some? ==> IsValidRectangle(m.rect.value, land1.Keys, land2.Keys)
    ensures forall k :: k in m.landPoints <==> k in land1 && k in land2
    ensures Distinct(m.landPoints)
    ensures |m.positions| == |m.landPoints| && |m.thicknesses| == |m.landPoints|
    ensures forall i :: 0 <= i < |m.landPoints| ==>
              var k := m.landPoints[i];
              && k in land1 && k in land2
              && InRectangle(m.rect, k)
              && m.thicknesses[i] == Thickness(Centroid(land1[k]), Centroid(land2[k]), k, pixelWidth, sqrt)
              && m.positions[i] == Position(k, Anchor(m.rect.value, mid), pixelWidth, sqrt)
  {
    var rect := LandingRectangle(land1.Keys, land2.Keys);
    var landPoints := Enumerate(land1.Keys * land2.Keys);
    forall i | 0 <= i < |landPoints|
      ensures landPoints[i] in land1 && landPoints[i] in land2
      ensures InRectangle(rect, landPoints[i])
    {
      assert landPoints[i] in landPoints;
    }
    var positions, distances := FillSlots(landPoints, land1, land2, rect, mid, pixelWidth, sqrt);
    m := Measurement(mid, rect, landPoints, positions, distances);
  }

  /** `r` is the intersection of the bounding boxes of `s1` and `s2`. */
  ghost predicate IsValidRectangle(r: Box, s1: set<Point>, s2: set<Point>)
  {
    exists b1, b2 :: IsBoundingBox(s1, b1) && IsBoundingBox(s2, b2) && r == Intersect(b1, b2)
  }

  /** The valid rectangle of `measure`: the extents of the two landing-key
      sets, each enumerated in some order, intersected. Every key the two
      sets share lies inside it. */
  method LandingRectangle(keySet1: set<Point>, keySet2: set<Point>) returns (rect: Option<Box>)
    ensures rect.Some? <==> |keySet1| > 0 && |keySet2| > 0
    ensures rect.Some? ==> IsValidRectangle(rect.value, keySet1, keySet2)
    ensures forall p :: p in keySet1 && p in keySet2 ==> InRectangle(rect, p)
  {
    var keys1 := Enumerate(keySet1);
    var keys2 := Enumerate(keySet2);
    var ext1 := FindExtremeXY(keys1);
    var ext2 := FindExtremeXY(keys2);
    rect := Rectangle(ext1, ext2);
    if rect.Some? {
      ExtentOfEnumeration(keySet1, keys1, ext1.value);
      ExtentOfEnumeration(keySet2, keys2, ext2.value);
    } else {
      assert keySet1 == {} || keySet2 == {};
    }
  }

  /** Every shared landing point lies in the valid rectangle, so the skip
      branch of `measure` never leaves a slot at zero; in particular two
      clouds whose landing rectangles do not overlap share no landing
      point and give an empty profile. */
  lemma NoSharedPointOutsideRectangle(s1: set<Point>, s2: set<Point>, b1: Box, b2: Box)
    requires IsBoundingBox(s1, b1) && IsBoundingBox(s2, b2)
    ensures forall p :: p in s1 && p in s2 ==> Encloses(Intersect(b1, b2), p)
    ensures (Intersect(b1, b2).xmin > Intersect(b1, b2).xmax ||
             Intersect(b1, b2).ymin > Intersect(b1, b2).ymax) ==> s1 * s2 == {}
  {
  }
}
