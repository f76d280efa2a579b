/** Axis-aligned extents of integer points (`findExtremeXY`), their
    intersection (the valid measurement rectangle), and the enumeration of
    a hash set into an array (`toArray`). */
module Bounds {
  import opened Wrappers
  import opened Geometry

  /** An inclusive rectangle `[xmin, xmax] x [ymin, ymax]`; it may be
      inverted, in which case it encloses nothing. */
  datatype Box = Box(xmin: int, xmax: int, ymin: int, ymax: int)

  /** `p` lies in the closed rectangle `b`. */
  predicate Encloses(b: Box, p: Point)
  {
    b.xmin <= p.x <= b.xmax && b.ymin <= p.y <= b.ymax
  }

  /** `b` is the bounding box of the set `s`: it encloses every member and
      each of its four sides is touched by some member. */
  ghost predicate IsBoundingBox(s: set<Point>, b: Box)
  {
    && (forall p :: p in s ==> Encloses(b, p))
    && (exists p :: p in s && p.x == b.xmin)
    && (exists p :: p in s && p.x == b.xmax)
    && (exists p :: p in s && p.y == b.ymin)
    && (exists p :: p in s && p.y == b.ymax)
  }

  /** A set has at most one bounding box. */
  lemma BoundingBoxUnique(s: set<Point>, b1: Box, b2: Box)
    requires IsBoundingBox(s, b1) && IsBoundingBox(s, b2)
    ensures b1 == b2
  {
    var p1 :| p1 in s && p1.x == b1.xmin;
    var p2 :| p2 in s && p2.x == b2.xmin;
    assert Encloses(b1, p2) && Encloses(b2, p1);
    var q1 :| q1 in s && q1.x == b1.xmax;
    var q2 :| q2 in s && q2.x == b2.xmax;
    assert Encloses(b1, q2) && Encloses(b2, q1);
    var r1 :| r1 in s && r1.y == b1.ymin;
    var r2 :| r2 in s && r2.y == b2.ymin;
    assert Encloses(b1, r2) && Encloses(b2, r1);
    var t1 :| t1 in s && t1.y == b1.ymax;
    var t2 :| t2 in s && t2.y == b2.ymax;
    assert Encloses(b1, t2) && Encloses(b2, t1);
  }

  /** The valid rectangle of two extents: it encloses exactly the points
      that both extents enclose. */
  function Intersect(b1: Box, b2: Box): (r: Box)
    ensures forall p :: Encloses(r, p) <==> Encloses(b1, p) && Encloses(b2, p)
  {
    Box(if b1.xmin < b2.xmin then b2.xmin else b1.xmin,
        if b1.xmax < b2.xmax then b1.xmax else b2.xmax,
        if b1.ymin < b2.ymin then b2.ymin else b1.ymin,
        if b1.ymax < b2.ymax then b1.ymax else b2.ymax)
  }

  /** The valid rectangle of two possibly missing extents. A missing extent
      stands for the infinite seeds of the Java code `(+inf, -inf, +inf, -inf)`,
      whose intersection with anything encloses no point. */
  function Rectangle(e1: Option<Box>, e2: Option<Box>): (r: Option<Box>)
    ensures r.Some? <==> e1.Some? && e2.Some?
    ensures r.Some? ==> forall p :: Encloses(r.value, p) <==> Encloses(e1.value, p) && Encloses(e2.value, p)
  {
    if e1.Some? && e2.Some? then Some(Intersect(e1.value, e2.value)) else None
  }

  /** Whether the valid rectangle admits `p`. */
  predicate InRectangle(r: Option<Box>, p: Point)
  {
    r.Some? && Encloses(r.value, p)
  }

  /** `findExtremeXY`: the componentwise minimum and maximum of a sequence
      of points, or `None` for an empty sequence. */
  method FindExtremeXY(points: seq<Point>) returns (ext: Option<Box>)
    ensures ext.None? <==> |points| == 0
    ensures ext.Some? ==> forall i :: 0 <= i < |points| ==> Encloses(ext.value, points[i])
    ensures ext.Some? ==> exists i :: 0 <= i < |points| && points[i].x == ext.value.xmin
    ensures ext.Some? ==> exists i :: 0 <= i < |points| && points[i].x == ext.value.xmax
    ensures ext.Some? ==> exists i :: 0 <= i < |points| && points[i].y == ext.value.ymin
    ensures ext.Some? ==> exists i :: 0 <= i < |points| && points[i].y == ext.value.ymax
  {
    ext := None;
    for i := 0 to |points|
      invariant ext.None? <==> i == 0
      invariant ext.Some? ==> forall j :: 0 <= j < i ==> Encloses(ext.value, points[j])
      invariant ext.Some? ==> exists j :: 0 <= j < i && points[j].x == ext.value.xmin
      invariant ext.Some? ==> exists j :: 0 <= j < i && points[j].x == ext.value.xmax
      invariant ext.Some? ==> exists j :: 0 <= j < i && points[j].y == ext.value.ymin
      invariant ext.Some? ==> exists j :: 0 <= j < i && points[j].y == ext.value.ymax
    {
      var p := points[i];
      match ext {
        case None =>
          ext := Some(Box(p.x, p.x, p.y, p.y));
        case Some(b) =>
          ext := Some(Box(if p.x < b.xmin then p.x else b.xmin,
                          if b.xmax < p.x then p.x else b.xmax,
                          if p.y < b.ymin then p.y else b.ymin,
                          if b.ymax < p.y then p.y else b.ymax));
      }
    }
  }

  /** The extent computed over an enumeration of a set is the set's
      bounding box. */
  lemma ExtentOfEnumeration(s: set<Point>, points: seq<Point>, b: Box)
    requires forall p :: p in s <==> p in points
    requires forall i :: 0 <= i < |points| ==> Encloses(b, points[i])
    requires exists i :: 0 <= i < |points| && points[i].x == b.xmin
    requires exists i :: 0 <= i < |points| && points[i].x == b.xmax
    requires exists i :: 0 <= i < |points| && points[i].y == b.ymin
    requires exists i :: 0 <= i < |points| && points[i].y == b.ymax
    ensures IsBoundingBox(s, b)
  {
    forall p | p in s
      ensures Encloses(b, p)
    {
      var i :| 0 <= i < |points| && points[i] == p;
    }
    var i1 :| 0 <= i1 < |points| && points[i1].x == b.xmin;
    assert points[i1] in s;
    var i2 :| 0 <= i2 < |points| && points[i2].x == b.xmax;
    assert points[i2] in s;
    var i3 :| 0 <= i3 < |points| && points[i3].y == b.ymin;
    assert points[i3] in s;
    var i4 :| 0 <= i4 < |points| && points[i4].y == b.ymax;
    assert points[i4] in s;
  }

  /** No repeated element. */
  predicate Distinct<T(==)>(s: seq<T>)
  {
    forall i, j :: 0 <= i < j < |s| ==> s[i] != s[j]
  }

  /** A sequence without repetitions that lists exactly the elements of a
      set has one entry per element. */
  lemma {:induction false} DistinctCount<T>(r: seq<T>, s: set<T>)
    requires Distinct(r)
    requires forall x :: x in r <==> x in s
    ensures |r| == |s|
  {
    if |r| > 0 {
      var n := |r| - 1;
      var prefix, last := r[..n], r[n];
      assert r == prefix + [last];
      forall x
        ensures x in prefix <==> x in s - {last}
      {
        if x in prefix {
          var j :| 0 <= j < n && prefix[j] == x;
          assert r[j] == x;
        }
      }
      DistinctCount(prefix, s - {last});
    } else {
      assert forall x :: x !in s;
    }
  }

  /** `toArray` of a hash set: every element once, in an order the model
      leaves unspecified. */
  method Enumerate<T(==)>(s: set<T>) returns (r: seq<T>)
    ensures forall x :: x in r <==> x in s
    ensures Distinct(r)
    ensures |r| == |s|
  {
    r := [];
    var rest := s;
    while rest != {}
      invariant rest <= s
      invariant forall x :: x in r <==> x in s && x !in rest
      invariant Distinct(r)
      invariant |r| + |rest| == |s|
      decreases rest
    {
      var x :| x in rest;
      r := r + [x];
      rest := rest - {x};
    }
  }
}
