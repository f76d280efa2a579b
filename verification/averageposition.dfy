/** The average position of a bucket (`measureAveragePosition`): the mean
    of its coordinates, each rounded half-to-even to an integer. */
module AveragePosition {
  import opened Geometry
  import opened Rounding

  function Xs(ps: seq<Point>): (xs: seq<int>)
    ensures |xs| == |ps|
    ensures forall i :: 0 <= i < |ps| ==> xs[i] == ps[i].x
  {
    seq(|ps|, i requires 0 <= i < |ps| => ps[i].x)
  }

  function Ys(ps: seq<Point>): (ys: seq<int>)
    ensures |ys| == |ps|
    ensures forall i :: 0 <= i < |ps| ==> ys[i] == ps[i].y
  {
    seq(|ps|, i requires 0 <= i < |ps| => ps[i].y)
  }

  /** The sum of a sequence of integers, accumulated from the front. */
  function Sum(s: seq<int>): int
  {
    if |s| == 0 then 0 else Sum(s[..|s| - 1]) + s[|s| - 1]
  }

  /** The arithmetic mean of a non-empty sequence, over the reals. */
  function Mean(s: seq<int>): real
    requires |s| > 0
  {
    Sum(s) as real / |s| as real
  }

  /** The reference centroid: the rounded mean of each coordinate; an empty
      cloud gives the origin, as the zero accumulators of the Java code do. */
  function Centroid(ps: seq<Point>): Point
  {
    if |ps| == 0 then Point(0, 0)
    else Point(Rint(Mean(Xs(ps))), Rint(Mean(Ys(ps))))
  }

  /** A lower bound on every term bounds the sum. */
  lemma {:induction false} SumAtLeast(s: seq<int>, lo: int)
    requires forall i :: 0 <= i < |s| ==> lo <= s[i]
    ensures |s| * lo <= Sum(s)
  {
    if |s| > 0 {
      SumAtLeast(s[..|s| - 1], lo);
    }
  }

  /** An upper bound on every term bounds the sum. */
  lemma {:induction false} SumAtMost(s: seq<int>, hi: int)
    requires forall i :: 0 <= i < |s| ==> s[i] <= hi
    ensures Sum(s) <= |s| * hi
  {
    if |s| > 0 {
      SumAtMost(s[..|s| - 1], hi);
    }
  }

  lemma MeanAtLeast(sum: int, n: int, lo: int)
    requires n > 0 && n * lo <= sum
    ensures lo as real <= sum as real / n as real
  {
    var m := sum as real / n as real;
    assert m * n as real == sum as real;
    assert (n * lo) as real == lo as real * n as real;
    if m < lo as real {
      assert m * n as real < lo as real * n as real;
    }
  }

  lemma MeanAtMost(sum: int, n: int, hi: int)
    requires n > 0 && sum <= n * hi
    ensures sum as real / n as real <= hi as real
  {
    var m := sum as real / n as real;
    assert m * n as real == sum as real;
    assert (n * hi) as real == hi as real * n as real;
    if m > hi as real {
      assert m * n as real > hi as real * n as real;
    }
  }

  /** The rounded mean lies between the least and the greatest term: some
      term is at most it and some term is at least it. */
  lemma RoundedMeanBetween(s: seq<int>)
    requires |s| > 0
    ensures exists i :: 0 <= i < |s| && s[i] <= Rint(Mean(s))
    ensures exists i :: 0 <= i < |s| && Rint(Mean(s)) <= s[i]
  {
    var c := Rint(Mean(s));
    if forall i :: 0 <= i < |s| ==> c + 1 <= s[i] {
      SumAtLeast(s, c + 1);
      MeanAtLeast(Sum(s), |s|, c + 1);
      assert false;
    }
    if forall i :: 0 <= i < |s| ==> s[i] <= c - 1 {
      SumAtMost(s, c - 1);
      MeanAtMost(Sum(s), |s|, c - 1);
      assert false;
    }
  }

  /** The centroid of a non-empty bucket lies inside the bucket's integer
      bounding box: each of its coordinates is at least the smallest and at
      most the largest of the bucket's. */
  lemma CentroidInBoundingBox(ps: seq<Point>)
    requires |ps| > 0
    ensures exists i :: 0 <= i < |ps| && ps[i].x <= Centroid(ps).x
    ensures exists i :: 0 <= i < |ps| && Centroid(ps).x <= ps[i].x
    ensures exists i :: 0 <= i < |ps| && ps[i].y <= Centroid(ps).y
    ensures exists i :: 0 <= i < |ps| && Centroid(ps).y <= ps[i].y
  {
    RoundedMeanBetween(Xs(ps));
    RoundedMeanBetween(Ys(ps));
  }

  /** The centroid of a single point is that point. */
  lemma CentroidOfSingleton(p: Point)
    ensures Centroid([p]) == p
  {
    assert Xs([p]) == [p.x] && Ys([p]) == [p.y];
    assert [p.x][..0] == [] && [p.y][..0] == [];
    assert Sum([p.x]) == p.x && Sum([p.y]) == p.y;
    assert Mean([p.x]) == p.x as real;
    assert Mean([p.y]) == p.y as real;
    RintOfInt(p.x);
    RintOfInt(p.y);
  }

  /** The centroid of `[(1,1), (3,3)]` is `(2,2)`. */
  lemma CentroidOfTwoPoints()
    ensures Centroid([Point(1, 1), Point(3, 3)]) == Point(2, 2)
  {
    var ps := [Point(1, 1), Point(3, 3)];
    assert Xs(ps) == [1, 3] && Ys(ps) == [1, 3];
    assert [1, 3][..1] == [1] && [1][..0] == [];
    assert Mean([1, 3]) == 2.0;
    RintOfInt(2);
  }

  /** The running sum of `measureAveragePosition`: each term divided by `n` as it is added. */
  function Accumulate(s: seq<int>, n: real): real
    requires n != 0.0
  {
    if |s| == 0 then 0.0 else Accumulate(s[..|s| - 1], n) + s[|s| - 1] as real / n
  }

  /** Dividing each term by `n` before adding is dividing the sum by `n`. */
  lemma {:induction false} AccumulateIsScaledSum(s: seq<int>, n: real)
    requires n != 0.0
    ensures Accumulate(s, n) * n == Sum(s) as real
  {
    if |s| > 0 {
      var prefix, last := s[..|s| - 1], s[|s| - 1];
      AccumulateIsScaledSum(prefix, n);
      var acc := Accumulate(prefix, n);
      assert (acc + last as real / n) * n == acc * n + last as real;
    }
  }

  /** Over a whole sequence, the running sum is the mean. */
  lemma AccumulatedMean(s: seq<int>)
    requires |s| > 0
    ensures Accumulate(s, |s| as real) == Mean(s)
  {
    var n := |s| as real;
    AccumulateIsScaledSum(s, n);
    DivideBack(Accumulate(s, n), Sum(s) as real, n);
  }

  lemma DivideBack(q: real, s: real, n: real)
    requires n != 0.0 && q * n == s
    ensures q == s / n
  {
  }

  /** `measureAveragePosition`: accumulates each coordinate divided by the
      number of points, then rounds; the result is the rounded mean. */
  method MeasureAveragePosition(pointCloud: seq<Point>) returns (c: Point)
    ensures c == Centroid(pointCloud)
  {
    var n := |pointCloud|;
    var x := 0.0;
    var y := 0.0;
    if n == 0 {
      RintOfInt(0);
    } else {
      var length := n as real;
      for i := 0 to n
        invariant x == Accumulate(Xs(pointCloud[..i]), length)
        invariant y == Accumulate(Ys(pointCloud[..i]), length)
      {
        var p := pointCloud[i];
        assert Xs(pointCloud[..i + 1])[..i] == Xs(pointCloud[..i]);
        assert Ys(pointCloud[..i + 1])[..i] == Ys(pointCloud[..i]);
        x := x + p.x as real / length;
        y := y + p.y as real / length;
      }
      assert pointCloud[..n] == pointCloud;
      AccumulatedMean(Xs(pointCloud));
      AccumulatedMean(Ys(pointCloud));
    }
    c := Point(Rint(x), Rint(y));
  }
}
