/** Grouping a cloud by a key function: the map from each key to the list
    of the cloud's points with that key, in input order. `projectOnLine`
    builds this map with the landing point as the key; the facts here hold
    for any key function. */
module Buckets {
  import opened Geometry

  /** The keys of a cloud's bucket map: the key of every point. */
  function Keys(ps: seq<Point>, key: Point -> Point): set<Point>
  {
    set j | 0 <= j < |ps| :: key(ps[j])
  }

  /** The points of `ps` whose key is `k`, in the order of `ps`: the
      reference definition of one bucket. */
  function Bucket(ps: seq<Point>, key: Point -> Point, k: Point): (bucket: seq<Point>)
    ensures |bucket| <= |ps|
    ensures forall q :: q in bucket ==> q in ps && key(q) == k
  {
    if |ps| == 0 then []
    else
      var last := ps[|ps| - 1];
      Bucket(ps[..|ps| - 1], key, k) + (if key(last) == k then [last] else [])
  }

  /** The positions in `ps` of the points whose key is `k`, increasing. */
  function KeyIndices(ps: seq<Point>, key: Point -> Point, k: Point): (idx: seq<nat>)
    ensures forall m :: 0 <= m < |idx| ==> idx[m] < |ps| && key(ps[idx[m]]) == k
    ensures forall m, n :: 0 <= m < n < |idx| ==> idx[m] < idx[n]
    ensures forall j :: 0 <= j < |ps| && key(ps[j]) == k ==> j in idx
  {
    if |ps| == 0 then []
    else
      var n := |ps| - 1;
      var prefix := ps[..n];
      var rest := KeyIndices(prefix, key, k);
      assert forall j :: 0 <= j < n ==> prefix[j] == ps[j];
      rest + (if key(ps[n]) == k then [n] else [])
  }

  /** Splitting off the last point of a cloud. */
  lemma SnocPrefix(ps: seq<Point>, p: Point)
    ensures (ps + [p])[..|ps|] == ps
    ensures (ps + [p])[|ps|] == p
  {
  }

  /** Each bucket keeps the order of the input: its m-th point is the point
      at the m-th of those positions, and those indices increase. */
  lemma {:induction false} BucketPreservesOrder(ps: seq<Point>, key: Point -> Point, k: Point)
    ensures var idx := KeyIndices(ps, key, k);
            |Bucket(ps, key, k)| == |idx| &&
            forall m :: 0 <= m < |idx| ==> Bucket(ps, key, k)[m] == ps[idx[m]]
  {
    if |ps| > 0 {
      var n := |ps| - 1;
      var prefix := ps[..n];
      BucketPreservesOrder(prefix, key, k);
      assert forall j :: 0 <= j < n ==> prefix[j] == ps[j];
    }
  }

  /** Every point of the cloud sits in the bucket of its own key,
      and only there. */
  lemma {:induction false} PointInItsBucket(ps: seq<Point>, key: Point -> Point, j: nat, k: Point)
    requires j < |ps|
    ensures key(ps[j]) in Keys(ps, key)
    ensures ps[j] in Bucket(ps, key, k) <==> k == key(ps[j])
  {
    var n := |ps| - 1;
    var prefix, last := ps[..n], ps[n];
    assert ps == prefix + [last];
    Snoc(prefix, last, key);
    if j < n {
      PointInItsBucket(prefix, key, j, k);
      assert prefix[j] == ps[j];
    }
  }

  /** No bucket of a key is empty; other points have empty buckets. */
  lemma {:induction false} BucketNonEmpty(ps: seq<Point>, key: Point -> Point, k: Point)
    ensures k in Keys(ps, key) <==> |Bucket(ps, key, k)| > 0
  {
    if |ps| > 0 {
      var n := |ps| - 1;
      var prefix, last := ps[..n], ps[n];
      assert ps == prefix + [last];
      Snoc(prefix, last, key);
      BucketNonEmpty(prefix, key, k);
    }
  }

  /** The total size of the buckets of the keys in `keys`. */
  ghost function SizeSum(ps: seq<Point>, key: Point -> Point, keys: set<Point>): nat
  {
    if keys == {} then 0
    else
      var k :| k in keys;
      |Bucket(ps, key, k)| + SizeSum(ps, key, keys - {k})
  }

  /** `SizeSum` does not depend on which key is taken first. */
  lemma {:induction false} SizeSumPick(ps: seq<Point>, key: Point -> Point, keys: set<Point>, k: Point)
    requires k in keys
    ensures SizeSum(ps, key, keys) == |Bucket(ps, key, k)| + SizeSum(ps, key, keys - {k})
    decreases keys
  {
    var j :| j in keys && SizeSum(ps, key, keys) == |Bucket(ps, key, j)| + SizeSum(ps, key, keys - {j});
    if j != k {
      SizeSumPick(ps, key, keys - {j}, k);
      SizeSumPick(ps, key, keys - {k}, j);
      assert keys - {j} - {k} == keys - {k} - {j};
    }
  }

  /** Appending one point adds one to the total exactly when its key is
      among the keys summed over. */
  lemma {:induction false} SizeSumSnoc(ps: seq<Point>, p: Point, key: Point -> Point, keys: set<Point>)
    ensures SizeSum(ps + [p], key, keys) ==
            SizeSum(ps, key, keys) + (if key(p) in keys then 1 else 0)
    decreases keys
  {
    if keys != {} {
      var k :| k in keys;
      SizeSumPick(ps + [p], key, keys, k);
      SizeSumPick(ps, key, keys, k);
      SizeSumSnoc(ps, p, key, keys - {k});
      SnocPrefix(ps, p);
    }
  }

  /** The bucket sizes add up to the number of points: bucketing loses and
      duplicates nothing. */
  lemma {:induction false} BucketSizesSum(ps: seq<Point>, key: Point -> Point)
    ensures SizeSum(ps, key, Keys(ps, key)) == |ps|
  {
    if |ps| > 0 {
      var n := |ps| - 1;
      var q, p := ps[..n], ps[n];
      assert ps == q + [p];
      var l := key(p);
      var keys := Keys(ps, key);
      assert keys == Keys(q, key) + {l} by {
        assert forall j :: 0 <= j < n ==> q[j] == ps[j];
      }
      BucketSizesSum(q, key);
      SizeSumSnoc(q, p, key, keys);
      if l !in Keys(q, key) {
        SizeSumPick(q, key, keys, l);
        BucketNonEmpty(q, key, l);
        assert keys - {l} == Keys(q, key);
      } else {
        assert keys == Keys(q, key);
      }
    }
  }

  /** Appending one point to the cloud adds its key to the keys and the
      point to the end of that one bucket. */
  lemma Snoc(ps: seq<Point>, p: Point, key: Point -> Point)
    ensures Keys(ps + [p], key) == Keys(ps, key) + {key(p)}
    ensures forall k :: Bucket(ps + [p], key, k) ==
                        Bucket(ps, key, k) + (if key(p) == k then [p] else [])
  {
    SnocPrefix(ps, p);
    assert forall j :: 0 <= j < |ps| ==> (ps + [p])[j] == ps[j];
  }


  /** A cloud has a key exactly when it has a point. */
  lemma KeysNonEmpty(ps: seq<Point>, key: Point -> Point)
    ensures |Keys(ps, key)| > 0 <==> |ps| > 0
  {
    if |ps| > 0 {
      assert key(ps[0]) in Keys(ps, key);
    }
  }

  /** One step of building the bucket map: appending a point to the bucket
      of its key, creating the bucket if absent, turns the map of a prefix
      into the map of the prefix extended by that point. */
  lemma AddToBucket(land: map<Point, seq<Point>>, ps: seq<Point>, p: Point, key: Point -> Point)
    requires land.Keys == Keys(ps, key)
    requires forall k :: k in land ==> land[k] == Bucket(ps, key, k)
    ensures var l := key(p);
            var land' := land[l := (if l in land then land[l] else []) + [p]];
            && land'.Keys == Keys(ps + [p], key)
            && forall k :: k in land' ==> land'[k] == Bucket(ps + [p], key, k)
  {
    Snoc(ps, p, key);
    BucketNonEmpty(ps, key, key(p));
  }
}
