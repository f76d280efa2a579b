/** Round-to-nearest with ties to the even neighbour, the rounding of Java's
    `Math.rint`, over exact reals. `Neck_Profilor` applies it to the projection
    foot (landing keys) and to bucket means (centroids). */
module Rounding {

  /** The integer nearest to `r`; when `r` is exactly halfway between two
      integers, the even one. */
  function Rint(r: real): (n: int)
    ensures -0.5 <= r - n as real <= 0.5
    ensures (r - n as real == 0.5 || n as real - r == 0.5) ==> n % 2 == 0
  {
    var f := r.Floor;
    var frac := r - f as real;
    if frac < 0.5 then f
    else if frac > 0.5 then f + 1
    else if f % 2 == 0 then f
    else f + 1
  }

  /** Rint is determined by its contract: an integer strictly closer than
      one half to `r` is the result. */
  lemma RintNearest(r: real, n: int)
    requires -0.5 < r - n as real < 0.5
    ensures Rint(r) == n
  {
    var m := Rint(r);
    assert -1.0 < m as real - n as real < 1.0;
  }

  /** A tie is resolved to the even neighbour: `k + 1/2` rounds to `k` for
      even `k` and to `k + 1` for odd `k`. */
  lemma RintTie(k: int)
    ensures Rint(k as real + 0.5) == if k % 2 == 0 then k else k + 1
  {
    var r := k as real + 0.5;
    assert r.Floor == k;
  }

  /** An integral value is left unchanged. */
  lemma RintOfInt(n: int)
    ensures Rint(n as real) == n
  {
    RintNearest(n as real, n);
  }

  /** Rounding never reverses the order of its arguments. */
  lemma RintMonotone(r: real, s: real)
    requires r <= s
    ensures Rint(r) <= Rint(s)
  {
  }

  /** An integer bound on a value survives rounding. */
  lemma RintBetween(r: real, lo: int, hi: int)
    requires lo as real <= r <= hi as real
    ensures lo <= Rint(r) <= hi
  {
  }
}
