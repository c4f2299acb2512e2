/** The arithmetic of Path.get_delta_segments: how many sub-segments a long
    move becomes, and the targets np.linspace gives them. */
module Splitting {
  import opened Numeric
  import opened Axes
  import opened Positions

  /** `np.round(mag / split_size) + 1` linspace points less the first one,
      which is deleted: the number of sub-segments. */
  function SegmentCount(mag: real, splitSize: real): (n: nat)
    requires mag >= 0.0 && splitSize > 0.0
    ensures Abs(n as real - mag / splitSize) <= 0.5
    ensures Abs(n as real - mag / splitSize) == 0.5 ==> n % 2 == 0
  {
    var q := mag / splitSize;
    assert q >= 0.0;
    RoundHalfEven(q)
  }

  /** Point j of `np.linspace(a[i], b[i], n + 1)` on every axis: j steps of
      (b - a) / n from a. */
  function SplitPoint(a: Vec, b: Vec, n: nat, j: nat): (r: Vec)
    requires IsVec(a) && IsVec(b) && n >= 1
    ensures IsVec(r)
    ensures j <= n ==> forall i :: 0 <= i < MaxAxes ==> Between(r[i], a[i], b[i])
  {
    PointsBetween(a, b, n, j);
    seq(MaxAxes, i requires 0 <= i < MaxAxes => a[i] + (j as real) * ((b[i] - a[i]) / (n as real)))
  }

  /** x lies on the closed segment from lo to hi, in either order. */
  predicate Between(x: real, lo: real, hi: real) {
    (lo <= x <= hi) || (hi <= x <= lo)
  }

  lemma PointsBetween(a: Vec, b: Vec, n: nat, j: nat)
    requires IsVec(a) && IsVec(b) && n >= 1
    ensures j <= n ==> forall i :: 0 <= i < MaxAxes ==>
              Between(a[i] + (j as real) * ((b[i] - a[i]) / (n as real)), a[i], b[i])
  {
    if j <= n {
      forall i | 0 <= i < MaxAxes
        ensures Between(a[i] + (j as real) * ((b[i] - a[i]) / (n as real)), a[i], b[i])
      {
        FractionBetween(a[i], b[i], j as real, n as real);
      }
    }
  }

  /** A point j n-ths of the way from x to y, for 0 <= j <= n, lies between them. */
  lemma FractionBetween(x: real, y: real, j: real, n: real)
    requires 0.0 <= j <= n && n > 0.0
    ensures Between(x + j * ((y - x) / n), x, y)
  {
    var t := j / n;
    assert 0.0 <= t <= 1.0;
    assert j * ((y - x) / n) == t * (y - x);
    if y >= x {
      assert 0.0 <= t * (y - x) <= y - x;
    } else {
      assert y - x <= t * (y - x) <= 0.0;
    }
  }

  /** The points run from a to b: the first linspace point (the one deleted)
      is a and the last one is exactly b, so the last sub-segment ends where
      the whole move was meant to end. */
  lemma SplitEnds(a: Vec, b: Vec, n: nat)
    requires IsVec(a) && IsVec(b) && n >= 1
    ensures SplitPoint(a, b, n, 0) == a
    ensures SplitPoint(a, b, n, n) == b
  {
    var last := SplitPoint(a, b, n, n);
    forall i | 0 <= i < MaxAxes
      ensures last[i] == b[i]
    {
      WholeOfParts(b[i] - a[i], n as real);
    }
  }

  lemma WholeOfParts(d: real, n: real)
    requires n > 0.0
    ensures n * (d / n) == d
  {
  }

  /** Consecutive points are the same distance apart on every axis: each
      sub-segment is one n-th of the move. */
  lemma {:induction false} SplitStepsEqual(a: Vec, b: Vec, n: nat, j: nat)
    requires IsVec(a) && IsVec(b) && n >= 1
    ensures forall i :: 0 <= i < MaxAxes ==>
              SplitPoint(a, b, n, j + 1)[i] - SplitPoint(a, b, n, j)[i] == (b[i] - a[i]) / (n as real)
  {
    var p, q := SplitPoint(a, b, n, j), SplitPoint(a, b, n, j + 1);
    forall i | 0 <= i < MaxAxes
      ensures q[i] - p[i] == (b[i] - a[i]) / (n as real)
    {
      NextMultiple(j as real, (b[i] - a[i]) / (n as real));
    }
  }

  lemma NextMultiple(j: real, s: real)
    ensures (j + 1.0) * s - j * s == s
  {
  }

  /** A move longer than split_size becomes at least one sub-segment, and
      each sub-segment covers at least three quarters and less than one and
      a half split sizes of the magnitude (np.round rounds 1.5 up to 2). */
  lemma {:induction false} SegmentLengthNearSplitSize(mag: real, splitSize: real)
    requires splitSize > 0.0 && mag > splitSize
    ensures SegmentCount(mag, splitSize) >= 1
    ensures 0.75 * splitSize * (SegmentCount(mag, splitSize) as real) <= mag
    ensures mag < 1.5 * splitSize * (SegmentCount(mag, splitSize) as real)
  {
    var q := mag / splitSize;
    assert q * splitSize == mag;
    var n := SegmentCount(mag, splitSize);
    assert n == RoundHalfEven(q);
    CountBounds(q, n, n % 2 == 0);
    ScaleBounds(q, n as real, splitSize, mag);
  }

  /** The rounding facts on plain values: n is within half of q > 1, and a
      tie goes to an even n. */
  lemma CountBounds(q: real, n: int, even: bool)
    requires q > 1.0 && -0.5 <= n as real - q <= 0.5
    requires (n as real - q == 0.5 || q - n as real == 0.5) ==> even
    requires n == 1 ==> !even
    ensures n >= 1 && 0.75 * (n as real) <= q < 1.5 * (n as real)
  {
  }

  lemma ScaleBounds(q: real, n: real, s: real, mag: real)
    requires s > 0.0 && q * s == mag && 0.75 * n <= q < 1.5 * n
    ensures 0.75 * s * n <= mag < 1.5 * s * n
  {
    assert (q - 0.75 * n) * s >= 0.0;
    assert (1.5 * n - q) * s > 0.0;
  }
}
