/** The latency benchmark's percentile: linear interpolation between the
    two order statistics around rank `(n - 1) * p`. */
module LatencyBench {
  import opened Common
  import opened Sorting

  /** The interpolated value at fractional rank `k` of the sorted `s`. */
  function Interp(s: seq<real>, k: real): real
    requires s != [] && 0.0 <= k <= (|s| - 1) as real
  {
    var f := Trunc(k);
    var c := Upper(|s|, f);
    if f == c then s[f] else s[f] * (c as real - k) + s[c] * (k - f as real)
  }

  /** `percentile(vals, p)`; `None` stands for the NaN returned for no values. */
  function Percentile(vals: seq<real>, p: real): (r: Option<real>)
    requires 0.0 <= p <= 1.0
    ensures r.None? <==> vals == []
  {
    if vals == [] then None else Some(Interp(SortReals(vals), Rank(|vals|, p)))
  }

  /** The fractional rank `(n - 1) * p`. */
  function Rank(n: nat, p: real): (k: real)
    requires n > 0 && 0.0 <= p <= 1.0
    ensures 0.0 <= k <= (n - 1) as real
  {
    ScaleAtMost(p, (n - 1) as real);
    (n - 1) as real * p
  }

  /** A heavier weight on the larger end never lowers the blend. */
  lemma LerpMonotone(a: real, b: real, w1: real, w2: real)
    requires a <= b && w1 <= w2
    ensures Lerp(a, b, w1) <= Lerp(a, b, w2)
  {
    assert Lerp(a, b, w2) - Lerp(a, b, w1) == (w2 - w1) * (b - a);
    MulNonNeg(w2 - w1, b - a);
  }

  /** The upper order statistic `Interp` blends with. */
  function Upper(n: nat, f: int): int {
    if f + 1 < n - 1 then f + 1 else n - 1
  }

  /** Between two distinct order statistics `Interp` is the blend of the
      two, weighted by the fractional part of the rank. */
  lemma InterpIsLerp(s: seq<real>, k: real)
    requires s != [] && 0.0 <= k <= (|s| - 1) as real
    ensures 0 <= Trunc(k) <= Upper(|s|, Trunc(k)) < |s|
    ensures Trunc(k) != Upper(|s|, Trunc(k)) ==>
              && Upper(|s|, Trunc(k)) == Trunc(k) + 1
              && 0.0 <= k - Trunc(k) as real <= 1.0
              && Interp(s, k) == Lerp(s[Trunc(k)], s[Trunc(k) + 1], k - Trunc(k) as real)
    ensures Trunc(k) == Upper(|s|, Trunc(k)) ==> Interp(s, k) == s[Trunc(k)] && k == Trunc(k) as real
  {
    var f := Trunc(k);
    if f != Upper(|s|, f) {
      assert (f + 1) as real - k == 1.0 - (k - f as real);
    }
  }

  /** The interpolated value lies between the two order statistics it
      blends. */
  lemma Segment(s: seq<real>, k: real)
    requires s != [] && 0.0 <= k <= (|s| - 1) as real && Ascending(s)
    ensures 0 <= Trunc(k) <= Upper(|s|, Trunc(k)) < |s|
    ensures s[Trunc(k)] <= Interp(s, k) <= s[Upper(|s|, Trunc(k))]
  {
    InterpIsLerp(s, k);
    var f := Trunc(k);
    if f != Upper(|s|, f) {
      LerpBetween(s[f], s[f + 1], k - f as real);
    }
  }

  /** A larger rank never gives a smaller value. */
  lemma InterpMonotone(s: seq<real>, k1: real, k2: real)
    requires s != [] && 0.0 <= k1 <= k2 <= (|s| - 1) as real && Ascending(s)
    ensures Interp(s, k1) <= Interp(s, k2)
  {
    Segment(s, k1);
    Segment(s, k2);
    InterpIsLerp(s, k1);
    InterpIsLerp(s, k2);
    var f1, f2 := Trunc(k1), Trunc(k2);
    if f1 == f2 && f1 != Upper(|s|, f1) {
      LerpMonotone(s[f1], s[f1 + 1], k1 - f1 as real, k2 - f2 as real);
    } else if f1 != f2 {
      assert Upper(|s|, f1) <= f2;
    }
  }

  /** The percentile lies between the smallest and the largest value. */
  lemma PercentileBounds(vals: seq<real>, p: real)
    requires 0.0 <= p <= 1.0 && vals != []
    ensures SeqMin(vals) <= Percentile(vals, p).value <= SeqMax(vals)
  {
    var s := SortReals(vals);
    var k := Rank(|vals|, p);
    Segment(s, k);
    BetweenExtremes(vals, s, Trunc(k));
    BetweenExtremes(vals, s, Upper(|s|, Trunc(k)));
  }

  /** `p = 0` gives the minimum and `p = 1` the maximum. */
  lemma PercentileEnds(vals: seq<real>)
    requires vals != []
    ensures Percentile(vals, 0.0) == Some(SeqMin(vals))
    ensures Percentile(vals, 1.0) == Some(SeqMax(vals))
  {
    var s := SortReals(vals);
    AscendingEnds(vals, s);
    InterpFirst(s);
    InterpLast(s);
  }

  /** Rank 0 is the first order statistic. */
  lemma InterpFirst(s: seq<real>)
    requires s != []
    ensures Rank(|s|, 0.0) == 0.0 && Interp(s, 0.0) == s[0]
  {
    InterpIsLerp(s, 0.0);
  }

  /** Rank `n - 1` is the last order statistic. */
  lemma InterpLast(s: seq<real>)
    requires s != []
    ensures Rank(|s|, 1.0) == (|s| - 1) as real && Interp(s, (|s| - 1) as real) == s[|s| - 1]
  {
    InterpIsLerp(s, (|s| - 1) as real);
  }

  /** A higher percentile is never smaller. */
  lemma PercentileMonotone(vals: seq<real>, p1: real, p2: real)
    requires 0.0 <= p1 <= p2 <= 1.0 && vals != []
    ensures Percentile(vals, p1).value <= Percentile(vals, p2).value
  {
    var m := (|vals| - 1) as real;
    MulNonNeg(p2 - p1, m);
    assert Rank(|vals|, p2) - Rank(|vals|, p1) == (p2 - p1) * m;
    InterpMonotone(SortReals(vals), Rank(|vals|, p1), Rank(|vals|, p2));
  }
}
