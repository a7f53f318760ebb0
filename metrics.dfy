/** The backtest metrics of backtest/metrics.py: mean absolute error, root
    mean squared error, symmetric MAPE, interval coverage and the two
    latency percentiles. */
module Metrics {
  import opened Common
  import opened Sorting

  /** `zip(a, b)`: the pairs up to the shorter length. */
  function Zip(a: seq<real>, b: seq<real>): (z: seq<(real, real)>)
    ensures |z| == (if |a| <= |b| then |a| else |b|)
    ensures forall i :: 0 <= i < |z| ==> z[i] == (a[i], b[i])
  {
    seq(if |a| <= |b| then |a| else |b|, i requires 0 <= i < |a| && i < |b| => (a[i], b[i]))
  }

  // ---------------------------------------------------- real arithmetic

  lemma ScaleMonotone(a: real, b: real, c: real)
    requires a <= b && c >= 0.0
    ensures a * c <= b * c && c * a <= c * b
  {
    MulNonNeg(b - a, c);
    assert b * c - a * c == (b - a) * c;
  }

  /** `s / n <= b` when `s` is at most `b` per item for `k <= n` items. */
  lemma DivAtMost(s: real, b: real, k: real, n: real)
    requires n > 0.0 && 0.0 <= k <= n && b >= 0.0 && s <= b * k
    ensures s / n <= b
  {
    ScaleMonotone(k, n, b);
    assert s <= b * n;
    var q := s / n;
    assert q * n == s;
    if q > b {
      assert (q - b) * n > 0.0;
      assert q * n - b * n == (q - b) * n;
      assert b * n == n * b;
    }
  }

  lemma DivBelow(s: real, b: real, n: real)
    requires n > 0.0 && s < b * n
    ensures s / n < b
  {
    var q := s / n;
    assert q * n == s;
    assert q * n < b * n;
    if q >= b {
      MulNonNeg(q - b, n);
    }
  }

  // ------------------------------------------------------------------ mae

  /** `sum(abs(a - b) for a, b in pairs)`. */
  function AbsErrSum(z: seq<(real, real)>): (s: real)
    ensures s >= 0.0
    decreases |z|
  {
    if z == [] then 0.0 else AbsErrSum(z[..|z| - 1]) + Abs(z[|z| - 1].0 - z[|z| - 1].1)
  }

  /** The absolute error sum is 0 exactly when every pair agrees. */
  lemma {:induction false} AbsErrSumZero(z: seq<(real, real)>)
    ensures AbsErrSum(z) == 0.0 <==> forall i :: 0 <= i < |z| ==> z[i].0 == z[i].1
    decreases |z|
  {
    if z != [] {
      var w := z[..|z| - 1];
      AbsErrSumZero(w);
      assert forall i :: 0 <= i < |w| ==> w[i] == z[i];
    }
  }

  /** With every pair at most `e` apart, the sum is at most `e` per pair. */
  lemma AbsErrSumAtMost(z: seq<(real, real)>, e: real)
    requires forall i :: 0 <= i < |z| ==> Abs(z[i].0 - z[i].1) <= e
    ensures AbsErrSum(z) <= e * |z| as real
  {
    AbsErrSumAtMostTimes(z, e);
    TimesIsProduct(e, |z|);
  }

  /** `n` copies of `e` added up. */
  function Times(e: real, n: nat): real {
    if n == 0 then 0.0 else Times(e, n - 1) + e
  }

  lemma {:induction false} TimesIsProduct(e: real, n: nat)
    ensures Times(e, n) == e * n as real
  {
    if n > 0 {
      TimesIsProduct(e, n - 1);
      MulSucc(e, n - 1);
    }
  }

  lemma {:induction false} AbsErrSumAtMostTimes(z: seq<(real, real)>, e: real)
    requires forall i :: 0 <= i < |z| ==> Abs(z[i].0 - z[i].1) <= e
    ensures AbsErrSum(z) <= Times(e, |z|)
    decreases |z|
  {
    if z != [] {
      var w := z[..|z| - 1];
      assert forall i :: 0 <= i < |w| ==> w[i] == z[i];
      AbsErrSumAtMostTimes(w, e);
    }
  }

  /** `mae`: 0.0 for no truths; otherwise the absolute errors of the zipped
      pairs summed and divided by the number of truths (not of pairs). */
  function Mae(yTrue: seq<real>, yPred: seq<real>): (r: real)
    ensures yTrue == [] ==> r == 0.0
    ensures r >= 0.0
  {
    var n := |yTrue|;
    if n == 0 then 0.0 else AbsErrSum(Zip(yTrue, yPred)) / n as real
  }

  /** The MAE of a non-empty series is 0 exactly when every zipped forecast
      equals its truth. */
  lemma MaeZeroIff(yTrue: seq<real>, yPred: seq<real>)
    requires yTrue != []
    ensures Mae(yTrue, yPred) == 0.0 <==>
            forall i :: 0 <= i < |yTrue| && i < |yPred| ==> yTrue[i] == yPred[i]
  {
    var z := Zip(yTrue, yPred);
    AbsErrSumZero(z);
    if Mae(yTrue, yPred) == 0.0 {
      assert AbsErrSum(z) == Mae(yTrue, yPred) * |yTrue| as real;
      forall i | 0 <= i < |yTrue| && i < |yPred| ensures yTrue[i] == yPred[i] {
        assert z[i] == (yTrue[i], yPred[i]);
      }
    }
  }

  /** When no zipped error exceeds `e >= 0`, neither does the MAE. */
  lemma MaeAtMost(yTrue: seq<real>, yPred: seq<real>, e: real)
    requires e >= 0.0
    requires forall i :: 0 <= i < |yTrue| && i < |yPred| ==> Abs(yTrue[i] - yPred[i]) <= e
    ensures Mae(yTrue, yPred) <= e
  {
    var z := Zip(yTrue, yPred);
    AbsErrSumAtMost(z, e);
    if yTrue != [] {
      var n := |yTrue| as real;
      var k := |z| as real;
      assert k <= n;
      DivAtMost(AbsErrSum(z), e, k, n);
      assert Mae(yTrue, yPred) == AbsErrSum(z) / n;
    }
  }

  /** The divisor is the number of truths: forecasts missing at the end
      count as zero error, e.g. one exact forecast for two truths of 1.0
      and 1.0 gives 0.5 when the first forecast is 0.0. */
  lemma MaeDividesByTruths()
    ensures Mae([1.0, 1.0], [0.0]) == 0.5
  {
    var z := Zip([1.0, 1.0], [0.0]);
    assert z == [(1.0, 0.0)];
    assert AbsErrSum(z) == AbsErrSum([]) + 1.0;
  }

  // ----------------------------------------------------------------- rmse

  /** `sum((a - b) ** 2 for a, b in pairs)`. */
  function SqErrSum(z: seq<(real, real)>): (s: real)
    ensures s >= 0.0
    decreases |z|
  {
    if z == [] then 0.0
    else
      var d := z[|z| - 1].0 - z[|z| - 1].1;
      MulNonNeg(Abs(d), Abs(d));
      assert d * d == Abs(d) * Abs(d);
      SqErrSum(z[..|z| - 1]) + d * d
  }

  lemma {:induction false} SqErrSumExact(z: seq<(real, real)>)
    requires forall i :: 0 <= i < |z| ==> z[i].0 == z[i].1
    ensures SqErrSum(z) == 0.0
    decreases |z|
  {
    if z != [] {
      var w := z[..|z| - 1];
      assert forall i :: 0 <= i < |w| ==> w[i] == z[i];
      SqErrSumExact(w);
    }
  }

  /** `rmse`: 0.0 for no truths, otherwise the square root of the summed
      squared errors of the zipped pairs over the number of truths. */
  function Rmse(yTrue: seq<real>, yPred: seq<real>, sqrt: real -> real): (r: real)
    requires IsSqrt(sqrt)
    ensures yTrue == [] ==> r == 0.0
    ensures r >= 0.0
  {
    var n := |yTrue|;
    if n == 0 then 0.0
    else
      var mse := SqErrSum(Zip(yTrue, yPred)) / n as real;
      assert mse >= 0.0;
      sqrt(mse)
  }

  /** Exact forecasts have RMSE 0. */
  lemma RmseExact(yTrue: seq<real>, yPred: seq<real>, sqrt: real -> real)
    requires IsSqrt(sqrt)
    requires forall i :: 0 <= i < |yTrue| && i < |yPred| ==> yTrue[i] == yPred[i]
    ensures Rmse(yTrue, yPred, sqrt) == 0.0
  {
    SqErrSumExact(Zip(yTrue, yPred));
  }

  // ---------------------------------------------------------------- smape

  const Eps: real := 0.000000000001

  /** One sMAPE term `|f - a| / max(|a| + |f| + eps, eps)`: in `[0, 1)`,
      and 0 exactly when the forecast is exact. */
  function SmapeTerm(a: real, f: real): (t: real)
    ensures 0.0 <= t < 1.0
    ensures t == 0.0 <==> a == f
  {
    var den := Max(Abs(a) + Abs(f) + Eps, Eps);
    assert Abs(f - a) < den;
    Abs(f - a) / den
  }

  function SmapeSum(z: seq<(real, real)>): (s: real)
    ensures 0.0 <= s <= |z| as real
    ensures z != [] ==> s < |z| as real
    decreases |z|
  {
    if z == [] then 0.0 else SmapeSum(z[..|z| - 1]) + SmapeTerm(z[|z| - 1].0, z[|z| - 1].1)
  }

  /** `smape`: 0.0 for no truths, otherwise twice the summed terms over the
      number of truths; it lies in `[0, 2)`. */
  function Smape(yTrue: seq<real>, yPred: seq<real>): (r: real)
    ensures yTrue == [] ==> r == 0.0
    ensures 0.0 <= r < 2.0
  {
    var n := |yTrue|;
    if n == 0 then 0.0
    else
      var z := Zip(yTrue, yPred);
      var s := SmapeSum(z);
      assert s < n as real by {
        if z == [] { assert s == 0.0; }
      }
      DivBelow(2.0 * s, 2.0, n as real);
      2.0 * s / n as real
  }

  lemma {:induction false} SmapeSumExact(z: seq<(real, real)>)
    requires forall i :: 0 <= i < |z| ==> z[i].0 == z[i].1
    ensures SmapeSum(z) == 0.0
    decreases |z|
  {
    if z != [] {
      var w := z[..|z| - 1];
      assert forall i :: 0 <= i < |w| ==> w[i] == z[i];
      SmapeSumExact(w);
    }
  }

  /** Exact forecasts have sMAPE 0. */
  lemma SmapeExact(yTrue: seq<real>, yPred: seq<real>)
    requires forall i :: 0 <= i < |yTrue| && i < |yPred| ==> yTrue[i] == yPred[i]
    ensures Smape(yTrue, yPred) == 0.0
  {
    SmapeSumExact(Zip(yTrue, yPred));
  }

  // ------------------------------------------------------------- coverage

  /** The number of positions `i < k` with `lo[i] <= y[i] <= hi[i]`. */
  function Hits(y: seq<real>, lo: seq<real>, hi: seq<real>, k: nat): (h: nat)
    requires k <= |y| && k <= |lo| && k <= |hi|
    ensures h <= k
    ensures h == k <==> forall i :: 0 <= i < k ==> lo[i] <= y[i] <= hi[i]
  {
    if k == 0 then 0
    else Hits(y, lo, hi, k - 1) + (if lo[k - 1] <= y[k - 1] <= hi[k - 1] then 1 else 0)
  }

  /** The number of positions `zip` produces from three lists. */
  function Zip3Len(y: seq<real>, lo: seq<real>, hi: seq<real>): (n: nat)
    ensures n <= |y| && n <= |lo| && n <= |hi|
    ensures n == |y| || n == |lo| || n == |hi|
  {
    var m := if |y| <= |lo| then |y| else |lo|;
    if m <= |hi| then m else |hi|
  }

  /** A count out of a positive total is a fraction in `[0, 1]` that is 1
      exactly when the count is the total. */
  lemma FractionFacts(hit: nat, total: nat)
    requires 0 < hit + total && hit <= total
    ensures 0.0 <= hit as real / total as real <= 1.0
    ensures hit as real / total as real == 1.0 <==> hit == total
  {
    var h, t := hit as real, total as real;
    var q := 1.0 / t;
    assert t * q == 1.0;
    assert h / t == h * q;
    MulNonNeg(h, q);
    MulNonNeg(t - h, q);
    assert (t - h) * q == 1.0 - h * q;
  }

  /** `coverage`: the fraction of zipped positions whose truth lies inside
      its interval, 0.0 when there are none; it lies in `[0, 1]` and is 1
      exactly when every zipped truth is covered. */
  function Coverage(y: seq<real>, lo: seq<real>, hi: seq<real>): (r: real)
    ensures 0.0 <= r <= 1.0
    ensures Zip3Len(y, lo, hi) == 0 ==> r == 0.0
    ensures Zip3Len(y, lo, hi) > 0 ==>
              (r == 1.0 <==> forall i :: 0 <= i < Zip3Len(y, lo, hi) ==> lo[i] <= y[i] <= hi[i])
  {
    var total := Zip3Len(y, lo, hi);
    var hit := Hits(y, lo, hi, total);
    if total == 0 then 0.0
    else
      FractionFacts(hit, total);
      hit as real / total as real
  }

  // ------------------------------------------------------------- latency

  /** Python's `round` of a float to an int: to the nearest integer, ties
      to the even one. */
  function RoundHalfEven(x: real): (n: int)
    ensures n as real - 0.5 <= x <= n as real + 0.5
    ensures x - x.Floor as real == 0.5 ==> n % 2 == 0
  {
    var f := x.Floor;
    var d := x - f as real;
    if d < 0.5 then f
    else if d > 0.5 then f + 1
    else if f % 2 == 0 then f
    else f + 1
  }

  lemma RoundMonotone(a: real, b: real)
    requires a <= b
    ensures RoundHalfEven(a) <= RoundHalfEven(b)
  {
  }

  /** The index `_pct` reads: `round(p / 100 * (n - 1))` clamped to
      `[0, n - 1]`. */
  function PctIndex(n: nat, p: real): (i: nat)
    requires n > 0
    ensures i < n
  {
    Clip(RoundHalfEven(Rank(n, p)), n)
  }

  /** The fractional rank `p / 100 * (n - 1)`. */
  function Rank(n: nat, p: real): real {
    (p / 100.0) * ((n as real) - 1.0)
  }

  /** `max(0, min(n - 1, k))`. */
  function Clip(k: int, n: nat): (i: nat)
    requires n > 0
    ensures i < n
    ensures 0 <= k < n ==> i == k
  {
    if k < 0 then 0 else if k > n - 1 then n - 1 else k
  }

  lemma PctIndexMonotone(n: nat, p1: real, p2: real)
    requires n > 0 && p1 <= p2
    ensures PctIndex(n, p1) <= PctIndex(n, p2)
  {
    ScaleMonotone(p1 / 100.0, p2 / 100.0, (n as real) - 1.0);
    RoundMonotone(Rank(n, p1), Rank(n, p2));
  }

  /** The two latency percentiles of a run. */
  datatype Latency = Latency(p50: real, p95: real)

  /** `latency_p50_p95`: both 0.0 for no latencies; otherwise each is the
      element of the sorted latencies at its rounded, clamped rank, so both
      are observed latencies and the median never exceeds the 95th
      percentile. */
  function LatencyP50P95(lat: seq<real>): (r: Latency)
    ensures lat == [] ==> r == Latency(0.0, 0.0)
    ensures lat != [] ==> r.p50 in lat && r.p95 in lat
    ensures lat != [] ==> SeqMin(lat) <= r.p50 <= r.p95 <= SeqMax(lat)
  {
    if lat == [] then Latency(0.0, 0.0)
    else
      var xs := SortReals(lat);
      var n := |xs|;
      var i50 := PctIndex(n, 50.0);
      var i95 := PctIndex(n, 95.0);
      PctIndexMonotone(n, 50.0, 95.0);
      InPermutation(xs, lat, i50);
      InPermutation(xs, lat, i95);
      BetweenExtremes(lat, xs, i50);
      BetweenExtremes(lat, xs, i95);
      Latency(xs[i50], xs[i95])
  }

  /** The rank rounding: with three latencies the median is the middle one
      and the 95th percentile the largest (`round(1.9) == 2`); with two,
      `round(0.5) == 0` picks the smaller as the median. */
  lemma LatencyRanks()
    ensures PctIndex(3, 50.0) == 1 && PctIndex(3, 95.0) == 2
    ensures PctIndex(2, 50.0) == 0 && PctIndex(2, 95.0) == 1
  {
  }
}
