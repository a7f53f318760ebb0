/** The online conformal calibrator of core/conformal.py: absolute residuals
    kept in bounded buffers (one global, optionally one per regime label)
    with parallel weights that decay multiplicatively, and symmetric
    intervals whose radius is an unweighted or weighted residual quantile. */
module Conformal {
  import opened Common
  import opened Sorting

  // ------------------------------------------------ unweighted quantile

  /** Position `q * (n - 1)` of a linear-interpolation quantile. */
  function Position(q: real, n: nat): (pos: real)
    requires 0.0 <= q <= 1.0 && n >= 1
    ensures 0.0 <= pos <= (n - 1) as real
  {
    ScaleAtMost(q, (n - 1) as real);
    q * (n - 1) as real
  }

  /** Linear interpolation at position `q * (n - 1)` of an ascending
      sequence, between the order statistics at the position's integer part
      (Python's `int`, a floor here) and the next one. */
  function Interpolated(s: seq<real>, q: real): (r: real)
    requires s != [] && Ascending(s) && 0.0 < q < 1.0
    ensures s[0] <= r <= s[|s| - 1]
  {
    var n := |s|;
    var pos := Position(q, n);
    var lo := pos.Floor;
    var hi := if lo + 1 < n - 1 then lo + 1 else n - 1;
    var frac := pos - lo as real;
    assert s[0] <= s[lo] <= s[hi] <= s[n - 1];
    LerpBetween(s[lo], s[hi], frac);
    Lerp(s[lo], s[hi], frac)
  }

  /** `_unweighted_quantile`: linear interpolation between adjacent order
      statistics; 0 for no values, the minimum for `q <= 0`, the maximum
      for `q >= 1`. The result never leaves `[min, max]`. */
  function UnweightedQuantile(vals: seq<real>, q: real): (r: real)
    ensures vals == [] ==> r == 0.0
    ensures vals != [] && q <= 0.0 ==> r == SeqMin(vals)
    ensures vals != [] && q >= 1.0 ==> r == SeqMax(vals)
    ensures vals != [] ==> SeqMin(vals) <= r <= SeqMax(vals)
  {
    if vals == [] then 0.0
    else if q <= 0.0 then SeqMin(vals)
    else if q >= 1.0 then SeqMax(vals)
    else
      var s := SortReals(vals);
      AscendingEnds(vals, s);
      Interpolated(s, q)
  }

  // ---------------------------------------------- effective sample size

  function Sum(s: seq<real>): real {
    if s == [] then 0.0 else s[0] + Sum(s[1..])
  }

  function SumSquares(s: seq<real>): (r: real)
    ensures r >= 0.0
  {
    if s == [] then 0.0 else s[0] * s[0] + SumSquares(s[1..])
  }

  /** `_effective_n`: `(sum w)^2 / sum w^2`, or 0 when `sum w^2` is 0. */
  function EffectiveN(wts: seq<real>): (r: real)
    ensures r >= 0.0
    ensures SumSquares(wts) == 0.0 ==> r == 0.0
  {
    var s := Sum(wts);
    var s2 := SumSquares(wts);
    if s2 > 0.0 then s * s / s2 else 0.0
  }

  predicate AllOnes(wts: seq<real>) {
    forall i :: 0 <= i < |wts| ==> wts[i] == 1.0
  }

  lemma {:induction false} SumsOfOnes(wts: seq<real>)
    requires AllOnes(wts)
    ensures Sum(wts) == |wts| as real && SumSquares(wts) == |wts| as real
  {
    if wts != [] {
      SumsOfOnes(wts[1..]);
    }
  }

  /** Unit weights are worth exactly as many samples as there are. */
  lemma EffectiveNOfUnitWeights(wts: seq<real>)
    requires AllOnes(wts)
    ensures EffectiveN(wts) == |wts| as real
  {
    SumsOfOnes(wts);
    if wts != [] {
      var n := |wts| as real;
      assert n * n / n == n;
    }
  }

  // ------------------------------------------------ weighted quantile

  /** The `(value, weight)` pairs of `zip(vals, wts)` whose weight is positive. */
  function PositivePairs(vals: seq<real>, wts: seq<real>): (p: seq<(real, real)>)
    ensures |p| <= |vals| && |p| <= |wts|
    ensures forall i :: 0 <= i < |p| ==> p[i].1 > 0.0
    ensures forall i :: 0 <= i < |p| ==> p[i].0 in vals
  {
    if vals == [] || wts == [] then []
    else
      var rest := PositivePairs(vals[1..], wts[1..]);
      assert forall i :: 0 <= i < |rest| ==> rest[i].0 in vals[1..];
      (if wts[0] > 0.0 then [(vals[0], wts[0])] else []) + rest
  }

  /** The positive-weight pairs in the order `_weighted_quantile` scans them. */
  function SortedPositive(vals: seq<real>, wts: seq<real>): (p: seq<(real, real)>)
    ensures forall i :: 0 <= i < |p| ==> p[i].1 > 0.0 && p[i].0 in vals
    ensures forall i, j :: 0 <= i < j < |p| ==> p[i].0 <= p[j].0
  {
    var pp := PositivePairs(vals, wts);
    var p := SortPairs(pp);
    assert forall i :: 0 <= i < |p| ==> p[i] in pp by {
      forall i | 0 <= i < |p| ensures p[i] in pp {
        assert p[i] in multiset(p);
      }
    }
    p
  }

  /** Total weight of the first `k` pairs. */
  function CumWeight(pairs: seq<(real, real)>, k: nat): real
    requires k <= |pairs|
  {
    if k == 0 then 0.0 else CumWeight(pairs, k - 1) + pairs[k - 1].1
  }

  /** Total weight of all pairs. */
  function TotalWeight(pairs: seq<(real, real)>): real {
    CumWeight(pairs, |pairs|)
  }

  /** The first index at or after `i` whose cumulative weight reaches `cutoff`
      (`|pairs|` when none does). */
  function FirstReaching(pairs: seq<(real, real)>, cutoff: real, i: nat): (k: nat)
    requires i <= |pairs|
    ensures i <= k <= |pairs|
    decreases |pairs| - i
  {
    if i == |pairs| then i
    else if CumWeight(pairs, i + 1) >= cutoff then i
    else FirstReaching(pairs, cutoff, i + 1)
  }

  /** Index of the first sorted pair whose cumulative weight reaches
      `q * total`. */
  function QuantileIndex(pairs: seq<(real, real)>, q: real): (k: nat)
    ensures k <= |pairs|
  {
    FirstReaching(pairs, Cutoff(pairs, q), 0)
  }

  /** The weight `q * total` the running total must reach. */
  function Cutoff(pairs: seq<(real, real)>, q: real): (c: real)
    ensures 0.0 <= q <= 1.0 && TotalWeight(pairs) >= 0.0 ==> c <= TotalWeight(pairs)
  {
    ScaledBelowWhen(q, TotalWeight(pairs));
    q * TotalWeight(pairs)
  }

  /** `_weighted_quantile`, stated over the sorted positive-weight pairs. */
  function WeightedQuantileSpec(vals: seq<real>, wts: seq<real>, q: real): real {
    if vals == [] then 0.0
    else
      var pairs := SortedPositive(vals, wts);
      if TotalWeight(pairs) <= 0.0 then 0.0
      else
        var k := QuantileIndex(pairs, q);
        if k < |pairs| then pairs[k].0 else pairs[|pairs| - 1].0
  }

  lemma {:induction false} FirstReachingIsFirst(pairs: seq<(real, real)>, cutoff: real, i: nat)
    requires i <= |pairs|
    ensures FirstReaching(pairs, cutoff, i) < |pairs| ==>
      CumWeight(pairs, FirstReaching(pairs, cutoff, i) + 1) >= cutoff
    ensures forall j :: i < j <= FirstReaching(pairs, cutoff, i) ==> CumWeight(pairs, j) < cutoff
    decreases |pairs| - i
  {
    if i < |pairs| && CumWeight(pairs, i + 1) < cutoff {
      FirstReachingIsFirst(pairs, cutoff, i + 1);
    }
  }

  /** A cutoff no larger than the total weight is reached by some prefix. */
  lemma {:induction false} CutoffReached(pairs: seq<(real, real)>, cutoff: real)
    requires pairs != [] && cutoff <= TotalWeight(pairs)
    ensures FirstReaching(pairs, cutoff, 0) < |pairs|
  {
    FirstReachingIsFirst(pairs, cutoff, 0);
  }

  lemma ScaledBelowWhen(q: real, t: real)
    ensures q <= 1.0 && t >= 0.0 ==> q * t <= t
  {
    if q <= 1.0 && t >= 0.0 {
      MulNonNeg(1.0 - q, t);
    }
  }

  /** Over the reals the cumulative weight always reaches `q * total` for
      `q <= 1`: the index is that of the first pair whose cumulative weight
      reaches the cutoff, and the fallback to the last pair never fires. */
  lemma QuantileIndexIsFirstReaching(pairs: seq<(real, real)>, q: real)
    requires 0.0 <= q <= 1.0 && TotalWeight(pairs) > 0.0
    ensures QuantileIndex(pairs, q) < |pairs|
    ensures CumWeight(pairs, QuantileIndex(pairs, q) + 1) >= Cutoff(pairs, q)
    ensures forall j :: 0 < j <= QuantileIndex(pairs, q) ==> CumWeight(pairs, j) < Cutoff(pairs, q)
  {
    var cutoff := Cutoff(pairs, q);
    assert pairs != [];
    CutoffReached(pairs, cutoff);
    FirstReachingIsFirst(pairs, cutoff, 0);
  }

  /** The weighted quantile is the smallest sorted positive-weight residual
      whose cumulative weight reaches the cutoff, hence one of the buffered
      residuals. */
  lemma WeightedQuantileIsFirstReaching(vals: seq<real>, wts: seq<real>, q: real)
    requires 0.0 <= q <= 1.0 && vals != []
    requires TotalWeight(SortedPositive(vals, wts)) > 0.0
    ensures QuantileIndex(SortedPositive(vals, wts), q) < |SortedPositive(vals, wts)|
    ensures WeightedQuantileSpec(vals, wts, q)
         == SortedPositive(vals, wts)[QuantileIndex(SortedPositive(vals, wts), q)].0
    ensures WeightedQuantileSpec(vals, wts, q) in vals
  {
    QuantileIndexIsFirstReaching(SortedPositive(vals, wts), q);
  }

  /** The loop of `_weighted_quantile`: accumulate weights over the sorted
      positive pairs and return the first value whose running total reaches
      `q * total`. */
  method WeightedQuantile(vals: seq<real>, wts: seq<real>, q: real) returns (r: real)
    requires 0.0 <= q <= 1.0
    ensures r == WeightedQuantileSpec(vals, wts, q)
  {
    if vals == [] {
      return 0.0;
    }
    var pairs := SortedPositive(vals, wts);
    var total := TotalWeight(pairs);
    if total <= 0.0 {
      return 0.0;
    }
    var cutoff := Cutoff(pairs, q);
    ghost var k := QuantileIndex(pairs, q);
    assert k == FirstReaching(pairs, cutoff, 0);
    var acc := 0.0;
    var i := 0;
    while i < |pairs|
      invariant 0 <= i <= |pairs|
      invariant acc == CumWeight(pairs, i)
      invariant k == FirstReaching(pairs, cutoff, i)
    {
      acc := acc + pairs[i].1;
      assert acc == CumWeight(pairs, i + 1);
      if acc >= cutoff {
        assert CumWeight(pairs, i + 1) >= cutoff;
        assert FirstReaching(pairs, cutoff, i) == i;
        return pairs[i].0;
      }
      i := i + 1;
    }
    return pairs[|pairs| - 1].0;
  }

  // ------------------------------------------------------- interval radius

  /** Effective sample size below which the unweighted quantile is used. */
  const MinEffectiveN: real := 30.0

  /** `_q_for`: the radius for one alpha from the active buffer `(res, wts)`,
      with the global residuals `glob` as floor of the weighted branch and
      `base` (the scale hint or the cold scale) for the cold and the
      small-sample branches. */
  function Radius(res: seq<real>, wts: seq<real>, glob: seq<real>, a: real, base: real): real {
    if res == [] then base
    else
      var eff := if wts != [] then EffectiveN(wts) else 0.0;
      if eff < MinEffectiveN then Max(UnweightedQuantile(res, 1.0 - a), base)
      else
        var qReg := WeightedQuantileSpec(res, wts, 1.0 - a);
        if glob != [] then Max(qReg, UnweightedQuantile(glob, 1.0 - a)) else qReg
  }

  /** With non-negative residuals and a non-negative base the radius is
      never negative. */
  lemma RadiusNonNegative(res: seq<real>, wts: seq<real>, glob: seq<real>, a: real, base: real)
    requires 0.0 <= a <= 1.0
    requires AllNonNeg(res) && AllNonNeg(glob) && base >= 0.0
    ensures Radius(res, wts, glob, a, base) >= 0.0
  {
    if res != [] {
      var eff := if wts != [] then EffectiveN(wts) else 0.0;
      if eff >= MinEffectiveN {
        var pairs := SortedPositive(res, wts);
        if TotalWeight(pairs) > 0.0 {
          WeightedQuantileIsFirstReaching(res, wts, 1.0 - a);
        }
        if glob != [] {
          assert SeqMin(glob) >= 0.0;
        }
      } else {
        assert SeqMin(res) >= 0.0;
      }
    }
  }

  /** Without decay all weights are 1, so the effective size is the buffer
      length: a buffer of fewer than 30 residuals takes the conservative
      unweighted quantile, floored by the base scale. */
  lemma RadiusUnitWeightsSmallBuffer(res: seq<real>, wts: seq<real>, glob: seq<real>, a: real, base: real)
    requires AllOnes(wts) && |wts| == |res| && 0 < |res| < 30
    ensures Radius(res, wts, glob, a, base) == Max(UnweightedQuantile(res, 1.0 - a), base)
  {
    EffectiveNOfUnitWeights(wts);
  }

  /** With enough effective samples the radius is the weighted quantile,
      never below the global buffer's unweighted quantile. */
  lemma RadiusGlobalFloor(res: seq<real>, wts: seq<real>, glob: seq<real>, a: real, base: real)
    requires res != [] && wts != [] && glob != []
    requires EffectiveN(wts) >= MinEffectiveN
    ensures Radius(res, wts, glob, a, base) >= UnweightedQuantile(glob, 1.0 - a)
    ensures Radius(res, wts, glob, a, base) >= WeightedQuantileSpec(res, wts, 1.0 - a)
    ensures Radius(res, wts, glob, a, base) == WeightedQuantileSpec(res, wts, 1.0 - a)
         || Radius(res, wts, glob, a, base) == UnweightedQuantile(glob, 1.0 - a)
  {
  }

  /** The floor is applied only in the weighted branch: a regime buffer
      holding one zero residual reports the base scale even when every
      global residual is far larger. */
  lemma SmallRegimeBufferSkipsGlobalFloor(glob: seq<real>)
    requires |glob| >= 1 && forall i :: 0 <= i < |glob| ==> glob[i] == 10.0
    ensures Radius([0.0], [1.0], glob, 0.1, 0.01) == 0.01
    ensures UnweightedQuantile(glob, 0.9) == 10.0
  {
    EffectiveNOfUnitWeights([1.0]);
    assert UnweightedQuantile([0.0], 0.9) == 0.0 by {
      assert SeqMin([0.0]) == 0.0 && SeqMax([0.0]) == 0.0;
    }
    var m := SeqMin(glob);
    var M := SeqMax(glob);
    assert m == 10.0 && M == 10.0;
  }

  /** `_q_for` for one alpha. */
  method RadiusFor(res: seq<real>, wts: seq<real>, glob: seq<real>, a: real, base: real) returns (q: real)
    requires 0.0 <= a <= 1.0
    ensures q == Radius(res, wts, glob, a, base)
  {
    if res == [] {
      return base;
    }
    var eff := if wts != [] then EffectiveN(wts) else 0.0;
    if eff < MinEffectiveN {
      return Max(UnweightedQuantile(res, 1.0 - a), base);
    }
    q := WeightedQuantile(res, wts, 1.0 - a);
    if glob != [] {
      q := Max(q, UnweightedQuantile(glob, 1.0 - a));
    }
  }

  // ---------------------------------------------------------- intervals

  /** The interval for one alpha, as `(low, high)`. */
  function Band(yHat: real, q: real): (real, real) {
    (yHat - q, yHat + q)
  }

  /** `interval`'s two result shapes: a single `(low, high)` pair, or one
      entry per requested alpha, in request order. */
  datatype IntervalOut =
    | Single(band: (real, real))
    | Multi(entries: seq<(real, (real, real))>)

  /** What `interval` returns for a buffer `(res, wts)`, the global residuals
      `glob` and the base scale. */
  function IntervalFor(res: seq<real>, wts: seq<real>, glob: seq<real>, yHat: real, alpha: real,
                       base: real, alphas: seq<real>): IntervalOut {
    if alphas != [] then
      Multi(seq(|alphas|, i requires 0 <= i < |alphas| =>
        (alphas[i], Band(yHat, Radius(res, wts, glob, alphas[i], base)))))
    else
      Single(Band(yHat, Radius(res, wts, glob, alpha, base)))
  }

  /** The interval computation of `interval`: one band per listed alpha,
      in order, or the single band for `alpha`. */
  method IntervalsFor(res: seq<real>, wts: seq<real>, glob: seq<real>, yHat: real, alpha: real,
                      base: real, alphas: seq<real>) returns (out: IntervalOut)
    requires alphas == [] ==> 0.0 <= alpha <= 1.0
    requires forall i :: 0 <= i < |alphas| ==> 0.0 <= alphas[i] <= 1.0
    ensures out == IntervalFor(res, wts, glob, yHat, alpha, base, alphas)
  {
    if alphas != [] {
      var entries: seq<(real, (real, real))> := [];
      for i := 0 to |alphas|
        invariant |entries| == i
        invariant forall j :: 0 <= j < i ==> entries[j] == (alphas[j], Band(yHat, Radius(res, wts, glob, alphas[j], base)))
      {
        var q := RadiusFor(res, wts, glob, alphas[i], base);
        entries := entries + [(alphas[i], Band(yHat, q))];
      }
      out := Multi(entries);
    } else {
      var q := RadiusFor(res, wts, glob, alpha, base);
      out := Single(Band(yHat, q));
    }
  }

  /** Every interval is symmetric about the forecast and contains it, one
      per requested alpha in request order. */
  lemma IntervalContainsForecast(res: seq<real>, wts: seq<real>, glob: seq<real>, yHat: real,
                                 alpha: real, base: real, alphas: seq<real>)
    requires AllNonNeg(res) && AllNonNeg(glob) && base >= 0.0
    requires alphas == [] ==> 0.0 <= alpha <= 1.0
    requires forall i :: 0 <= i < |alphas| ==> 0.0 <= alphas[i] <= 1.0
    ensures var out := IntervalFor(res, wts, glob, yHat, alpha, base, alphas);
      && (alphas == [] <==> out.Single?)
      && (out.Single? ==> out.band.0 <= yHat <= out.band.1 && yHat - out.band.0 == out.band.1 - yHat)
      && (out.Multi? ==>
            && |out.entries| == |alphas|
            && forall i :: 0 <= i < |alphas| ==>
                 && out.entries[i].0 == alphas[i]
                 && out.entries[i].1.0 <= yHat <= out.entries[i].1.1
                 && yHat - out.entries[i].1.0 == out.entries[i].1.1 - yHat)
  {
    if alphas == [] {
      RadiusNonNegative(res, wts, glob, alpha, base);
    } else {
      forall i | 0 <= i < |alphas| ensures Radius(res, wts, glob, alphas[i], base) >= 0.0 {
        RadiusNonNegative(res, wts, glob, alphas[i], base);
      }
    }
  }

  // ------------------------------------------------------------ buffers

  /** Which pair of deques `_buffers_for` hands back. */
  datatype Buffer = Global | Regime(name: string)

  /** The multiplicative decay `_decay` applies to a weight deque. */
  function Decayed(wts: seq<real>, decay: real): seq<real> {
    if decay < 1.0 then seq(|wts|, i requires 0 <= i < |wts| => wts[i] * decay) else wts
  }

  /** One `update` on one pair of deques: decay the weights, then append the
      residual with weight 1, each deque bounded by `window`. */
  function Learn(res: seq<real>, wts: seq<real>, r: real, decay: real, window: nat): (seq<real>, seq<real>) {
    (PushBounded(res, r, window), PushBounded(Decayed(wts, decay), 1.0, window))
  }

  /** A well-formed pair of deques: parallel, within the window, with
      non-negative residuals and, without decay, unit weights. */
  predicate BufferOk(res: seq<real>, wts: seq<real>, window: nat, decay: real) {
    && |res| == |wts| <= window
    && AllNonNeg(res)
    && (decay >= 1.0 ==> AllOnes(wts))
  }

  /** Learning keeps the residual and weight deques parallel and within the
      window; the newest entry is the residual with weight 1.0, a full buffer
      drops its oldest entry, and every kept older weight is the old one
      times the decay (untouched when `decay >= 1`). */
  lemma LearnKeepsBuffersParallel(res: seq<real>, wts: seq<real>, r: real, decay: real, window: nat)
    requires BufferOk(res, wts, window, decay) && r >= 0.0
    ensures BufferOk(Learn(res, wts, r, decay, window).0, Learn(res, wts, r, decay, window).1, window, decay)
    ensures var (res', wts') := Learn(res, wts, r, decay, window);
      && (window > 0 ==> res'[|res'| - 1] == r && wts'[|wts'| - 1] == 1.0)
      && (0 < window == |res| ==> res' == res[1..] + [r])
      && (0 < window && |res| < window ==> res' == res + [r])
      && (forall i :: 0 <= i < |wts'| - 1 ==>
            wts'[i] == (if decay < 1.0 then wts[i + |wts| + 1 - |wts'|] * decay else wts[i + |wts| + 1 - |wts'|]))
  {
    PushBoundedShape(res, r, window);
    var d := Decayed(wts, decay);
    PushBoundedShape(d, 1.0, window);
    var (res', wts') := Learn(res, wts, r, decay, window);
    assert forall i :: 0 <= i < |res'| ==> res'[i] == (res + [r])[|res| + 1 - |res'| + i];
    assert forall i :: 0 <= i < |wts'| ==> wts'[i] == (d + [1.0])[|d| + 1 - |wts'| + i];
  }

  /** The calibrator's deques: `_res_global`/`_wts_global` and the per-regime
      dictionaries of deques. */
  datatype Buffers = Buffers(resGlobal: seq<real>, wtsGlobal: seq<real>,
                             resByRegime: map<string, seq<real>>, wtsByRegime: map<string, seq<real>>)
  {
    function Res(b: Buffer): seq<real> {
      match b
      case Global => resGlobal
      case Regime(g) => if g in resByRegime then resByRegime[g] else []
    }

    function Wts(b: Buffer): seq<real> {
      match b
      case Global => wtsGlobal
      case Regime(g) => if g in wtsByRegime then wtsByRegime[g] else []
    }

    /** The side effect of `_buffers_for`: empty deques for a new label;
        no deque's contents change. */
    function Ensure(b: Buffer): (st: Buffers)
      ensures st.resGlobal == resGlobal && st.wtsGlobal == wtsGlobal
      ensures forall c :: st.Res(c) == Res(c)
      ensures resByRegime.Keys == wtsByRegime.Keys ==> forall c :: st.Wts(c) == Wts(c)
      ensures b.Regime? ==> b.name in st.resByRegime
      ensures resByRegime.Keys == wtsByRegime.Keys ==> st.resByRegime.Keys == st.wtsByRegime.Keys
    {
      if b.Regime? && b.name !in resByRegime then
        this.(resByRegime := resByRegime[b.name := []], wtsByRegime := wtsByRegime[b.name := []])
      else this
    }

    /** The same deques with those of `b` replaced by `(res, wts)`. */
    function With(b: Buffer, res: seq<real>, wts: seq<real>): (st: Buffers)
      ensures st.Res(b) == res && st.Wts(b) == wts
      ensures forall c :: c != b ==> st.Res(c) == Res(c) && st.Wts(c) == Wts(c)
      ensures resByRegime.Keys == wtsByRegime.Keys ==> st.resByRegime.Keys == st.wtsByRegime.Keys
    {
      match b
      case Global => this.(resGlobal := res, wtsGlobal := wts)
      case Regime(g) => this.(resByRegime := resByRegime[g := res], wtsByRegime := wtsByRegime[g := wts])
    }

    /** `Learn` applied to the deques `b` names. */
    function LearnInto(b: Buffer, r: real, decay: real, window: nat): Buffers {
      var (res, wts) := Learn(Res(b), Wts(b), r, decay, window);
      With(b, res, wts)
    }

    ghost predicate Valid(window: nat, decay: real) {
      && resByRegime.Keys == wtsByRegime.Keys
      && forall b: Buffer :: BufferOk(Res(b), Wts(b), window, decay)
    }
  }

  /** The deques after `update(y_hat, y_true, regime)`, where `b` is the
      buffer `_buffers_for` picks: the residual always goes to the global
      deques and, with regime buffering on, to `b` as well (so twice into the
      global deques when `b` is the global buffer). */
  function AfterUpdate(st: Buffers, r: real, b: Buffer, byRegime: bool, decay: real, window: nat): Buffers {
    var once := st.LearnInto(Global, r, decay, window);
    if byRegime then once.Ensure(b).LearnInto(b, r, decay, window) else once
  }

  lemma {:induction false} LearnIntoKeepsValid(st: Buffers, b: Buffer, r: real, decay: real, window: nat)
    requires st.Valid(window, decay) && r >= 0.0
    ensures st.LearnInto(b, r, decay, window).Valid(window, decay)
    ensures forall c: Buffer :: c != b ==>
      st.LearnInto(b, r, decay, window).Res(c) == st.Res(c) && st.LearnInto(b, r, decay, window).Wts(c) == st.Wts(c)
  {
    var res, wts := st.Res(b), st.Wts(b);
    assert BufferOk(res, wts, window, decay);
    LearnKeepsBuffersParallel(res, wts, r, decay, window);
    var st' := st.LearnInto(b, r, decay, window);
    forall c: Buffer
      ensures BufferOk(st'.Res(c), st'.Wts(c), window, decay)
      ensures c != b ==> st'.Res(c) == st.Res(c) && st'.Wts(c) == st.Wts(c)
    {
      if c != b {
        assert BufferOk(st.Res(c), st.Wts(c), window, decay);
      }
    }
  }

  lemma EnsureKeepsValid(st: Buffers, b: Buffer, decay: real, window: nat)
    requires st.Valid(window, decay)
    ensures st.Ensure(b).Valid(window, decay)
  {
    var e := st.Ensure(b);
    forall c: Buffer ensures BufferOk(e.Res(c), e.Wts(c), window, decay) {
      assert BufferOk(st.Res(c), st.Wts(c), window, decay);
    }
  }

  /** `update` keeps every deque pair well formed. */
  lemma UpdateKeepsValid(st: Buffers, r: real, b: Buffer, byRegime: bool, decay: real, window: nat)
    requires st.Valid(window, decay) && r >= 0.0
    ensures AfterUpdate(st, r, b, byRegime, decay, window).Valid(window, decay)
  {
    LearnIntoKeepsValid(st, Global, r, decay, window);
    var once := st.LearnInto(Global, r, decay, window);
    if byRegime {
      EnsureKeepsValid(once, b, decay, window);
      LearnIntoKeepsValid(once.Ensure(b), b, r, decay, window);
    }
  }

  /** After `update` its residual is the newest entry of the global deques
      and of the deques `b` names; the deques of every other regime are
      untouched. */
  lemma UpdateAppendsResidual(st: Buffers, r: real, b: Buffer, byRegime: bool, decay: real, window: nat)
    requires window > 0
    requires !byRegime ==> b == Global
    ensures var st' := AfterUpdate(st, r, b, byRegime, decay, window);
      && |st'.Res(Global)| > 0 && st'.Res(Global)[|st'.Res(Global)| - 1] == r
      && |st'.Res(b)| > 0 && st'.Res(b)[|st'.Res(b)| - 1] == r
      && forall c: Buffer :: c != b && c != Global ==> st'.Res(c) == st.Res(c)
  {
    PushBoundedNewest(st.Res(Global), r, window);
    var once := st.LearnInto(Global, r, decay, window);
    if byRegime {
      var e := once.Ensure(b);
      PushBoundedNewest(e.Res(b), r, window);
      if b != Global {
        assert e.LearnInto(b, r, decay, window).Res(Global) == once.Res(Global);
      }
    }
  }

  // ----------------------------------------------------------- the class

  class OnlineConformal {
    const window: nat
    const decay: real
    const byRegime: bool
    const coldScale: real
    var buffers: Buffers

    ghost predicate Valid()
      reads this
    {
      buffers.Valid(window, decay)
    }

    constructor (window: nat, decay: real, byRegime: bool, coldScale: real)
      ensures Valid()
      ensures this.window == window && this.decay == decay
      ensures this.byRegime == byRegime && this.coldScale == coldScale
      ensures buffers == Buffers([], [], map[], map[])
    {
      this.window := window;
      this.decay := decay;
      this.byRegime := byRegime;
      this.coldScale := coldScale;
      buffers := Buffers([], [], map[], map[]);
    }

    /** `_buffers_for` without its side effect: the global deques unless
        regime buffering is on and the label is present and non-empty. */
    function BufferFor(regime: Option<string>): (b: Buffer)
      ensures b.Regime? <==> byRegime && regime.Some? && regime.value != ""
      ensures b.Regime? ==> b.name == regime.value
    {
      if !byRegime || regime == None || regime == Some("") then Global else Regime(regime.value)
    }

    /** `_decay`: multiply every weight by `decay` in place when `decay < 1`. */
    method DecayWeights(wts: seq<real>) returns (out: seq<real>)
      ensures out == Decayed(wts, decay)
    {
      out := wts;
      if decay < 1.0 {
        for i := 0 to |out|
          invariant |out| == |wts|
          invariant forall j :: 0 <= j < i ==> out[j] == wts[j] * decay
          invariant forall j :: i <= j < |out| ==> out[j] == wts[j]
        {
          out := out[i := out[i] * decay];
        }
        assert forall j :: 0 <= j < |out| ==> out[j] == Decayed(wts, decay)[j];
      }
    }

    /** `_buffers_for`: creates empty deques for a regime label seen for the
        first time. */
    method BuffersFor(regime: Option<string>) returns (b: Buffer)
      requires Valid()
      modifies this
      ensures Valid()
      ensures b == BufferFor(regime)
      ensures buffers == old(buffers).Ensure(b)
    {
      b := BufferFor(regime);
      ghost var st := buffers;
      if b.Regime? && b.name !in buffers.resByRegime {
        buffers := buffers.(resByRegime := buffers.resByRegime[b.name := []],
                            wtsByRegime := buffers.wtsByRegime[b.name := []]);
        forall c: Buffer ensures BufferOk(buffers.Res(c), buffers.Wts(c), window, decay) {
          if c != b {
            assert buffers.Res(c) == st.Res(c) && buffers.Wts(c) == st.Wts(c);
          }
        }
      }
    }

    /** Learns `r` into the deques `b` names, decaying their weights first. */
    method LearnInto(b: Buffer, r: real)
      modifies this
      ensures buffers == old(buffers).LearnInto(b, r, decay, window)
    {
      var res := buffers.Res(b);
      var wts := DecayWeights(buffers.Wts(b));
      buffers := buffers.With(b, PushBounded(res, r, window), PushBounded(wts, 1.0, window));
    }

    /** `update`: learn `|y_true - y_hat|`. */
    method Update(yHat: real, yTrue: real, regime: Option<string>)
      requires Valid()
      modifies this
      ensures Valid()
      ensures buffers == AfterUpdate(old(buffers), Abs(yTrue - yHat), BufferFor(regime), byRegime, decay, window)
    {
      var r := Abs(yTrue - yHat);
      UpdateKeepsValid(buffers, r, BufferFor(regime), byRegime, decay, window);
      LearnIntoKeepsValid(buffers, Global, r, decay, window);
      EnsureKeepsValid(buffers.LearnInto(Global, r, decay, window), BufferFor(regime), decay, window);
      LearnInto(Global, r);
      if byRegime {
        var b := BuffersFor(regime);
        LearnInto(b, r);
      }
    }

    /** `interval`: the symmetric interval for `alpha`, or, when
        `alphasMulti` is non-empty, one interval per listed alpha, all from
        the same buffer state. No residual or weight changes; at most empty
        deques are created for an unseen regime label. */
    method Interval(yHat: real, alpha: real, regime: Option<string>, scaleHint: Option<real>,
                    alphasMulti: seq<real>) returns (out: IntervalOut)
      requires Valid()
      requires alphasMulti == [] ==> 0.0 <= alpha <= 1.0
      requires forall i :: 0 <= i < |alphasMulti| ==> 0.0 <= alphasMulti[i] <= 1.0
      modifies this
      ensures Valid()
      ensures buffers == old(buffers).Ensure(BufferFor(regime))
      ensures var b := BufferFor(regime);
        out == IntervalFor(old(buffers).Res(b), old(buffers).Wts(b), old(buffers).resGlobal,
                           yHat, alpha, scaleHint.GetOr(coldScale), alphasMulti)
    {
      var b := BuffersFor(regime);
      out := IntervalsFor(buffers.Res(b), buffers.Wts(b), buffers.resGlobal, yHat, alpha,
                          scaleHint.GetOr(coldScale), alphasMulti);
    }
  }
}
