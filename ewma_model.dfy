/** The EWMA forecaster backend: it forecasts the next tick as the current
    EMA and only then folds the current value into it. */
module EwmaModel {
  import opened Common
  import opened Sorting

  /** One EMA update: the first value seeds the EMA, later values blend in
      with weight `alpha`. */
  function EmaStep(alpha: real, x: real, ema: Option<real>): real {
    if ema.None? then x else alpha * x + (1.0 - alpha) * ema.value
  }

  /** The EMA after the values `xs`, `None` before any. */
  function EmaOf(alpha: real, xs: seq<real>): (r: Option<real>)
    ensures r.None? <==> xs == []
    decreases |xs|
  {
    if xs == [] then None else Some(EmaStep(alpha, xs[|xs| - 1], EmaOf(alpha, xs[..|xs| - 1])))
  }

  /** The forecast made for the tick after the values `xs`: the EMA held so
      far, or 0 before the first value. */
  function ForecastAfter(alpha: real, xs: seq<real>): real {
    EmaOf(alpha, xs).GetOr(0.0)
  }

  class EwmaForecaster {
    const alpha: real
    var ema: Option<real>
    /** The values fed so far. */
    ghost var seen: seq<real>

    ghost predicate Valid()
      reads this
    {
      ema == EmaOf(alpha, seen)
    }

    constructor (alpha: real)
      ensures Valid() && this.alpha == alpha && seen == []
    {
      this.alpha := alpha;
      ema := None;
      seen := [];
    }

    /** `predict_update`: forecast from the EMA held before `x`, then fold
        `x` in. The metadata is always empty. */
    method PredictUpdate(x: real) returns (yHat: real, meta: map<string, real>)
      requires Valid()
      modifies this
      ensures Valid() && seen == old(seen) + [x]
      ensures yHat == ForecastAfter(alpha, old(seen))
      ensures old(ema).None? ==> yHat == 0.0 && ema == Some(x)
      ensures old(ema).Some? ==> yHat == old(ema).value && ema == Some(EmaStep(alpha, x, old(ema)))
      ensures meta == map[]
    {
      yHat := if ema.None? then 0.0 else ema.value;
      ema := Some(EmaStep(alpha, x, ema));
      seen := seen + [x];
      assert seen[..|seen| - 1] == old(seen);
      assert EmaOf(alpha, seen) == Some(EmaStep(alpha, x, EmaOf(alpha, old(seen))));
      meta := map[];
    }
  }

  /** The forecast for tick `i` depends only on the ticks before it: changing
      the current value or any later one leaves it unchanged. */
  lemma NoLookAhead(alpha: real, xs: seq<real>, ys: seq<real>, i: nat)
    requires i <= |xs| && i <= |ys| && xs[..i] == ys[..i]
    ensures ForecastAfter(alpha, xs[..i]) == ForecastAfter(alpha, ys[..i])
  {
  }

  /** With `alpha` in `[0, 1]` the EMA stays between the smallest and the
      largest value fed. */
  lemma {:induction false} EmaBetween(alpha: real, xs: seq<real>)
    requires 0.0 <= alpha <= 1.0 && xs != []
    ensures SeqMin(xs) <= EmaOf(alpha, xs).value <= SeqMax(xs)
    decreases |xs|
  {
    var init, x := xs[..|xs| - 1], xs[|xs| - 1];
    if init != [] {
      EmaBetween(alpha, init);
      PrefixExtremes(xs);
      var e := EmaOf(alpha, init);
      assert EmaOf(alpha, xs).value == EmaStep(alpha, x, e);
      Blend(alpha, x, e.value, SeqMin(xs), SeqMax(xs));
    }
  }

  /** Dropping the last value cannot lower the minimum or raise the maximum. */
  lemma PrefixExtremes(xs: seq<real>)
    requires |xs| > 1
    ensures SeqMin(xs) <= SeqMin(xs[..|xs| - 1]) && SeqMax(xs[..|xs| - 1]) <= SeqMax(xs)
  {
    var init := xs[..|xs| - 1];
    var i :| 0 <= i < |init| && init[i] == SeqMin(init);
    var j :| 0 <= j < |init| && init[j] == SeqMax(init);
    assert init[i] == xs[i] && init[j] == xs[j];
  }

  /** A convex blend of two values in `[lo, hi]` stays in `[lo, hi]`. */
  lemma Blend(a: real, x: real, e: real, lo: real, hi: real)
    requires 0.0 <= a <= 1.0 && lo <= x <= hi && lo <= e <= hi
    ensures lo <= EmaStep(a, x, Some(e)) <= hi
  {
    MulNonNeg(a, x - lo);
    MulNonNeg(1.0 - a, e - lo);
    MulNonNeg(a, hi - x);
    MulNonNeg(1.0 - a, hi - e);
    assert a * x + (1.0 - a) * e - lo == a * (x - lo) + (1.0 - a) * (e - lo);
    assert hi - (a * x + (1.0 - a) * e) == a * (hi - x) + (1.0 - a) * (hi - e);
  }

  /** A constant stream is forecast exactly from its second tick on. */
  lemma {:induction false} ConstantStream(alpha: real, c: real, n: nat)
    requires n > 0
    ensures EmaOf(alpha, seq(n, _ => c)) == Some(c)
  {
    var xs := seq(n, _ => c);
    if n > 1 {
      assert xs[..n - 1] == seq(n - 1, _ => c);
      ConstantStream(alpha, c, n - 1);
      assert EmaStep(alpha, c, Some(c)) == c by {
        assert alpha * c + (1.0 - alpha) * c == (alpha + (1.0 - alpha)) * c;
      }
    }
  }
}
