/** The streaming feature extractor of core/features.py: an EWMA of the
    observations and of their squares, the variance and standard deviation
    derived from them, a z-score, and a warm-up flag driven by a counter. */
module Features {
  import opened Common

  /** What `update` receives: a raw value, or a tick mapping with an `x`
      and covariates. `None` stands for a value that is missing or does not
      parse as a number (the extractor reads it as 0.0); a covariate that
      `float` cannot convert is `None` too. */
  datatype Observation =
    | Raw(value: Option<real>)
    | TickMap(x: Option<real>, covariates: map<string, Option<real>>)

  /** The value `update` feeds to `_update_core`. */
  function ObservedX(obs: Observation): real {
    match obs
    case Raw(v) => v.GetOr(0.0)
    case TickMap(x, _) => x.GetOr(0.0)
  }

  /** The dictionary `update` returns. */
  datatype Features = Features(ewmMean: real, ewmVar: real, ewmStd: real, ewmVol: real,
                               z: real, ac1: real, warmup: bool, rv: real)

  const DefaultAlpha: real := 0.1
  const MinAlpha: real := 0.000001

  /** The smoothing factor chosen by `__init__`: `ewm_alpha`, else `alpha`,
      else `2 / (win + 1)` for a non-zero window, else 0.1, then clamped to
      `[1e-6, 1]`. A window of -1 with no explicit alpha divides by zero. */
  function ResolveAlpha(win: Option<int>, ewmAlpha: Option<real>, alpha: Option<real>): (a: real)
    requires ewmAlpha.Some? || alpha.Some? || win != Some(-1)
    ensures MinAlpha <= a <= 1.0
    ensures ewmAlpha.Some? ==> a == Clamp(ewmAlpha.value, MinAlpha, 1.0)
    ensures ewmAlpha.None? && alpha.Some? ==> a == Clamp(alpha.value, MinAlpha, 1.0)
    ensures ewmAlpha.None? && alpha.None? && win.Some? && win.value != 0 ==>
      a == Clamp(2.0 / (win.value as real + 1.0), MinAlpha, 1.0)
    ensures ewmAlpha.None? && alpha.None? && (win.None? || win == Some(0)) ==> a == DefaultAlpha
  {
    var raw :=
      if ewmAlpha.Some? then ewmAlpha.value
      else if alpha.Some? then alpha.value
      else if win.Some? && win.value != 0 then 2.0 / (win.value as real + 1.0)
      else DefaultAlpha;
    Max(MinAlpha, Min(raw, 1.0))
  }

  /** `int(max(1, min_warmup))`. */
  function ResolveWarmup(minWarmup: int): (r: nat)
    ensures r >= 1
    ensures minWarmup >= 1 ==> r == minWarmup
  {
    if minWarmup >= 1 then minWarmup else 1
  }

  /** One EWMA step: `a * x + (1 - a) * prev`. */
  function Ewma(a: real, x: real, prev: real): real {
    a * x + (1.0 - a) * prev
  }

  /** The features reported after an update that left mean `m` and second
      moment `s`, for observation `x` and the new count. */
  function FeaturesAt(m: real, s: real, x: real, count: nat, minWarmup: nat, sqrt: real -> real): Features {
    var v := Max(s - m * m, 0.0);
    var sd := sqrt(v);
    Features(m, v, sd, sd, if sd > 0.0 then (x - m) / sd else 0.0, 0.0, count < minWarmup, v)
  }

  /** `rv` is the tick's `rv` covariate when it is present and numeric,
      otherwise the EWMA variance. */
  function RvOf(covariates: map<string, Option<real>>, ewmVar: real): real {
    if "rv" in covariates && covariates["rv"].Some? then covariates["rv"].value else ewmVar
  }

  /** The reported features are well formed: the variance is floored at 0,
      the deviation is its non-negative square root and `ewm_vol` its alias,
      `z` is 0 whenever the deviation is 0, `ac1` is the 0.0 stub, and the
      warm-up flag holds exactly while the count is below `min_warmup`. */
  lemma FeaturesWellFormed(m: real, s: real, x: real, count: nat, minWarmup: nat, sqrt: real -> real)
    requires IsSqrt(sqrt)
    ensures var f := FeaturesAt(m, s, x, count, minWarmup, sqrt);
      && f.ewmMean == m
      && f.ewmVar >= 0.0 && (m * m <= s ==> f.ewmVar == s - m * m)
      && f.ewmStd >= 0.0 && f.ewmVol == f.ewmStd
      && (f.ewmStd == 0.0 ==> f.z == 0.0)
      && (f.ewmStd > 0.0 ==> f.z * f.ewmStd == x - m)
      && f.ac1 == 0.0
      && (f.warmup <==> count < minWarmup)
      && f.rv == f.ewmVar
  {
    var f := FeaturesAt(m, s, x, count, minWarmup, sqrt);
    assert f.ewmVar >= 0.0;
  }

  /** The EWMA mean moves from `m` towards `x` and stays between them. */
  lemma MeanBetween(a: real, x: real, m: real)
    requires 0.0 <= a <= 1.0
    ensures m <= x ==> m <= Ewma(a, x, m) <= x
    ensures x <= m ==> x <= Ewma(a, x, m) <= m
  {
    var d := x - m;
    var t := a * d;
    assert Ewma(a, x, m) == m + t;
    if x >= m {
      ScaleAtMost(a, d);
    } else {
      var d' := m - x;
      var t' := (1.0 - a) * d';
      assert Ewma(a, x, m) == x + t';
      ScaleAtMost(1.0 - a, d');
    }
  }

  /** Over the reals the second moment never falls below the squared mean:
      the update adds `(1 - a) * (s - m^2) + a * (1 - a) * (x - m)^2 >= 0`,
      so the floor at 0 in the variance never fires. */
  lemma {:induction false} MomentsStayConsistent(a: real, x: real, m: real, s: real)
    requires 0.0 <= a <= 1.0 && m * m <= s
    ensures Ewma(a, x, m) * Ewma(a, x, m) <= Ewma(a, x * x, s)
  {
    var m' := Ewma(a, x, m);
    var s' := Ewma(a, x * x, s);
    var d := x - m;
    assert m' == m + a * d;
    assert m' * m' == m * m + 2.0 * a * d * m + a * a * d * d;
    assert x * x == m * m + 2.0 * d * m + d * d;
    assert s' - m' * m' == (1.0 - a) * (s - m * m) + a * (1.0 - a) * (d * d);
    MulNonNeg(1.0 - a, s - m * m);
    MulNonNeg(a, 1.0 - a);
    assert d * d >= 0.0;
    MulNonNeg(a * (1.0 - a), d * d);
  }

  /** The `(mean, second moment)` pair after feeding `xs` in order. */
  function Moments(a: real, xs: seq<real>, m: real, s: real): (real, real)
    decreases |xs|
  {
    if xs == [] then (m, s) else MomentStep(a, xs[|xs| - 1], Moments(a, xs[..|xs| - 1], m, s))
  }

  /** One update of the `(mean, second moment)` pair by `x`. */
  function MomentStep(a: real, x: real, p: (real, real)): (real, real) {
    (Ewma(a, x, p.0), Ewma(a, x * x, p.1))
  }

  /** A stream of zeros from the initial state keeps both moments at 0, so
      the features report zero mean, variance, volatility and z-score. */
  lemma {:induction false} ZeroStreamStaysZero(a: real, xs: seq<real>, minWarmup: nat, sqrt: real -> real)
    requires IsSqrt(sqrt)
    requires forall i :: 0 <= i < |xs| ==> xs[i] == 0.0
    ensures Moments(a, xs, 0.0, 0.0) == (0.0, 0.0)
    ensures var f := FeaturesAt(0.0, 0.0, 0.0, |xs|, minWarmup, sqrt);
      f.z == 0.0 && f.ewmVol == 0.0 && f.rv == 0.0 && f.ewmVar == 0.0
    decreases |xs|
  {
    if xs != [] {
      assert Ewma(a, 0.0, 0.0) == 0.0 && Ewma(a, 0.0 * 0.0, 0.0) == 0.0;
      ZeroStreamStaysZero(a, xs[..|xs| - 1], minWarmup, sqrt);
    }
  }

  /** The mean of a stream whose values and starting mean lie in `[lo, hi]`
      stays in `[lo, hi]`. */
  lemma {:induction false} MeanStaysInRange(a: real, xs: seq<real>, m: real, s: real, lo: real, hi: real)
    requires 0.0 <= a <= 1.0 && lo <= m <= hi
    requires forall i :: 0 <= i < |xs| ==> lo <= xs[i] <= hi
    ensures lo <= Moments(a, xs, m, s).0 <= hi
    decreases |xs|
  {
    if xs != [] {
      var w := xs[..|xs| - 1];
      MeanStaysInRange(a, w, m, s, lo, hi);
      MeanBetween(a, xs[|xs| - 1], Moments(a, w, m, s).0);
    }
  }

  class FeatureExtractor {
    const alpha: real
    const minWarmup: nat
    const sqrt: real -> real
    var count: nat
    var m: real
    var s: real

    ghost predicate Valid()
      reads this
    {
      MinAlpha <= alpha <= 1.0 && minWarmup >= 1 && IsSqrt(sqrt) && m * m <= s
    }

    /** The mean, deviation and warm-up flag the current state reports. */
    function Mean(): real
      reads this
    {
      m
    }

    function Var(): real
      reads this
    {
      Max(s - m * m, 0.0)
    }

    function Std(): real
      reads this
    {
      sqrt(Var())
    }

    function Warm(): bool
      reads this
    {
      count < minWarmup
    }

    /** The state is the one reached from count `c0` and moments `(m0, s0)`
        by feeding `x`. */
    predicate Fed(c0: nat, m0: real, s0: real, x: real)
      reads this
    {
      count == c0 + 1 && m == Ewma(alpha, x, m0) && s == Ewma(alpha, x * x, s0)
    }

    /** `rv_win` is accepted and ignored. */
    constructor (win: Option<int>, rvWin: Option<int>, ewmAlpha: Option<real>, alpha: Option<real>,
                 minWarmup: int, sqrt: real -> real)
      requires ewmAlpha.Some? || alpha.Some? || win != Some(-1)
      requires IsSqrt(sqrt)
      ensures Valid()
      ensures this.alpha == ResolveAlpha(win, ewmAlpha, alpha)
      ensures this.minWarmup == ResolveWarmup(minWarmup) && this.sqrt == sqrt
      ensures count == 0 && m == 0.0 && s == 0.0
    {
      this.alpha := ResolveAlpha(win, ewmAlpha, alpha);
      this.minWarmup := ResolveWarmup(minWarmup);
      this.sqrt := sqrt;
      count, m, s := 0, 0.0, 0.0;
    }

    /** The features the current state reports for observation `x`. */
    function Report(x: real): (f: Features)
      reads this
      ensures f.ewmMean == Mean() && f.ewmStd == Std() && f.warmup == Warm()
      ensures f.ewmVar == Var() && f.rv == Var()
    {
      FeaturesAt(m, s, x, count, minWarmup, sqrt)
    }

    /** The state half of `_update_core`: count the observation and move
        both moments; the second moment stays at or above the squared mean. */
    method Absorb(x: real)
      requires Valid()
      modifies this
      ensures Valid()
      ensures Fed(old(count), old(m), old(s), x)
    {
      MomentsStayConsistent(alpha, x, m, s);
      count := count + 1;
      m, s := Ewma(alpha, x, m), Ewma(alpha, x * x, s);
    }

    /** `_update_core`: count the observation, update both moments, report. */
    method UpdateCore(x: real) returns (f: Features)
      requires Valid()
      modifies this
      ensures Valid()
      ensures Fed(old(count), old(m), old(s), x)
      ensures f == Report(x)
    {
      Absorb(x);
      f := Report(x);
    }

    /** `update`: a raw value or a tick's `x` (0.0 when missing or not a
        number) goes through `_update_core`; `rv` comes from the tick's
        covariates when it can, else it is the variance. */
    method Update(obs: Observation) returns (f: Features)
      requires Valid()
      modifies this
      ensures Valid()
      ensures Fed(old(count), old(m), old(s), ObservedX(obs))
      ensures f == Report(ObservedX(obs)).(rv := if obs.TickMap? then RvOf(obs.covariates, Var()) else Var())
      ensures f.ewmMean == Mean() && f.ewmStd == Std() && f.warmup == Warm()
    {
      match obs
      case Raw(v) =>
        f := UpdateCore(v.GetOr(0.0));
      case TickMap(x, cov) =>
        f := UpdateCore(x.GetOr(0.0));
        f := f.(rv := RvOf(cov, f.ewmVar));
    }
  }
}
