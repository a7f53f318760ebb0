/** The change-point detector of core/detect/bocpd.py. Despite its name it
    keeps no run-length posterior: it turns the z-score of the observation
    against the EWMA features into a change-point probability by scaling and
    clamping, counts the ticks since the last large z-score, and labels the
    regime by comparing the EWMA deviation with a volatility threshold. */
module Detect {
  import opened Common
  import opened Features

  /** A features mapping as `update` reads it; each key may be absent. */
  datatype FeatureMap = FeatureMap(ewmMean: Option<real>, ewmStd: Option<real>, warmup: Option<bool>)

  /** The features computed by the internal extractor, as a mapping. */
  function AsMap(f: Features): FeatureMap {
    FeatureMap(Some(f.ewmMean), Some(f.ewmStd), Some(f.warmup))
  }

  /** What `update` receives: a bare value, or a tick mapping whose `x` may be
      missing (read as 0.0). */
  datatype DetectorInput = Value(v: real) | Tick(x: Option<real>)

  function XOf(inp: DetectorInput): real {
    match inp
    case Value(v) => v
    case Tick(x) => x.GetOr(0.0)
  }

  /** The mapping `update` returns: `meta.cp_prob`, `cp_prob` and `regime`. */
  datatype DetectorOut = DetectorOut(metaCpProb: real, cpProb: real, regime: string)

  const DefaultZThreshold: real := 3.0
  const MinZThreshold: real := 0.000001
  const DefaultVolThreshold: real := 0.01

  /** The z-score threshold: the reciprocal of a positive `threshold`, floored
      at 1e-6, and 3.0 when no positive threshold is given. */
  function ZThreshold(threshold: Option<real>): (z: real)
    ensures z >= MinZThreshold
    ensures threshold.Some? && threshold.value > 0.0 ==>
      (z == MinZThreshold || z * threshold.value == 1.0)
    ensures threshold.Some? && threshold.value > 0.0 && 1.0 / threshold.value >= MinZThreshold ==>
      z * threshold.value == 1.0
    ensures !(threshold.Some? && threshold.value > 0.0) ==> z == DefaultZThreshold
  {
    if threshold.Some? && threshold.value > 0.0 then Max(MinZThreshold, 1.0 / threshold.value)
    else DefaultZThreshold
  }

  /** `_z_from_feat`: the standardised surprise of `x`, 0 when the deviation
      is not positive; missing keys read as 0.0. */
  function ZScore(x: real, feat: FeatureMap): (z: real)
    ensures feat.ewmStd.GetOr(0.0) <= 0.0 ==> z == 0.0
    ensures feat.ewmStd.GetOr(0.0) > 0.0 ==> z * feat.ewmStd.GetOr(0.0) == x - feat.ewmMean.GetOr(0.0)
  {
    var mean := feat.ewmMean.GetOr(0.0);
    var std := feat.ewmStd.GetOr(0.0);
    if std <= 0.0 then 0.0 else (x - mean) / std
  }

  /** `|z|`, halved during warm-up. */
  function Surprise(z: real, warmup: bool): (a: real)
    ensures a >= 0.0
    ensures !warmup ==> a == Abs(z)
    ensures warmup ==> a + a == Abs(z)
  {
    if warmup then Abs(z) * 0.5 else Abs(z)
  }

  /** `_cp_from_z`: the surprise divided by the z threshold, clamped to
      `[0, 1]`. */
  function CpFromZ(z: real, warmup: bool, zth: real): (p: real)
    requires zth > 0.0
    ensures 0.0 <= p <= 1.0
    ensures p == 1.0 <==> Surprise(z, warmup) >= zth
    ensures Surprise(z, warmup) < zth ==> p * zth == Surprise(z, warmup)
  {
    var a := Surprise(z, warmup);
    var p := a / zth;
    assert p * zth == a;
    assert (p - 1.0) * zth == a - zth;
    SignKept(p - 1.0, zth);
    if p < 0.0 then 0.0 else if p > 1.0 then 1.0 else p
  }

  /** One `update` on given features: the output and the new run length. */
  function Detect(runLength: nat, x: real, feat: FeatureMap, zth: real, volTh: real): (DetectorOut, nat)
    requires zth > 0.0
  {
    var z := ZScore(x, feat);
    var cp := CpFromZ(z, feat.warmup.GetOr(false), zth);
    var rl := if Abs(z) >= zth then 0 else runLength + 1;
    var regime := if feat.ewmStd.GetOr(0.0) >= volTh then "volatile" else "calm";
    (DetectorOut(cp, cp, regime), rl)
  }

  /** What one `update` promises: a probability in `[0, 1]` reported twice,
      a run length that resets exactly on a z-score at or above the
      threshold and otherwise grows by one (outside warm-up: exactly when the
      probability is 1; in warm-up a probability of 1 implies a reset), and
      the `volatile` label exactly when the deviation reaches the volatility
      threshold. */
  lemma DetectOutcome(runLength: nat, x: real, feat: FeatureMap, zth: real, volTh: real)
    requires zth > 0.0
    ensures var (out, rl) := Detect(runLength, x, feat, zth, volTh);
      var z := ZScore(x, feat);
      && 0.0 <= out.cpProb <= 1.0
      && out.metaCpProb == out.cpProb
      && (rl == 0 <==> Abs(z) >= zth)
      && (rl != 0 ==> rl == runLength + 1)
      && (!feat.warmup.GetOr(false) ==> (rl == 0 <==> out.cpProb == 1.0))
      && (out.cpProb == 1.0 ==> rl == 0)
      && (out.regime == "volatile" <==> feat.ewmStd.GetOr(0.0) >= volTh)
      && (out.regime == "volatile" || out.regime == "calm")
  {
    var z := ZScore(x, feat);
    var w := feat.warmup.GetOr(false);
    assert Surprise(z, w) <= Abs(z);
  }

  /** A flat stream seen outside warm-up with zero deviation never signals a
      change: the probability is 0 and the run length keeps growing. */
  lemma NoDeviationNoChange(runLength: nat, x: real, mean: real, zth: real, volTh: real)
    requires zth > 0.0
    ensures var (out, rl) := Detect(runLength, x, FeatureMap(Some(mean), Some(0.0), Some(false)), zth, volTh);
      out.cpProb == 0.0 && rl == runLength + 1 && (out.regime == "calm" <==> volTh > 0.0)
  {
  }

  class Bocpd {
    const fx: FeatureExtractor
    const zThreshold: real
    const volTh: real
    var runLength: nat

    ghost predicate Valid()
      reads this, fx
    {
      fx.Valid() && zThreshold > 0.0
    }

    /** `__init__`: the explicit arguments win over `cfg` (which holds the
        configuration in effect), and `cfg` over the defaults 0.1, 20 and
        0.01. The remaining legacy arguments are accepted and ignored, and
        are not parameters here. */
    constructor (threshold: Option<real>, volThreshold: Option<real>, alpha: Option<real>,
                 minWarmup: Option<int>, cfg: map<string, real>, sqrt: real -> real)
      requires IsSqrt(sqrt)
      ensures Valid() && fresh(fx)
      ensures fx.alpha == Clamp(alpha.GetOr(CfgGet(cfg, "ewma_alpha", DefaultAlpha)), MinAlpha, 1.0)
      ensures fx.minWarmup == ResolveWarmup(
        if minWarmup.Some? then minWarmup.value else Trunc(CfgGet(cfg, "min_warmup", 20.0)))
      ensures fx.count == 0 && fx.m == 0.0 && fx.s == 0.0
      ensures zThreshold == ZThreshold(threshold)
      ensures volTh == volThreshold.GetOr(CfgGet(cfg, "regime_vol_threshold", DefaultVolThreshold))
      ensures runLength == 0
    {
      var a := alpha.GetOr(CfgGet(cfg, "ewma_alpha", DefaultAlpha));
      var mw := if minWarmup.Some? then minWarmup.value else Trunc(CfgGet(cfg, "min_warmup", 20.0));
      fx := new FeatureExtractor(None, None, None, Some(a), mw, sqrt);
      zThreshold := ZThreshold(threshold);
      volTh := volThreshold.GetOr(CfgGet(cfg, "regime_vol_threshold", DefaultVolThreshold));
      runLength := 0;
    }

    /** `update`: supplied features are used as given and leave the internal
        extractor untouched; otherwise the extractor is fed `x` first. */
    method Update(inp: DetectorInput, features: Option<FeatureMap>) returns (out: DetectorOut)
      requires Valid()
      modifies this, fx
      ensures Valid()
      ensures features.Some? ==>
        && unchanged(fx)
        && (out, runLength) == Detect(old(runLength), XOf(inp), features.value, zThreshold, volTh)
      ensures features.None? ==>
        && fx.Fed(old(fx.count), old(fx.m), old(fx.s), XOf(inp))
        && (out, runLength) == Detect(old(runLength), XOf(inp),
             AsMap(FeaturesAt(fx.m, fx.s, XOf(inp), fx.count, fx.minWarmup, fx.sqrt)), zThreshold, volTh)
    {
      var x := XOf(inp);
      var feat: FeatureMap;
      if features.Some? {
        feat := features.value;
      } else {
        var f := fx.Update(Raw(Some(x)));
        feat := AsMap(f);
      }
      var z := ZScore(x, feat);
      var cp := CpFromZ(z, feat.warmup.GetOr(false), zThreshold);
      if Abs(z) >= zThreshold {
        runLength := 0;
      } else {
        runLength := runLength + 1;
      }
      var regime := if feat.ewmStd.GetOr(0.0) >= volTh then "volatile" else "calm";
      out := DetectorOut(cp, cp, regime);
    }

    /** `step`: the same as `update`. */
    method Step(inp: DetectorInput, features: Option<FeatureMap>) returns (out: DetectorOut)
      requires Valid()
      modifies this, fx
      ensures Valid()
      ensures features.Some? ==>
        && unchanged(fx)
        && (out, runLength) == Detect(old(runLength), XOf(inp), features.value, zThreshold, volTh)
      ensures features.None? ==>
        && fx.Fed(old(fx.count), old(fx.m), old(fx.s), XOf(inp))
        && (out, runLength) == Detect(old(runLength), XOf(inp),
             AsMap(FeaturesAt(fx.m, fx.s, XOf(inp), fx.count, fx.minWarmup, fx.sqrt)), zThreshold, volTh)
    {
      out := Update(inp, features);
    }
  }
}
