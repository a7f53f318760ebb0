/** The gradient-boosting backend: a sliding window of (features at t,
    value at t+1) pairs, refitted every `retrainEvery` ticks once
    `minTrain` pairs are held, falling back to a linear regressor or to the
    naive forecast when a library is missing. The libraries themselves are
    oracles: whether a fit raises and what a fitted model predicts are
    parameters. */
module XgbModel {
  import opened Common
  import opened FeatureVectors

  /** The learning library importable at start-up. */
  datatype Lib = XgbLib | SgdLib | NoLib

  /** A fitted model. */
  datatype Booster = XgbBooster | SgdBooster

  /** The metadata `predict_update` returns. */
  datatype Meta = Meta(model: string, refit: bool, nTrain: nat, featDim: nat, featCols: seq<string>)

  /** A forecast, or the `KeyError` raised when a selected feature is missing. */
  datatype Outcome = Forecast(yHat: real, meta: Meta) | MissingFeature

  /** The model a library fits. */
  function Fitted(lib: Lib): Option<Booster> {
    match lib
    case XgbLib => Some(XgbBooster)
    case SgdLib => Some(SgdBooster)
    case NoLib => None
  }

  /** The `model` metadata entry. */
  function Label(booster: Option<Booster>, isXgb: bool): string {
    if isXgb then "xgb" else if booster.Some? then "sgd" else "naive"
  }

  /** The inputs of the training pairs: every feature vector but the newest. */
  function Inputs(feats: seq<seq<real>>): seq<seq<real>> {
    if feats == [] then [] else feats[..|feats| - 1]
  }

  /** The labels of the training pairs: every value but the first. */
  function Labels(values: seq<real>): seq<real> {
    if values == [] then [] else values[1..]
  }

  class XgbForecaster {
    const window: nat
    const retrainEvery: int
    const minTrain: int
    const featureKeys: Option<seq<string>>
    const lib: Lib

    var featOrder: seq<string>
    var xs: seq<seq<real>>
    var ys: seq<real>
    var lastFeats: Option<seq<real>>
    var ticksSinceRetrain: int
    var booster: Option<Booster>
    var isXgb: bool

    /** The feature vectors and values of the ticks accepted so far. */
    ghost var feats: seq<seq<real>>
    ghost var values: seq<real>

    ghost predicate Valid()
      reads this
    {
      History() && Fitting()
    }

    /** The window holds the most recent (features, next value) pairs. */
    ghost predicate History()
      reads this`feats, this`values, this`xs, this`ys, this`lastFeats
    {
      && |feats| == |values|
      && xs == Last(Inputs(feats), window)
      && ys == Last(Labels(values), window)
      && lastFeats == (if feats == [] then None else Some(feats[|feats| - 1]))
    }

    /** A held model is the one the available library fits. */
    ghost predicate Fitting()
      reads this`booster, this`isXgb
    {
      && (isXgb <==> booster == Some(XgbBooster))
      && (booster.Some? ==> booster == Fitted(lib))
    }

    /** `XGBModel(window, retrain_every, min_train, feature_keys)` with the
        library `lib` available. */
    constructor (window: nat, retrainEvery: int, minTrain: int, featureKeys: Option<seq<string>>, lib: Lib)
      ensures Valid() && feats == [] && values == []
      ensures this.window == window && this.retrainEvery == retrainEvery && this.minTrain == minTrain
      ensures this.featureKeys == featureKeys && this.lib == lib
      ensures featOrder == [] && ticksSinceRetrain == 0 && booster == None
    {
      this.window := window;
      this.retrainEvery := retrainEvery;
      this.minTrain := minTrain;
      this.featureKeys := featureKeys;
      this.lib := lib;
      featOrder := [];
      xs := [];
      ys := [];
      lastFeats := None;
      ticksSinceRetrain := 0;
      booster := None;
      isXgb := false;
      feats := [];
      values := [];
    }

    /** `_fit_if_needed`: nothing happens below `minTrain` pairs or while a
        fresh model is held; otherwise the available library is fitted,
        and a failed fit or a missing library leaves no model. Only a
        successful fit resets the tick counter. */
    method FitIfNeeded(fitFails: bool) returns (refit: bool)
      requires Fitting()
      modifies this`booster, this`isXgb, this`ticksSinceRetrain
      ensures Fitting()
      ensures var attempt := |ys| >= minTrain && (old(booster).None? || old(ticksSinceRetrain) >= retrainEvery);
        && (refit <==> attempt && lib != NoLib && !fitFails)
        && booster == (if !attempt then old(booster) else if refit then Fitted(lib) else None)
        && ticksSinceRetrain == (if refit then 0 else old(ticksSinceRetrain))
    {
      refit := false;
      if |ys| < minTrain {
        return;
      }
      if booster.None? || ticksSinceRetrain >= retrainEvery {
        if fitFails || lib == NoLib {
          booster, isXgb := None, false;
          return;
        }
        booster := Fitted(lib);
        isXgb := lib == XgbLib;
        ticksSinceRetrain := 0;
        refit := true;
      }
    }

    /** `_vec`: choose the feature order on first use, then read the
        vector (`None` for the `KeyError` of a missing feature). */
    method Vectorize(f: Features) returns (v: Option<seq<real>>)
      modifies this`featOrder
      ensures featOrder == if old(featOrder) == [] then Order(f, featureKeys) else old(featOrder)
      ensures v == Vec(f, featOrder)
    {
      if featOrder == [] {
        featOrder := Order(f, featureKeys);
      }
      v := Vec(f, featOrder);
    }

    /** `predict_update(tick, feats)`: select the feature order on first
        use, pair the previous tick's features with `x`, refit when due and
        forecast with the model held, or `x` itself without one or when its
        prediction raises (`prediction` is `None`). */
    method PredictUpdate(x: real, f: Features, fitFails: bool, prediction: Option<real>) returns (out: Outcome)
      requires Valid()
      modifies this
      ensures Valid()
      ensures featOrder == if old(featOrder) == [] then Order(f, featureKeys) else old(featOrder)
      ensures out.MissingFeature? <==> Vec(f, featOrder).None?
      ensures out.MissingFeature? ==>
                && feats == old(feats) && values == old(values) && xs == old(xs) && ys == old(ys)
                && ticksSinceRetrain == old(ticksSinceRetrain) && booster == old(booster)
      ensures out.Forecast? ==>
                && feats == old(feats) + [Vec(f, featOrder).value] && values == old(values) + [x]
                && var attempt := |ys| >= minTrain && (old(booster).None? || old(ticksSinceRetrain) + 1 >= retrainEvery);
                && (out.meta.refit <==> attempt && lib != NoLib && !fitFails)
                && booster == (if !attempt then old(booster) else if out.meta.refit then Fitted(lib) else None)
                && ticksSinceRetrain == (if out.meta.refit then 0 else old(ticksSinceRetrain) + 1)
                && out.yHat == (if booster.Some? && prediction.Some? then prediction.value else x)
                && out.meta == Meta(Label(booster, isXgb), out.meta.refit, |ys|, |featOrder|, featOrder)
    {
      var v := Vectorize(f);
      if v.None? {
        return MissingFeature;
      }
      var refit := Accept(v.value, x, fitFails);
      var yHat := if booster.Some? && prediction.Some? then prediction.value else x;
      out := Forecast(yHat, Meta(Label(booster, isXgb), refit, |ys|, |featOrder|, featOrder));
    }

    /** The tick's features were read: record the pair, count the tick
        and refit when due. */
    method Accept(ft: seq<real>, x: real, fitFails: bool) returns (refit: bool)
      requires Valid()
      modifies this`xs, this`ys, this`lastFeats, this`feats, this`values
      modifies this`ticksSinceRetrain, this`booster, this`isXgb
      ensures Valid()
      ensures feats == old(feats) + [ft] && values == old(values) + [x]
      ensures var attempt := |ys| >= minTrain && (old(booster).None? || old(ticksSinceRetrain) + 1 >= retrainEvery);
        && (refit <==> attempt && lib != NoLib && !fitFails)
        && booster == (if !attempt then old(booster) else if refit then Fitted(lib) else None)
        && ticksSinceRetrain == (if refit then 0 else old(ticksSinceRetrain) + 1)
    {
      Absorb(ft, x);
      ticksSinceRetrain := ticksSinceRetrain + 1;
      refit := FitIfNeeded(fitFails);
    }

    /** Record the accepted tick: its features pair with nothing yet, the
        previous tick's features pair with `x`. */
    method Absorb(ft: seq<real>, x: real)
      requires History()
      modifies this`xs, this`ys, this`lastFeats, this`feats, this`values
      ensures History() && feats == old(feats) + [ft] && values == old(values) + [x]
    {
      if lastFeats.Some? {
        PushAfterLast(Inputs(feats), lastFeats.value, window);
        PushAfterLast(Labels(values), x, window);
        assert Inputs(feats + [ft]) == Inputs(feats) + [lastFeats.value];
        assert Labels(values + [x]) == Labels(values) + [x];
        xs := PushBounded(xs, lastFeats.value, window);
        ys := PushBounded(ys, x, window);
      }
      feats := feats + [ft];
      values := values + [x];
      lastFeats := Some(ft);
    }

    /** No leakage: the i-th training pair holds the features of some tick
        and the value of the tick right after it, and the pairs are the
        most recent ones. */
    lemma PairsAligned()
      requires Valid()
      ensures |xs| == |ys| <= window
      ensures forall i :: 0 <= i < |xs| ==>
                xs[i] == feats[|feats| - 1 - |xs| + i] && ys[i] == values[|feats| - |xs| + i]
    {
      WindowAligned(feats, values, window);
    }
  }

  /** The last `w` inputs and the last `w` labels pair the features of a
      tick with the value of the tick after it. */
  lemma WindowAligned(feats: seq<seq<real>>, values: seq<real>, w: nat)
    requires |feats| == |values|
    ensures |Last(Inputs(feats), w)| == |Last(Labels(values), w)| <= w
    ensures var xs, ys := Last(Inputs(feats), w), Last(Labels(values), w);
      forall i :: 0 <= i < |xs| ==>
        xs[i] == feats[|feats| - 1 - |xs| + i] && ys[i] == values[|feats| - |xs| + i]
  {
    if feats != [] {
      var ins, labs := Inputs(feats), Labels(values);
      assert ins == feats[..|feats| - 1] && labs == values[1..];
      var xs, ys := Last(ins, w), Last(labs, w);
      forall i | 0 <= i < |xs|
        ensures xs[i] == feats[|feats| - 1 - |xs| + i] && ys[i] == values[|feats| - |xs| + i]
      {
        LastIndex(ins, w, i);
        LastIndex(labs, w, i);
      }
    }
  }
}
