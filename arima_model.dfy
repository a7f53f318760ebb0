/** The SARIMAX backend: a rolling window of values (and of feature vectors
    when features are used), a fitted model that is cheaply extended with
    each new value and refitted every `refitEvery` ticks, and the naive
    forecast whenever statsmodels is missing or fails. Whether statsmodels
    is importable, whether an append or a fit raises, and the forecast a
    fitted model produces are parameters. */
module ArimaModel {
  import opened Common
  import opened FeatureVectors

  /** Python's `s[-w:]` for an integer `w`: the last `w` elements when `w`
      is positive, and for `w <= 0` the slice from index `-w` (so `w == 0`
      keeps everything). */
  function PySuffix<T>(s: seq<T>, w: int): (r: seq<T>)
    ensures w > 0 ==> r == Last(s, w)
    ensures w == 0 ==> r == s
    ensures w < 0 ==> r == (if -w <= |s| then s[-w..] else [])
  {
    if w > 0 then (if |s| <= w then s else s[|s| - w..])
    else if -w <= |s| then s[-w..]
    else []
  }

  /** The truncation `predict_update` applies after each append. */
  function Truncated<T>(s: seq<T>, w: int): seq<T> {
    if |s| > w then PySuffix(s, w) else s
  }

  /** What remains of the values `seen` after appending and truncating each
      in turn: the last `w` for a positive window, all of them for a zero
      window, and nothing for a negative one. */
  function Retained<T>(seen: seq<T>, w: int): (r: seq<T>)
    ensures w > 0 ==> r == Last(seen, w)
    ensures w == 0 ==> r == seen
    ensures w < 0 ==> r == []
  {
    if w > 0 then Last(seen, w) else if w == 0 then seen else []
  }

  /** Appending then truncating keeps `Retained` in step with the history. */
  lemma RetainedStep<T>(seen: seq<T>, x: T, w: int)
    ensures Truncated(Retained(seen, w) + [x], w) == Retained(seen + [x], w)
  {
    var s := Retained(seen, w) + [x];
    if w > 0 {
      PushAfterLast(seen, x, w);
    } else if w == 0 {
      assert |s| > w;
    } else {
      assert |s| == 1;
    }
  }

  /** `(p, d, q)` of the ARIMA order. */
  datatype ArimaOrder = ArimaOrder(p: int, d: int, q: int)

  /** The fewest observations `_maybe_refit` fits on: `max(10, p + d + q + 5)`. */
  function MinObs(order: ArimaOrder): (n: int)
    ensures n >= 10 && n >= order.p + order.d + order.q + 5
    ensures n == 10 || n == order.p + order.d + order.q + 5
  {
    if 10 >= order.p + order.d + order.q + 5 then 10 else order.p + order.d + order.q + 5
  }

  /** The metadata `predict_update` returns. */
  datatype Meta = Meta(model: string, refit: bool, appended: bool, nobs: nat, exogCols: seq<string>)

  /** A forecast, or the `KeyError` raised when a selected feature is missing. */
  datatype Outcome = Forecast(yHat: real, meta: Meta) | MissingFeature

  class ArimaForecaster {
    const window: int
    const order: ArimaOrder
    const refitEvery: int
    const exogKeys: Option<seq<string>>
    /** Whether statsmodels is importable. */
    const statsmodels: bool

    var featOrder: seq<string>
    var y: seq<real>
    var xs: seq<seq<real>>
    /** Whether a fitted results object is held. */
    var hasResults: bool
    var sinceRefit: int

    /** Every value, and every feature vector appended, so far. */
    ghost var seenY: seq<real>
    ghost var seenX: seq<seq<real>>

    ghost predicate Valid()
      reads this
    {
      && y == Retained(seenY, window)
      && xs == Retained(seenX, window)
      && (hasResults ==> statsmodels)
    }

    /** `ARIMAModel(window, order, refit_every=refitEvery, exog_keys=exogKeys)`. */
    constructor (window: int, order: ArimaOrder, refitEvery: int, exogKeys: Option<seq<string>>, statsmodels: bool)
      ensures Valid() && seenY == [] && seenX == []
      ensures this.window == window && this.order == order && this.refitEvery == refitEvery
      ensures this.exogKeys == exogKeys && this.statsmodels == statsmodels
      ensures featOrder == [] && !hasResults && sinceRefit == 0
    {
      this.window := window;
      this.order := order;
      this.refitEvery := refitEvery;
      this.exogKeys := exogKeys;
      this.statsmodels := statsmodels;
      featOrder := [];
      y := [];
      xs := [];
      hasResults := false;
      sinceRefit := 0;
      seenY := [];
      seenX := [];
    }

    /** `_maybe_refit`: without statsmodels or below `MinObs` values nothing
        happens; a fit is made when no results are held or `refitEvery`
        appends have passed, and a failed fit drops the results. */
    method MaybeRefit(fitOk: bool) returns (refit: bool)
      requires hasResults ==> statsmodels
      modifies this`hasResults, this`sinceRefit
      ensures hasResults ==> statsmodels
      ensures var attempt := statsmodels && |y| >= MinObs(order) && (!old(hasResults) || old(sinceRefit) >= refitEvery);
        && (refit <==> attempt && fitOk)
        && hasResults == (if attempt then fitOk else old(hasResults))
        && sinceRefit == (if refit then 0 else old(sinceRefit))
    {
      refit := false;
      if !statsmodels || |y| < MinObs(order) {
        return;
      }
      if !hasResults || sinceRefit >= refitEvery {
        if fitOk {
          hasResults, sinceRefit, refit := true, 0, true;
        } else {
          hasResults := false;
        }
      }
    }

    /** Append `x` (and its features when features are used) and truncate
        to the window. */
    method Record(x: real, v: seq<real>)
      requires Valid()
      modifies this`y, this`xs, this`seenY, this`seenX
      ensures Valid() && seenY == old(seenY) + [x]
      ensures seenX == if featOrder != [] then old(seenX) + [v] else old(seenX)
    {
      RetainedStep(seenY, x, window);
      y := Truncated(y + [x], window);
      seenY := seenY + [x];
      if featOrder != [] {
        RetainedStep(seenX, v, window);
        xs := Truncated(xs + [v], window);
        seenX := seenX + [v];
      }
    }

    /** `_vectorize`: choose the feature order on first use, then read the
        vector (`None` for the `KeyError` of a missing feature). */
    method Vectorize(f: Features) returns (v: Option<seq<real>>)
      modifies this`featOrder
      ensures featOrder == if old(featOrder) == [] then Order(f, exogKeys) else old(featOrder)
      ensures v == Vec(f, featOrder)
    {
      if featOrder == [] {
        featOrder := Order(f, exogKeys);
      }
      v := Vec(f, featOrder);
    }

    /** `predict_update(tick, feats)`: record the tick, extend the held
        results with it (`appendOk` says whether that raises), refit when
        due (`fitOk`), and forecast with the results held (`forecast`,
        `None` when forecasting raises), or else return `x` with
        `refit` reported false. */
    method PredictUpdate(x: real, f: Features, appendOk: bool, fitOk: bool, forecast: Option<real>)
      returns (out: Outcome)
      requires Valid()
      modifies this
      ensures Valid()
      ensures featOrder == if old(featOrder) == [] then Order(f, exogKeys) else old(featOrder)
      ensures out.MissingFeature? <==> Vec(f, featOrder).None?
      ensures out.MissingFeature? ==>
                && seenY == old(seenY) && seenX == old(seenX) && y == old(y) && xs == old(xs)
                && hasResults == old(hasResults) && sinceRefit == old(sinceRefit)
      ensures out.Forecast? ==>
                && seenY == old(seenY) + [x]
                && seenX == (if featOrder != [] then old(seenX) + [Vec(f, featOrder).value] else old(seenX))
                && var appended := statsmodels && old(hasResults) && appendOk;
                && var held := old(hasResults) && appendOk;
                && var since := old(sinceRefit) + (if appended then 1 else 0);
                && var attempt := statsmodels && |y| >= MinObs(order) && (!held || since >= refitEvery);
                && hasResults == (if attempt then fitOk else held)
                && sinceRefit == (if attempt && fitOk then 0 else since)
                && (if hasResults && forecast.Some?
                    then out == Forecast(forecast.value, Meta("sarimax", attempt && fitOk, appended, |y|, featOrder))
                    else out == Forecast(x, Meta("naive", false, appended, |y|, featOrder)))
    {
      var v := Vectorize(f);
      if v.None? {
        return MissingFeature;
      }
      Record(x, v.value);
      var appended := false;
      if statsmodels && hasResults {
        if appendOk {
          sinceRefit := sinceRefit + 1;
          appended := true;
        } else {
          hasResults := false;
        }
      }
      var refit := MaybeRefit(fitOk);
      if statsmodels && hasResults && forecast.Some? {
        return Forecast(forecast.value, Meta("sarimax", refit, appended, |y|, featOrder));
      }
      out := Forecast(x, Meta("naive", false, appended, |y|, featOrder));
    }
  }
}
