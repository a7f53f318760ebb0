/** The backtest runner of backtest/runner.py: it replays a stream of ticks
    through a pipeline, pairs each forecast with the next tick's value
    (one step ahead), feeds the previous tick's value back as truth, and
    scores the aligned sequences. */
module Backtest {
  import opened Common
  import opened Features
  import opened OnlinePipeline
  import opened Metrics

  /** One replayed tick: its value, timestamp and the optional change-point
      labels `cp` and `is_cp`. */
  datatype Tick = Tick(x: real, timestamp: string, cp: Option<real>, isCp: Option<real>)

  /** One row of the backtest log. */
  datatype LogEntry = LogEntry(t: string, y: real, yHat: real, ql: real, qh: real, regime: string,
                               score: real, cpProb: real, cpTrue: real, latTotalMs: real)

  /** The metrics dictionary `run` returns. */
  datatype Scores = Scores(mae: real, rmse: real, smape: real, coverage: real,
                           latencyP50Ms: real, latencyP95Ms: real)

  /** `cp`, else `is_cp`, else 0.0. */
  function CpTrue(t: Tick): (c: real)
    ensures t.cp.Some? ==> c == t.cp.value
    ensures t.cp.None? && t.isCp.Some? ==> c == t.isCp.value
    ensures t.cp.None? && t.isCp.None? ==> c == 0.0
  {
    if t.cp.Some? then t.cp.value else if t.isCp.Some? then t.isCp.value else 0.0
  }

  /** The log row written at tick `t` for the forecast `p` made at the tick
      before, whose processing took `lat` milliseconds. */
  function Entry(t: Tick, p: Prediction, lat: real): (e: LogEntry)
    ensures e.y == t.x && e.yHat == p.yHat && e.ql == p.intervalLow && e.qh == p.intervalHigh
    ensures e.cpProb == p.score && e.score == p.score && e.regime == p.regime
    ensures e.t == t.timestamp && e.cpTrue == CpTrue(t) && e.latTotalMs == lat
  {
    LogEntry(t.timestamp, t.x, p.yHat, p.intervalLow, p.intervalHigh, p.regime, p.score, p.score, CpTrue(t), lat)
  }

  /** The number of aligned entries for `n` ticks: `max(0, n - 1)`. */
  function Pairs(n: nat): (k: nat)
    ensures n == 0 ==> k == 0
    ensures n > 0 ==> k == n - 1
  {
    if n == 0 then 0 else n - 1
  }

  /** `y_true_seq`: the value of every tick after the first. */
  function Truths(ticks: seq<Tick>): (ys: seq<real>)
    ensures |ys| == Pairs(|ticks|)
    ensures forall j :: 0 <= j < |ys| ==> ys[j] == ticks[j + 1].x
  {
    seq(Pairs(|ticks|), j requires 0 <= j < Pairs(|ticks|) => ticks[j + 1].x)
  }

  /** `y_pred_seq`, `ql_seq`, `qh_seq`: the forecasts and intervals of
      every tick but the last. */
  function Forecasts(preds: seq<Prediction>): (f: seq<real>)
    ensures |f| == Pairs(|preds|)
    ensures forall j :: 0 <= j < |f| ==> f[j] == preds[j].yHat
  {
    seq(Pairs(|preds|), j requires 0 <= j < Pairs(|preds|) => preds[j].yHat)
  }

  function Lows(preds: seq<Prediction>): (f: seq<real>)
    ensures |f| == Pairs(|preds|)
    ensures forall j :: 0 <= j < |f| ==> f[j] == preds[j].intervalLow
  {
    seq(Pairs(|preds|), j requires 0 <= j < Pairs(|preds|) => preds[j].intervalLow)
  }

  function Highs(preds: seq<Prediction>): (f: seq<real>)
    ensures |f| == Pairs(|preds|)
    ensures forall j :: 0 <= j < |f| ==> f[j] == preds[j].intervalHigh
  {
    seq(Pairs(|preds|), j requires 0 <= j < Pairs(|preds|) => preds[j].intervalHigh)
  }

  /** The five lists `run` fills: truths, forecasts, interval bounds and
      the log. */
  datatype Series = Series(ys: seq<real>, yps: seq<real>, qls: seq<real>, qhs: seq<real>, log: seq<LogEntry>)

  /** The lists after `n` of the ticks, whose forecasts are `preds`. */
  function Aligned(ticks: seq<Tick>, preds: seq<Prediction>, lat: seq<real>, n: nat): (a: Series)
    requires n <= |ticks| && n <= |preds| && n <= |lat|
    ensures |a.log| == Pairs(n)
    ensures forall j :: 0 <= j < Pairs(n) ==> a.log[j] == Entry(ticks[j + 1], preds[j], lat[j])
  {
    var k := Pairs(n);
    Series(seq(k, j requires 0 <= j < k => ticks[j + 1].x),
           seq(k, j requires 0 <= j < k => preds[j].yHat),
           seq(k, j requires 0 <= j < k => preds[j].intervalLow),
           seq(k, j requires 0 <= j < k => preds[j].intervalHigh),
           seq(k, j requires 0 <= j < k => Entry(ticks[j + 1], preds[j], lat[j])))
  }

  /** The body of `if prev_pred is not None`: one entry appended to each
      list. */
  function Record(a: Series, tick: Tick, prev: Prediction, prevLatency: real): Series {
    Series(a.ys + [tick.x], a.yps + [prev.yHat], a.qls + [prev.intervalLow], a.qhs + [prev.intervalHigh],
           a.log + [Entry(tick, prev, prevLatency)])
  }

  /** The appends of one turn: none at the first tick, one entry for the
      previous forecast afterwards. */
  function Recorded(a: Series, tick: Tick, prevPred: Option<Prediction>, prevLatency: real): Series {
    if prevPred.Some? then Record(a, tick, prevPred.value, prevLatency) else a
  }

  lemma AlignedNext(ticks: seq<Tick>, preds: seq<Prediction>, pred: Prediction, lat: seq<real>, i: nat,
                    prevPred: Option<Prediction>, prevLatency: real)
    requires i < |ticks| && i < |lat| && |preds| == i
    requires i == 0 ==> prevPred.None?
    requires i > 0 ==> prevPred == Some(preds[i - 1]) && prevLatency == lat[i - 1]
    ensures Recorded(Aligned(ticks, preds, lat, i), ticks[i], prevPred, prevLatency) == Aligned(ticks, preds + [pred], lat, i + 1)
  {
    AlignedStep(ticks, preds, pred, lat, i);
  }

  /** Processing tick `i` appends one entry for the forecast of tick
      `i - 1`, and none at the first tick. */
  lemma AlignedStep(ticks: seq<Tick>, preds: seq<Prediction>, pred: Prediction, lat: seq<real>, i: nat)
    requires i < |ticks| && i < |lat| && |preds| == i
    ensures i == 0 ==> Aligned(ticks, preds + [pred], lat, 1) == Aligned(ticks, preds, lat, 0)
    ensures i > 0 ==> Aligned(ticks, preds + [pred], lat, i + 1)
                      == Record(Aligned(ticks, preds, lat, i), ticks[i], preds[i - 1], lat[i - 1])
  {
  }

  /** The whole replay is aligned as the metrics expect. */
  lemma AlignedAll(ticks: seq<Tick>, preds: seq<Prediction>, lat: seq<real>)
    requires |preds| == |ticks| == |lat|
    ensures var a := Aligned(ticks, preds, lat, |ticks|);
      a.ys == Truths(ticks) && a.yps == Forecasts(preds) && a.qls == Lows(preds) && a.qhs == Highs(preds)
  {
  }

  /** The metrics computed from the aligned sequences and all latencies. */
  function ScoresOf(ticks: seq<Tick>, preds: seq<Prediction>, lat: seq<real>, sqrt: real -> real): (m: Scores)
    requires IsSqrt(sqrt)
    ensures 0.0 <= m.coverage <= 1.0 && 0.0 <= m.smape < 2.0 && m.mae >= 0.0 && m.rmse >= 0.0
    ensures lat != [] ==> m.latencyP50Ms <= m.latencyP95Ms
  {
    var ys := Truths(ticks);
    var yps := Forecasts(preds);
    var p := LatencyP50P95(lat);
    Scores(Mae(ys, yps), Rmse(ys, yps, sqrt), Smape(ys, yps), Coverage(ys, Lows(preds), Highs(preds)),
           p.p50, p.p95)
  }

  /** The latencies the runner collects: `pred.get("latency_ms", {})`
      finds no such field in what `process` returns, so each is the
      default 0.0. */
  function NoLatency(n: nat): (lat: seq<real>)
    ensures |lat| == n
    ensures forall i :: 0 <= i < n ==> lat[i] == 0.0
  {
    seq(n, _ => 0.0)
  }

  /** With no latency recorded, both latency percentiles are 0.0. */
  lemma NoLatencyScores(ticks: seq<Tick>, preds: seq<Prediction>, sqrt: real -> real)
    requires IsSqrt(sqrt)
    ensures ScoresOf(ticks, preds, NoLatency(|ticks|), sqrt).latencyP50Ms == 0.0
    ensures ScoresOf(ticks, preds, NoLatency(|ticks|), sqrt).latencyP95Ms == 0.0
  {
    var lat := NoLatency(|ticks|);
    if lat != [] {
      var p := LatencyP50P95(lat);
      assert p.p50 in lat && p.p95 in lat;
    }
  }

  /** The residuals the runner teaches the calibrator in its first `k`
      truth calls when `truths[j]` is the truth it gives for the forecast
      made at tick `j`: that truth against the forecast, under the
      forecast's regime. */
  function Calibration(truths: seq<real>, preds: seq<Prediction>, k: nat): (rs: seq<(real, Option<string>)>)
    requires k <= |truths| && k <= |preds|
    ensures |rs| == k
    ensures forall j :: 0 <= j < k ==> rs[j] == (Abs(truths[j] - preds[j].yHat), Some(preds[j].regime))
  {
    seq(k, j requires 0 <= j < k => (Abs(truths[j] - preds[j].yHat), Some(preds[j].regime)))
  }

  /** The residual buffers after learning `rs` in order. */
  function LearnAll(res: Residuals, rs: seq<(real, Option<string>)>, maxlen: nat): Residuals
    decreases |rs|
  {
    if rs == [] then res
    else Learn(LearnAll(res, rs[..|rs| - 1], maxlen), rs[|rs| - 1].0, rs[|rs| - 1].1, maxlen)
  }

  lemma LearnAllBounded(res: Residuals, rs: seq<(real, Option<string>)>, maxlen: nat)
    requires res.Bounded(maxlen)
    ensures LearnAll(res, rs, maxlen).Bounded(maxlen)
    ensures LearnAll(res, rs, maxlen).byRegime.Keys == res.byRegime.Keys
    decreases |rs|
  {
    if rs != [] {
      LearnAllBounded(res, rs[..|rs| - 1], maxlen);
      LearnSpec(LearnAll(res, rs[..|rs| - 1], maxlen), rs[|rs| - 1].0, rs[|rs| - 1].1, maxlen);
    }
  }

  /** The truth for tick `i - 1` adds the `i`-th residual of the
      calibration. */
  lemma CalibrationExtend(res0: Residuals, truths: seq<real>, preds: seq<Prediction>, i: nat, maxlen: nat)
    requires 0 < i <= |truths| && i <= |preds|
    ensures LearnAll(res0, Calibration(truths, preds, i), maxlen)
            == Learn(LearnAll(res0, Calibration(truths, preds, i - 1), maxlen),
                     Abs(truths[i - 1] - preds[i - 1].yHat), Some(preds[i - 1].regime), maxlen)
  {
    assert Calibration(truths, preds, i)[..i - 1] == Calibration(truths, preds, i - 1);
  }

  /** A later forecast does not change the calibration so far. */
  lemma CalibrationStable(truths: seq<real>, preds: seq<Prediction>, pred: Prediction, k: nat)
    requires k <= |truths| && k <= |preds|
    ensures Calibration(truths, preds + [pred], k) == Calibration(truths, preds, k)
  {
  }

  /** The values of the ticks. */
  function Values(ticks: seq<Tick>): (xs: seq<real>)
    ensures |xs| == |ticks|
    ensures forall j :: 0 <= j < |xs| ==> xs[j] == ticks[j].x
  {
    seq(|ticks|, j requires 0 <= j < |ticks| => ticks[j].x)
  }

  /** Feeding tick `i` extends the moments of the values before it. */
  lemma MomentsStep(a: real, ticks: seq<Tick>, i: nat, m: real, s: real)
    requires i < |ticks|
    ensures Moments(a, Values(ticks[..i + 1]), m, s) == MomentStep(a, ticks[i].x, Moments(a, Values(ticks[..i]), m, s))
  {
    var xs := Values(ticks[..i + 1]);
    assert xs[..|xs| - 1] == Values(ticks[..i]);
    assert xs[|xs| - 1] == ticks[i].x;
  }

  /** The truth `run` gives for the forecast made at tick `j`: as written
      it is the value of tick `j` itself, the tick that forecast has
      already absorbed; `corrected` gives the value of tick `j + 1`, the one
      the forecast is scored against. */
  function TruthsFed(ticks: seq<Tick>, corrected: bool): (ts: seq<real>)
    ensures |ts| >= Pairs(|ticks|)
  {
    if corrected then Truths(ticks) else Values(ticks)
  }

  /** `run`: replay `ticks` through `pipe`. The latency the runner reads
      is the `latency_ms` field of the prediction, which `process` never
      returns, so every tick's latency is 0.0. The ghost `preds` are the
      forecasts `process` returned, one per tick. */
  method Run(pipe: Pipeline, ticks: seq<Tick>, sqrt: real -> real)
    returns (m: Scores, log: seq<LogEntry>, ghost preds: seq<Prediction>)
    requires pipe.Valid() && IsSqrt(sqrt)
    modifies pipe, pipe.fx
    ensures pipe.Valid()
    ensures |preds| == |ticks| && |log| == Pairs(|ticks|)
    ensures forall j :: 0 <= j < |log| ==> log[j] == Entry(ticks[j + 1], preds[j], 0.0)
    ensures m == ScoresOf(ticks, preds, NoLatency(|ticks|), sqrt)
    ensures m.latencyP50Ms == 0.0 && m.latencyP95Ms == 0.0
    ensures forall i :: 0 <= i < |ticks| ==>
              preds[i].yHat == Moments(pipe.fx.alpha, Values(ticks[..i + 1]), old(pipe.fx.m), old(pipe.fx.s)).0
    ensures pipe.res == LearnAll(old(pipe.res), Calibration(Values(ticks), preds, Pairs(|ticks|)), pipe.maxlen)
    ensures pipe.pending == old(pipe.pending)
    ensures pipe.fx.count == old(pipe.fx.count) + |ticks|
    ensures (pipe.fx.m, pipe.fx.s) == Moments(pipe.fx.alpha, Values(ticks), old(pipe.fx.m), old(pipe.fx.s))
  {
    var lat := NoLatency(|ticks|);
    var acc;
    acc, preds := Replay(pipe, ticks, lat, false);
    assert ticks[..|ticks|] == ticks;
    log := acc.log;
    m := Score(ticks, preds, lat, sqrt, acc);
    NoLatencyScores(ticks, preds, sqrt);
  }

  /** `run` with the truth call fed the current tick's value, so that the
      calibrator learns exactly the errors the metrics score. */
  method RunCorrected(pipe: Pipeline, ticks: seq<Tick>, sqrt: real -> real)
    returns (m: Scores, log: seq<LogEntry>, ghost preds: seq<Prediction>)
    requires pipe.Valid() && IsSqrt(sqrt)
    modifies pipe, pipe.fx
    ensures pipe.Valid()
    ensures |preds| == |ticks| && |log| == Pairs(|ticks|)
    ensures forall j :: 0 <= j < |log| ==> log[j] == Entry(ticks[j + 1], preds[j], 0.0)
    ensures m == ScoresOf(ticks, preds, NoLatency(|ticks|), sqrt)
    ensures m.latencyP50Ms == 0.0 && m.latencyP95Ms == 0.0
    ensures forall i :: 0 <= i < |ticks| ==>
              preds[i].yHat == Moments(pipe.fx.alpha, Values(ticks[..i + 1]), old(pipe.fx.m), old(pipe.fx.s)).0
    ensures pipe.res == LearnAll(old(pipe.res), Calibration(Truths(ticks), preds, Pairs(|ticks|)), pipe.maxlen)
    ensures forall j :: 0 <= j < Pairs(|ticks|) ==>
              Calibration(Truths(ticks), preds, Pairs(|ticks|))[j].0 == Abs(Truths(ticks)[j] - Forecasts(preds)[j])
    ensures pipe.pending == old(pipe.pending)
    ensures pipe.fx.count == old(pipe.fx.count) + |ticks|
  {
    var lat := NoLatency(|ticks|);
    var acc;
    acc, preds := Replay(pipe, ticks, lat, true);
    log := acc.log;
    m := Score(ticks, preds, lat, sqrt, acc);
    NoLatencyScores(ticks, preds, sqrt);
  }

  /** The metrics block after the loop. */
  method Score(ticks: seq<Tick>, ghost preds: seq<Prediction>, lat: seq<real>, sqrt: real -> real, acc: Series)
    returns (m: Scores)
    requires IsSqrt(sqrt) && |preds| == |ticks| == |lat|
    requires acc == Aligned(ticks, preds, lat, |ticks|)
    ensures m == ScoresOf(ticks, preds, lat, sqrt)
  {
    AlignedAll(ticks, preds, lat);
    // `lat_seq` collects `lat[i]` for every tick, so it is `lat` itself.
    var p := LatencyP50P95(lat);
    m := Scores(Mae(acc.ys, acc.yps), Rmse(acc.ys, acc.yps, sqrt), Smape(acc.ys, acc.yps),
                Coverage(acc.ys, acc.qls, acc.qhs), p.p50, p.p95);
  }

  /** The loop of `run`: one truth call and one `process` per tick,
      collecting the aligned lists. */
  method Replay(pipe: Pipeline, ticks: seq<Tick>, lat: seq<real>, corrected: bool)
    returns (acc: Series, ghost preds: seq<Prediction>)
    requires pipe.Valid() && |lat| == |ticks|
    modifies pipe, pipe.fx
    ensures |preds| == |ticks| && acc == Aligned(ticks, preds, lat, |ticks|)
    ensures Replayed(pipe, ticks, TruthsFed(ticks, corrected), preds, |ticks|,
                     old(pipe.res), old(pipe.fx.count), old(pipe.fx.m), old(pipe.fx.s), old(pipe.pending))
    ensures MeansReplayed(pipe.fx.alpha, ticks, preds, old(pipe.fx.m), old(pipe.fx.s))
  {
    ghost var res0, c0, m0, s0, pend0 := pipe.res, pipe.fx.count, pipe.fx.m, pipe.fx.s, pipe.pending;
    acc := Series([], [], [], [], []);
    preds := [];
    var prevX: Option<real> := None;
    var prevPred: Option<Prediction> := None;
    var prevLatency := 0.0;
    var i := 0;
    LoopingStarts(pipe, ticks, lat, corrected);
    while i < |ticks|
      invariant Looping(pipe, ticks, lat, corrected, preds, i, prevX, prevPred, prevLatency, acc, res0, c0, m0, s0, pend0)
      decreases |ticks| - i
    {
      var pred;
      acc, pred := Advance(pipe, ticks, lat, corrected, preds, i, prevX, prevPred, prevLatency, acc, res0, c0, m0, s0, pend0);
      preds := preds + [pred];
      prevX, prevPred, prevLatency := Some(ticks[i].x), Some(pred), lat[i];
      i := i + 1;
    }
  }

  lemma LoopingStarts(pipe: Pipeline, ticks: seq<Tick>, lat: seq<real>, corrected: bool)
    requires pipe.Valid() && |lat| == |ticks|
    ensures Looping(pipe, ticks, lat, corrected, [], 0, None, None, 0.0, Series([], [], [], [], []),
                    pipe.res, pipe.fx.count, pipe.fx.m, pipe.fx.s, pipe.pending)
  {
    assert ticks[..0] == [];
    assert Calibration(TruthsFed(ticks, corrected), [], 0) == [];
    assert Aligned(ticks, [], lat, 0) == Series([], [], [], [], []);
  }

  /** The state of the loop of `run` before tick `i`. */
  ghost predicate Looping(pipe: Pipeline, ticks: seq<Tick>, lat: seq<real>, corrected: bool, preds: seq<Prediction>, i: nat,
                          prevX: Option<real>, prevPred: Option<Prediction>, prevLatency: real, acc: Series,
                          res0: Residuals, c0: nat, m0: real, s0: real, pend0: seq<Pending>)
    reads pipe, pipe.fx
  {
    && i <= |ticks| && |lat| == |ticks| && |preds| == i
    && (i == 0 ==> prevX.None? && prevPred.None?)
    && (i > 0 ==> prevX == Some(ticks[i - 1].x) && prevPred == Some(preds[i - 1]) && prevLatency == lat[i - 1])
    && acc == Aligned(ticks, preds, lat, i)
    && Replayed(pipe, ticks, TruthsFed(ticks, corrected), preds, i, res0, c0, m0, s0, pend0)
    && MeansReplayed(pipe.fx.alpha, ticks, preds, m0, s0)
  }

  /** Every forecast so far is the mean of the values up to its tick. */
  ghost predicate MeansReplayed(alpha: real, ticks: seq<Tick>, preds: seq<Prediction>, m0: real, s0: real) {
    && |preds| <= |ticks|
    && forall k :: 0 <= k < |preds| ==> preds[k].yHat == Moments(alpha, Values(ticks[..k + 1]), m0, s0).0
  }

  /** The truth fed for the forecast of tick `i - 1`. */
  lemma TruthFedAt(ticks: seq<Tick>, corrected: bool, i: nat)
    requires i < |ticks|
    ensures i <= |TruthsFed(ticks, corrected)|
    ensures i > 0 ==> TruthsFed(ticks, corrected)[i - 1] == (if corrected then ticks[i].x else ticks[i - 1].x)
  {
  }

  lemma MeansExtend(alpha: real, ticks: seq<Tick>, preds: seq<Prediction>, pred: Prediction, i: nat, m0: real, s0: real)
    requires MeansReplayed(alpha, ticks, preds, m0, s0) && |preds| == i < |ticks|
    requires pred.yHat == Moments(alpha, Values(ticks[..i + 1]), m0, s0).0
    ensures MeansReplayed(alpha, ticks, preds + [pred], m0, s0)
  {
  }

  /** One turn of the loop of `run`: the truth call (the previous tick's
      value as written, the current one when `corrected`), `process`, and
      the bookkeeping of the aligned lists. */
  method Advance(pipe: Pipeline, ticks: seq<Tick>, lat: seq<real>, corrected: bool, ghost preds: seq<Prediction>, i: nat,
                 prevX: Option<real>, prevPred: Option<Prediction>, prevLatency: real, acc: Series,
                 ghost res0: Residuals, ghost c0: nat, ghost m0: real, ghost s0: real, ghost pend0: seq<Pending>)
    returns (acc': Series, pred: Prediction)
    requires i < |ticks|
    requires Looping(pipe, ticks, lat, corrected, preds, i, prevX, prevPred, prevLatency, acc, res0, c0, m0, s0, pend0)
    modifies pipe, pipe.fx
    ensures Looping(pipe, ticks, lat, corrected, preds + [pred], i + 1, Some(ticks[i].x), Some(pred), lat[i], acc',
                    res0, c0, m0, s0, pend0)
  {
    ghost var truths := TruthsFed(ticks, corrected);
    var truth := if corrected && prevX.Some? then Some(ticks[i].x) else prevX;
    TruthFedAt(ticks, corrected, i);
    pred := Turn(pipe, ticks, truths, preds, i, truth, res0, c0, m0, s0, pend0);
    MeansExtend(pipe.fx.alpha, ticks, preds, pred, i, m0, s0);
    AlignedNext(ticks, preds, pred, lat, i, prevPred, prevLatency);
    acc' := Recorded(acc, ticks[i], prevPred, prevLatency);
    LoopingNext(pipe, ticks, lat, corrected, preds, pred, i, acc', res0, c0, m0, s0, pend0);
  }

  lemma LoopingNext(pipe: Pipeline, ticks: seq<Tick>, lat: seq<real>, corrected: bool, preds: seq<Prediction>,
                    pred: Prediction, i: nat, acc: Series, res0: Residuals, c0: nat, m0: real, s0: real, pend0: seq<Pending>)
    requires i < |ticks| && |lat| == |ticks| && |preds| == i
    requires acc == Aligned(ticks, preds + [pred], lat, i + 1)
    requires Replayed(pipe, ticks, TruthsFed(ticks, corrected), preds + [pred], i + 1, res0, c0, m0, s0, pend0)
    requires MeansReplayed(pipe.fx.alpha, ticks, preds + [pred], m0, s0)
    ensures Looping(pipe, ticks, lat, corrected, preds + [pred], i + 1, Some(ticks[i].x), Some(pred), lat[i], acc,
                    res0, c0, m0, s0, pend0)
  {
  }

  /** The pipeline after the first `i` ticks of a replay that started from
      buffers `res0`, count `c0` and moments `(m0, s0)`: the buffers hold the
      calibration of the truths fed so far, the pending map is untouched,
      the extractor has absorbed the first `i` values, and the last
      forecast is the one for tick `i - 1`. */
  ghost predicate Replayed(pipe: Pipeline, ticks: seq<Tick>, truths: seq<real>, preds: seq<Prediction>, i: nat,
                           res0: Residuals, c0: nat, m0: real, s0: real, pend0: seq<Pending>)
    reads pipe, pipe.fx
  {
    && i <= |ticks| && |preds| == i && Pairs(i) <= |truths|
    && pipe.Valid()
    && pipe.res == LearnAll(res0, Calibration(truths, preds, Pairs(i)), pipe.maxlen)
    && pipe.pending == pend0
    && pipe.fx.count == c0 + i
    && (pipe.fx.m, pipe.fx.s) == Moments(pipe.fx.alpha, Values(ticks[..i]), m0, s0)
    && (i > 0 ==> pipe.lastYHat == Some(preds[i - 1].yHat) && pipe.lastRegime == Some(preds[i - 1].regime))
  }

  /** The pipeline calls of one loop turn: the truth for the forecast of
      tick `i - 1`, if any, then `process` on tick `i`. */
  method Turn(pipe: Pipeline, ticks: seq<Tick>, ghost truths: seq<real>, ghost preds: seq<Prediction>, i: nat, truth: Option<real>,
              ghost res0: Residuals, ghost c0: nat, ghost m0: real, ghost s0: real, ghost pend0: seq<Pending>)
    returns (pred: Prediction)
    requires i < |ticks| && i <= |truths| && Replayed(pipe, ticks, truths, preds, i, res0, c0, m0, s0, pend0)
    requires truth == (if i == 0 then None else Some(truths[i - 1]))
    modifies pipe, pipe.fx
    ensures Replayed(pipe, ticks, truths, preds + [pred], i + 1, res0, c0, m0, s0, pend0)
    ensures pred.yHat == Moments(pipe.fx.alpha, Values(ticks[..i + 1]), m0, s0).0
  {
    TurnTruth(pipe, truths, preds, i, truth, res0);
    MomentsStep(pipe.fx.alpha, ticks, i, m0, s0);
    pred := Forecast(pipe, ticks[i].x);
    CalibrationStable(truths, preds, pred, i);
  }

  /** The truth half of a turn: afterwards the buffers hold the first `i`
      residuals of the calibration. */
  method TurnTruth(pipe: Pipeline, ghost truths: seq<real>, ghost preds: seq<Prediction>, i: nat, truth: Option<real>,
                   ghost res0: Residuals)
    requires i <= |truths| && |preds| == i && pipe.Valid()
    requires pipe.res == LearnAll(res0, Calibration(truths, preds, Pairs(i)), pipe.maxlen)
    requires i > 0 ==> pipe.lastYHat == Some(preds[i - 1].yHat) && pipe.lastRegime == Some(preds[i - 1].regime)
    requires truth == (if i == 0 then None else Some(truths[i - 1]))
    modifies pipe
    ensures pipe.Valid()
    ensures pipe.res == LearnAll(res0, Calibration(truths, preds, i), pipe.maxlen)
    ensures pipe.pending == old(pipe.pending)
  {
    if i == 0 {
      Feedback(pipe, truth, 0.0, 0.0, "");
    } else {
      ghost var before := pipe.res;
      Feedback(pipe, truth, truths[i - 1], preds[i - 1].yHat, preds[i - 1].regime);
      TruthLearned(res0, truths, preds, i, before, pipe.res, pipe.maxlen);
    }
  }

  /** Learning the truth of the forecast of tick `i - 1` extends the
      calibration by its `i`-th residual. */
  lemma TruthLearned(res0: Residuals, truths: seq<real>, preds: seq<Prediction>, i: nat,
                     before: Residuals, after: Residuals, maxlen: nat)
    requires 0 < i <= |truths| && i <= |preds|
    requires before == LearnAll(res0, Calibration(truths, preds, Pairs(i)), maxlen)
    requires after == Learn(before, Abs(truths[i - 1] - preds[i - 1].yHat), Some(preds[i - 1].regime), maxlen)
    ensures after == LearnAll(res0, Calibration(truths, preds, i), maxlen)
  {
    assert Pairs(i) == i - 1;
    CalibrationExtend(res0, truths, preds, i, maxlen);
  }

  /** The truth call at the top of the loop: `update_truth` with `truth`,
      if any, learning against the last forecast, here `yHat` under
      `regime`. */
  method Feedback(pipe: Pipeline, truth: Option<real>, ghost y: real, ghost yHat: real, ghost regime: string)
    requires pipe.Valid()
    requires truth.Some? ==> truth.value == y && pipe.lastYHat == Some(yHat) && pipe.lastRegime == Some(regime)
    modifies pipe
    ensures pipe.Valid()
    ensures truth.Some? ==> pipe.res == Learn(old(pipe.res), Abs(y - yHat), Some(regime), pipe.maxlen)
    ensures truth.None? ==> pipe.res == old(pipe.res)
    ensures pipe.pending == old(pipe.pending)
    ensures pipe.lastYHat == old(pipe.lastYHat) && pipe.lastRegime == old(pipe.lastRegime)
  {
    if truth.Some? {
      pipe.UpdateTruth(truth.value, None);
    }
  }

  /** `process` on the current tick: the forecast is the updated mean. */
  method Forecast(pipe: Pipeline, x: real) returns (pred: Prediction)
    requires pipe.Valid()
    modifies pipe, pipe.fx
    ensures pipe.Valid()
    ensures pipe.res == old(pipe.res) && pipe.pending == old(pipe.pending)
    ensures pipe.fx.Fed(old(pipe.fx.count), old(pipe.fx.m), old(pipe.fx.s), x)
    ensures pred.yHat == pipe.fx.m
    ensures pipe.lastYHat == Some(pred.yHat) && pipe.lastRegime == Some(pred.regime)
  {
    pred := pipe.Process(Some(x));
    PredictionSpec(pipe.fx.Mean(), pipe.fx.Std(), pipe.fx.Warm(), pipe.res, pipe.q, pipe.volTh);
  }

  /** As written, the truth learned for the forecast of tick `j` is the
      value of tick `j`, which that forecast has already absorbed: the
      residual is the previous forecast's scored error shrunk by `1 - a`,
      not the error the forecast itself is scored with. */
  lemma {:induction false} InSampleResiduals(a: real, ticks: seq<Tick>, preds: seq<Prediction>, m0: real, s0: real, j: nat)
    requires 0.0 <= a <= 1.0
    requires MeansReplayed(a, ticks, preds, m0, s0) && |preds| == |ticks|
    requires 0 < j < Pairs(|ticks|)
    ensures Calibration(Values(ticks), preds, Pairs(|ticks|))[j].0
            == (1.0 - a) * Abs(Truths(ticks)[j - 1] - Forecasts(preds)[j - 1])
  {
    var x, y, p := ticks[j].x, preds[j].yHat, preds[j - 1].yHat;
    ForecastsChain(a, ticks, preds, m0, s0, j);
    EwmaGap(a, x, p);
    var g := (1.0 - a) * Abs(x - p);
    assert Abs(x - y) == g;
    assert Calibration(Values(ticks), preds, Pairs(|ticks|))[j].0 == Abs(x - y);
    assert Truths(ticks)[j - 1] == x && Forecasts(preds)[j - 1] == p;
  }

  /** Each forecast after the first is the previous one updated with its
      tick's value. */
  lemma ForecastsChain(a: real, ticks: seq<Tick>, preds: seq<Prediction>, m0: real, s0: real, j: nat)
    requires MeansReplayed(a, ticks, preds, m0, s0) && 0 < j < |preds|
    ensures preds[j].yHat == Ewma(a, ticks[j].x, preds[j - 1].yHat)
  {
    MomentsStep(a, ticks, j, m0, s0);
    var prev := Moments(a, Values(ticks[..j]), m0, s0);
    assert preds[j - 1].yHat == prev.0;
    assert preds[j].yHat == MomentStep(a, ticks[j].x, prev).0;
  }

  /** The gap between a value and the mean updated with it. */
  lemma EwmaGap(a: real, x: real, p: real)
    requires 0.0 <= a <= 1.0
    ensures Abs(x - Ewma(a, x, p)) == (1.0 - a) * Abs(x - p)
  {
    var d := x - p;
    assert x - Ewma(a, x, p) == (1.0 - a) * d;
    if d >= 0.0 {
      MulNonNeg(1.0 - a, d);
    } else {
      MulNonNeg(1.0 - a, -d);
      assert (1.0 - a) * d == -((1.0 - a) * (-d));
    }
  }

  /** A fresh extractor fed the values `0` then `1`: the calibrator learns
      a residual of `0` for the first forecast, which is scored with an
      error of `1`. */
  lemma InSampleCounterexample(a: real, ticks: seq<Tick>, preds: seq<Prediction>)
    requires |ticks| == 2 && ticks[0].x == 0.0 && ticks[1].x == 1.0
    requires MeansReplayed(a, ticks, preds, 0.0, 0.0) && |preds| == 2
    ensures Calibration(Values(ticks), preds, Pairs(|ticks|))[0].0 == 0.0
    ensures Abs(Truths(ticks)[0] - Forecasts(preds)[0]) == 1.0
    ensures Calibration(Truths(ticks), preds, Pairs(|ticks|))[0].0 == 1.0
  {
    MomentsStep(a, ticks, 0, 0.0, 0.0);
    assert ticks[..0] == [];
    assert preds[0].yHat == Ewma(a, 0.0, 0.0) == 0.0;
  }
}
