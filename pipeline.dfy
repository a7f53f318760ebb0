/** The served online pipeline of core/pipeline.py: an EWMA forecaster with
    a symmetric interval whose radius comes from bounded buffers of absolute
    residuals (one global, one per regime), an insertion-ordered map of
    pending predictions with oldest-first eviction, truth ingestion by
    prediction id or against the last forecast, and a snapshot of the
    buffers and pending map that `from_state` restores. */
module OnlinePipeline {
  import opened Common
  import opened Sorting
  import opened Features

  // ------------------------------------------------------------ percentile

  /** The index `_percentile` reads: `int((n - 1) * clamp(q, 0, 1))`. */
  function PercentileIndex(n: nat, q: real): (i: nat)
    requires n > 0
    ensures i < n
    ensures q <= 0.0 ==> i == 0
    ensures q >= 1.0 ==> i == n - 1
  {
    Scaled(Clamp(q, 0.0, 1.0), (n - 1) as real).Floor
  }

  /** `c * d` for a fraction `c` of a non-negative `d`. */
  function Scaled(c: real, d: real): (k: real)
    requires 0.0 <= c <= 1.0 && d >= 0.0
    ensures 0.0 <= k <= d
    ensures c == 0.0 ==> k == 0.0
    ensures c == 1.0 ==> k == d
  {
    ScaleAtMost(c, d);
    c * d
  }

  /** `_percentile`: 0.0 for an empty list, else the element at
      `PercentileIndex`. */
  function Percentile(sorted: seq<real>, q: real): (r: real)
    ensures sorted == [] ==> r == 0.0
    ensures sorted != [] ==> r in sorted
    ensures sorted != [] && q <= 0.0 ==> r == sorted[0]
    ensures sorted != [] && q >= 1.0 ==> r == sorted[|sorted| - 1]
  {
    if sorted == [] then 0.0 else sorted[PercentileIndex(|sorted|, q)]
  }

  /** On an ascending list the percentile is monotone in `q` and lies
      between the smallest and the largest element. */
  lemma PercentileMonotone(sorted: seq<real>, q1: real, q2: real)
    requires Ascending(sorted) && sorted != []
    requires q1 <= q2
    ensures sorted[0] <= Percentile(sorted, q1) <= Percentile(sorted, q2) <= sorted[|sorted| - 1]
  {
    var n := |sorted|;
    var c1 := Clamp(q1, 0.0, 1.0);
    var c2 := Clamp(q2, 0.0, 1.0);
    var d := (n - 1) as real;
    assert c1 <= c2;
    MulNonNeg(c2 - c1, d);
    assert Scaled(c2, d) - Scaled(c1, d) == (c2 - c1) * d;
    var i1 := PercentileIndex(n, q1);
    var i2 := PercentileIndex(n, q2);
    assert i1 == Scaled(c1, d).Floor && i2 == Scaled(c2, d).Floor;
    assert i1 <= i2;
  }

  // ------------------------------------------------------------- pending

  /** One pending prediction: its id, forecast and regime label. */
  datatype Pending = Pending(id: string, yHat: real, regime: string)

  predicate DistinctIds(p: seq<Pending>) {
    forall i, j :: 0 <= i < j < |p| ==> p[i].id != p[j].id
  }

  predicate HasId(p: seq<Pending>, id: string) {
    exists i :: 0 <= i < |p| && p[i].id == id
  }

  /** `pending.pop(id, None)`: the map without `id`, order kept. */
  function Without(p: seq<Pending>, id: string): (r: seq<Pending>)
    ensures |r| <= |p|
    ensures forall e :: e in r <==> e in p && e.id != id
    ensures !HasId(r, id)
    ensures !HasId(p, id) ==> r == p
  {
    if p == [] then []
    else
      assert forall i :: 1 <= i < |p| ==> p[i] == p[1..][i - 1];
      assert HasId(p[1..], id) ==> HasId(p, id);
      if p[0].id == id then Without(p[1..], id)
      else [p[0]] + Without(p[1..], id)
  }

  /** The `(y_hat, regime)` stored for `id`, if any. */
  function Lookup(p: seq<Pending>, id: string): (r: Option<(real, string)>)
    ensures r.Some? <==> HasId(p, id)
    ensures r.Some? ==> Pending(id, r.value.0, r.value.1) in p
  {
    if p == [] then None
    else if p[0].id == id then Some((p[0].yHat, p[0].regime))
    else
      assert forall i :: 1 <= i < |p| ==> p[i] == p[1..][i - 1];
      assert HasId(p, id) ==> HasId(p[1..], id);
      Lookup(p[1..], id)
  }

  lemma {:induction false} WithoutDistinct(p: seq<Pending>, id: string)
    requires DistinctIds(p)
    ensures DistinctIds(Without(p, id))
  {
    if p != [] {
      WithoutDistinct(p[1..], id);
      if p[0].id != id {
        var t := Without(p[1..], id);
        forall e | e in t ensures e.id != p[0].id {
          assert e in p[1..];
        }
      }
    }
  }

  lemma {:induction false} LookupDistinct(p: seq<Pending>, e: Pending)
    requires DistinctIds(p) && e in p
    ensures Lookup(p, e.id) == Some((e.yHat, e.regime))
  {
    if p[0] != e {
      assert e in p[1..];
      LookupDistinct(p[1..], e);
    }
  }

  lemma AppendFreshDistinct(w: seq<Pending>, e: Pending)
    requires DistinctIds(w) && !HasId(w, e.id)
    ensures DistinctIds(w + [e])
  {
    var t := w + [e];
    forall i, j | 0 <= i < j < |t| ensures t[i].id != t[j].id {
      if j == |w| {
        assert t[i] == w[i];
      } else {
        assert t[i] == w[i] && t[j] == w[j];
      }
    }
  }

  lemma LastDistinct(t: seq<Pending>, k: nat)
    requires DistinctIds(t)
    ensures DistinctIds(Last(t, k))
  {
    var r := Last(t, k);
    assert forall i :: 0 <= i < |r| ==> r[i] == t[|t| - |r| + i];
  }

  /** `register_prediction`: overwrite-and-move-to-newest, then evict from
      the oldest end while over capacity. */
  function Register(p: seq<Pending>, e: Pending, cap: nat): (r: seq<Pending>)
    ensures |r| <= cap
    ensures cap > 0 ==> |r| > 0 && r[|r| - 1] == e
  {
    Last(Without(p, e.id) + [e], cap)
  }

  /** After a registration the ids stay distinct, at most `cap` entries
      remain, the new entry is the newest and is what its id now maps to,
      and every other entry was already pending under another id. */
  lemma RegisterSpec(p: seq<Pending>, e: Pending, cap: nat)
    requires DistinctIds(p)
    ensures var r := Register(p, e, cap);
      && DistinctIds(r)
      && |r| <= cap
      && (cap > 0 ==> r[|r| - 1] == e && Lookup(r, e.id) == Some((e.yHat, e.regime)))
      && (forall x :: x in r && x != e ==> x in p && x.id != e.id)
  {
    RegisterDistinct(p, e, cap);
    RegisterKeepsOthers(p, e, cap);
    var r := Register(p, e, cap);
    if cap > 0 {
      assert r[|r| - 1] == e;
      LookupDistinct(r, e);
    }
  }

  lemma RegisterDistinct(p: seq<Pending>, e: Pending, cap: nat)
    requires DistinctIds(p)
    ensures DistinctIds(Register(p, e, cap))
  {
    var w := Without(p, e.id);
    WithoutDistinct(p, e.id);
    AppendFreshDistinct(w, e);
    LastDistinct(w + [e], cap);
  }

  lemma RegisterKeepsOthers(p: seq<Pending>, e: Pending, cap: nat)
    ensures forall x :: x in Register(p, e, cap) && x != e ==> x in p && x.id != e.id
  {
    var w := Without(p, e.id);
    var t := w + [e];
    var r := Register(p, e, cap);
    forall x | x in r && x != e ensures x in p && x.id != e.id {
      var i :| 0 <= i < |r| && r[i] == x;
      LastIndex(t, cap, i);
      assert x in t;
      assert x in w;
    }
  }

  /** Registration evicts only on overflow and then oldest first: below
      capacity the entry is appended to the others, otherwise exactly `cap`
      entries remain, the newest ones in insertion order. */
  lemma RegisterEvictsOldest(p: seq<Pending>, e: Pending, cap: nat)
    ensures var r := Register(p, e, cap);
      var w := Without(p, e.id);
      && (|w| < cap ==> r == w + [e])
      && (|w| >= cap ==> |r| == cap)
      && |w| + 1 - |r| >= 0
      && r == (w + [e])[|w| + 1 - |r|..]
  {
    LastSuffix(Without(p, e.id) + [e], cap);
  }

  // ------------------------------------------------------------ residuals

  const RegimeNames: set<string> := {"calm", "volatile"}

  /** The global residual deque and the per-regime deques. */
  datatype Residuals = Residuals(global: seq<real>, byRegime: map<string, seq<real>>) {
    predicate Bounded(maxlen: nat) {
      |global| <= maxlen && forall k :: k in byRegime ==> |byRegime[k]| <= maxlen
    }
  }

  /** `_learn_residual` with `r = |y_true - y_hat|`: append to the global
      deque, and to the regime deque when the regime is a non-empty known
      label. */
  function Learn(res: Residuals, r: real, regime: Option<string>, maxlen: nat): Residuals {
    var g := PushBounded(res.global, r, maxlen);
    if regime.Some? && regime.value != "" && regime.value in res.byRegime then
      Residuals(g, res.byRegime[regime.value := PushBounded(res.byRegime[regime.value], r, maxlen)])
    else Residuals(g, res.byRegime)
  }

  /** The regime deque a residual goes to, if any. */
  predicate Eligible(res: Residuals, regime: Option<string>) {
    regime.Some? && regime.value != "" && regime.value in res.byRegime
  }

  /** `update_truth_by_id` on values: whether `id` was pending, and the
      pending map and residual buffers afterwards. A hit removes the id and
      learns `|y - y_hat|` under the stored regime; a miss changes nothing. */
  function ApplyTruth(pending: seq<Pending>, res: Residuals, id: string, y: real, maxlen: nat)
    : (r: (bool, seq<Pending>, Residuals))
    ensures r.0 <==> HasId(pending, id)
    ensures !r.0 ==> r.1 == pending && r.2 == res
    ensures !HasId(r.1, id)
  {
    var stored := Lookup(pending, id);
    if stored.None? then (false, pending, res)
    else (true, Without(pending, id), Learn(res, Abs(y - stored.value.0), Some(stored.value.1), maxlen))
  }

  /** A hit removes the id and learns the residual against the stored
      forecast under the stored regime. */
  lemma ApplyTruthHit(pending: seq<Pending>, res: Residuals, id: string, y: real, maxlen: nat)
    requires HasId(pending, id)
    ensures var stored := Lookup(pending, id).value;
      var a := ApplyTruth(pending, res, id, y, maxlen);
      && a.0 && a.1 == Without(pending, id)
      && a.2 == Learn(res, Abs(y - stored.0), Some(stored.1), maxlen)
  {
  }

  /** Applying a truth keeps the ids distinct, never grows the pending
      map, and keeps every residual deque within `maxlen` with the same
      regimes. */
  lemma ApplyTruthKeepsInv(pending: seq<Pending>, res: Residuals, id: string, y: real, maxlen: nat)
    requires DistinctIds(pending) && res.Bounded(maxlen)
    ensures var a := ApplyTruth(pending, res, id, y, maxlen);
      && DistinctIds(a.1) && |a.1| <= |pending|
      && a.2.Bounded(maxlen) && a.2.byRegime.Keys == res.byRegime.Keys
  {
    var stored := Lookup(pending, id);
    if stored.Some? {
      WithoutDistinct(pending, id);
      LearnSpec(res, Abs(y - stored.value.0), Some(stored.value.1), maxlen);
    }
  }

  /** One learned residual is appended (as the newest element) to the global
      deque and to the deque of a known regime, every other deque is left
      alone, the set of regimes does not change and every deque stays within
      `maxlen`, dropping its oldest element when full. */
  lemma LearnSpec(res: Residuals, r: real, regime: Option<string>, maxlen: nat)
    requires res.Bounded(maxlen)
    ensures var res' := Learn(res, r, regime, maxlen);
      && res'.Bounded(maxlen)
      && res'.byRegime.Keys == res.byRegime.Keys
      && |res'.global| == (if |res.global| < maxlen then |res.global| + 1 else maxlen)
      && (maxlen > 0 ==> res'.global[|res'.global| - 1] == r)
      && (|res.global| == maxlen > 0 ==> res'.global[..maxlen - 1] == res.global[1..])
      && (forall k :: k in res.byRegime && Some(k) != regime ==> res'.byRegime[k] == res.byRegime[k])
      && (Eligible(res, regime) && maxlen > 0 ==>
            var b := res'.byRegime[regime.value];
            |b| > 0 && b[|b| - 1] == r)
      && (!Eligible(res, regime) ==> res'.byRegime == res.byRegime)
  {
    var res' := Learn(res, r, regime, maxlen);
    PushBoundedShape(res.global, r, maxlen);
    assert res'.global == PushBounded(res.global, r, maxlen);
    if Eligible(res, regime) {
      var k0 := regime.value;
      var nb := PushBounded(res.byRegime[k0], r, maxlen);
      PushBoundedShape(res.byRegime[k0], r, maxlen);
      assert res'.byRegime == res.byRegime[k0 := nb];
      assert forall k :: k in res'.byRegime ==> |res'.byRegime[k]| <= maxlen;
    } else {
      assert res'.byRegime == res.byRegime;
    }
  }

  // ------------------------------------------------------------- process

  /** The mapping `process` returns; the `intervals` map is not modelled. */
  datatype Prediction = Prediction(yHat: real, intervalLow: real, intervalHigh: real, regime: string,
                                   score: real, warmup: bool, degraded: bool)

  const DegradedMinBuffer: nat := 30
  const ScoreFloor: real := 0.000000000001

  /** The regime deque `process` reads for a label (empty when unknown). */
  function RegimeBuffer(res: Residuals, regime: string): seq<real> {
    if regime in res.byRegime then res.byRegime[regime] else []
  }

  /** `_percentile` of a deque after sorting it. */
  function BufferPercentile(buf: seq<real>, q: real): real {
    Percentile(SortReals(buf), q)
  }

  /** `PredictionFor` assembled from the steps `process` takes, the
      percentiles of empty deques read as 0 without sorting. */
  lemma PredictionSteps(mean: real, std: real, warmup: bool, res: Residuals, q: real, volTh: real,
                        rReg: real, rGlob: real, r: real, degraded: bool)
    requires var regBuf := RegimeBuffer(res, if std >= volTh then "volatile" else "calm");
      && rReg == (if regBuf != [] then BufferPercentile(regBuf, q) else 0.0)
      && rGlob == (if res.global != [] then BufferPercentile(res.global, q) else 0.0)
      && degraded == (|regBuf| < DegradedMinBuffer && rGlob > rReg)
      && r == (if degraded then rGlob else Max(rReg, rGlob))
    ensures PredictionFor(mean, std, warmup, res, q, volTh)
         == Prediction(mean, mean - r, mean + r, if std >= volTh then "volatile" else "calm",
                       Clamp(std / Max(volTh, ScoreFloor), 0.0, 1.0), warmup, degraded)
  {
    EmptyPercentile(q);
  }

  /** An empty deque has percentile 0. */
  lemma EmptyPercentile(q: real)
    ensures BufferPercentile([], q) == 0.0
  {
    assert |SortReals([])| == 0;
  }

  /** The prediction `process` builds from the freshly updated EWMA mean,
      deviation and warm-up flag. */
  function PredictionFor(mean: real, std: real, warmup: bool, res: Residuals, q: real, volTh: real): Prediction {
    var regime := if std >= volTh then "volatile" else "calm";
    var regBuf := RegimeBuffer(res, regime);
    var rReg := BufferPercentile(regBuf, q);
    var rGlob := BufferPercentile(res.global, q);
    var degraded := |regBuf| < DegradedMinBuffer && rGlob > rReg;
    var r := if degraded then rGlob else Max(rReg, rGlob);
    Prediction(mean, mean - r, mean + r, regime, Clamp(std / Max(volTh, ScoreFloor), 0.0, 1.0), warmup, degraded)
  }

  /** The forecast is the EWMA mean with a symmetric interval whose radius
      is the larger of the regime and global percentiles (in both branches),
      non-negative when the residuals are; `degraded` holds exactly when the
      regime deque is short and the global percentile is larger; the regime
      is `volatile` exactly when the deviation reaches the threshold; the
      score is in `[0, 1]`. */
  lemma PredictionSpec(mean: real, std: real, warmup: bool, res: Residuals, q: real, volTh: real)
    ensures var p := PredictionFor(mean, std, warmup, res, q, volTh);
      var rReg := BufferPercentile(RegimeBuffer(res, p.regime), q);
      var rGlob := BufferPercentile(res.global, q);
      && p.yHat == mean
      && p.yHat - p.intervalLow == p.intervalHigh - p.yHat == Max(rReg, rGlob)
      && (p.degraded <==> |RegimeBuffer(res, p.regime)| < DegradedMinBuffer && rGlob > rReg)
      && (p.regime == "volatile" <==> std >= volTh)
      && (p.regime == "volatile" || p.regime == "calm")
      && 0.0 <= p.score <= 1.0
      && p.warmup == warmup
      && (AllNonNeg(res.global) && AllNonNeg(RegimeBuffer(res, p.regime)) ==> p.intervalLow <= p.yHat <= p.intervalHigh)
  {
    var p := PredictionFor(mean, std, warmup, res, q, volTh);
    var reg := RegimeBuffer(res, p.regime);
    var regBuf := SortReals(reg);
    var glob := SortReals(res.global);
    if AllNonNeg(res.global) && res.global != [] {
      InPermutation(glob, res.global, PercentileIndex(|glob|, q));
    }
    if AllNonNeg(reg) && reg != [] {
      InPermutation(regBuf, reg, PercentileIndex(|regBuf|, q));
    }
  }

  // ------------------------------------------------------------ snapshot

  /** A pending record of a saved state; any field may be missing. */
  datatype Record = Record(predictionId: Option<string>, yHat: Option<real>, regime: Option<string>)

  /** A saved state: global residuals, per-regime residuals and pending
      records (a missing top-level key reads as empty). */
  datatype SavedState = SavedState(globalRes: seq<real>, regimeRes: map<string, seq<real>>, pending: seq<Record>)

  function RecordOf(e: Pending): Record {
    Record(Some(e.id), Some(e.yHat), Some(e.regime))
  }

  function Records(p: seq<Pending>): (r: seq<Record>)
    ensures |r| == |p|
    ensures forall i :: 0 <= i < |p| ==> r[i] == RecordOf(p[i])
  {
    seq(|p|, i requires 0 <= i < |p| => RecordOf(p[i]))
  }

  /** `state_dict`: lists of the deques and of the pending entries in order. */
  function Snapshot(res: Residuals, pending: seq<Pending>): SavedState {
    SavedState(res.global, res.byRegime, Records(pending))
  }

  /** The pending map `from_state` rebuilds: records without a (non-empty)
      id are skipped, a missing forecast reads 0.0 and a missing regime
      `calm`. */
  function RegisterAll(acc: seq<Pending>, recs: seq<Record>, cap: nat): seq<Pending>
    decreases |recs|
  {
    if recs == [] then acc
    else
      var rec := recs[0];
      var acc' :=
        if rec.predictionId.Some? && rec.predictionId.value != "" then
          Register(acc, Pending(rec.predictionId.value, rec.yHat.GetOr(0.0), rec.regime.GetOr("calm")), cap)
        else acc;
      RegisterAll(acc', recs[1..], cap)
  }

  function SavedBuffer(state: SavedState, k: string): seq<real> {
    if k in state.regimeRes then state.regimeRes[k] else []
  }

  /** The residual deques `from_state` rebuilds: the last `maxlen` values of
      each saved list, for the two known regimes only. */
  function RestoredResiduals(state: SavedState, maxlen: nat): Residuals {
    Residuals(Last(state.globalRes, maxlen),
              map["calm" := Last(SavedBuffer(state, "calm"), maxlen),
                  "volatile" := Last(SavedBuffer(state, "volatile"), maxlen)])
  }

  /** The rebuilt deques hold at most `maxlen` values, under the two regime names. */
  lemma RestoredBounded(state: SavedState, maxlen: nat)
    ensures RestoredResiduals(state, maxlen).Bounded(maxlen)
    ensures RestoredResiduals(state, maxlen).byRegime.Keys == RegimeNames
  {
  }

  lemma {:induction false} RegisterAllFresh(acc: seq<Pending>, p: seq<Pending>, cap: nat)
    requires DistinctIds(acc + p) && |acc| + |p| <= cap
    requires forall i :: 0 <= i < |p| ==> p[i].id != ""
    ensures RegisterAll(acc, Records(p), cap) == acc + p
    decreases |p|
  {
    if p != [] {
      var e := p[0];
      assert (acc + p)[|acc|] == e;
      assert !HasId(acc, e.id) by {
        forall i | 0 <= i < |acc| ensures acc[i].id != e.id {
          assert (acc + p)[i] == acc[i];
        }
      }
      assert Register(acc, e, cap) == acc + [e];
      assert Records(p)[1..] == Records(p[1..]);
      assert acc + [e] + p[1..] == acc + p;
      RegisterAllFresh(acc + [e], p[1..], cap);
    }
  }

  /** `from_state(cfg, state_dict())` with the same settings gives back the
      residual deques and the pending map, in order, of any reachable
      pipeline whose pending ids are all non-empty. */
  lemma SnapshotRoundTrip(res: Residuals, pending: seq<Pending>, maxlen: nat, cap: nat)
    requires res.Bounded(maxlen) && res.byRegime.Keys == RegimeNames
    requires DistinctIds(pending) && |pending| <= cap
    requires forall i :: 0 <= i < |pending| ==> pending[i].id != ""
    ensures RestoredResiduals(Snapshot(res, pending), maxlen) == res
    ensures RegisterAll([], Snapshot(res, pending).pending, cap) == pending
  {
    var r := RestoredResiduals(Snapshot(res, pending), maxlen);
    assert r.global == res.global;
    assert r.byRegime.Keys == res.byRegime.Keys;
    assert r.byRegime["calm"] == res.byRegime["calm"];
    assert r.byRegime["volatile"] == res.byRegime["volatile"];
    assert forall k :: k in r.byRegime ==> r.byRegime[k] == res.byRegime[k];
    assert r.byRegime == res.byRegime;
    assert [] + pending == pending;
    RegisterAllFresh([], pending, cap);
  }

  /** The round trip needs the non-empty ids: an entry registered under the
      empty id is dropped by `from_state`. */
  lemma EmptyIdLostOnRestore()
    ensures RegisterAll([], Records([Pending("", 1.0, "calm")]), 1) == []
  {
    assert Records([Pending("", 1.0, "calm")])[0].predictionId == Some("");
  }

  // ------------------------------------------------------------- pipeline

  class Pipeline {
    const fx: FeatureExtractor
    const q: real
    const maxlen: nat
    const pendingCap: nat
    const volTh: real
    var res: Residuals
    var pending: seq<Pending>
    var lastYHat: Option<real>
    var lastRegime: Option<string>

    ghost predicate Valid()
      reads this, fx
    {
      && fx.Valid()
      && res.Bounded(maxlen) && res.byRegime.Keys == RegimeNames
      && DistinctIds(pending) && |pending| <= pendingCap
    }

    /** `__init__` on the configuration in effect: a negative
        `conformal_maxlen` or `pending_cap` is refused. */
    constructor (cfg: map<string, real>, sqrt: real -> real)
      requires IsSqrt(sqrt)
      requires Trunc(CfgGet(cfg, "conformal_maxlen", 2000.0)) >= 0
      requires Trunc(CfgGet(cfg, "pending_cap", 4096.0)) >= 0
      ensures Valid() && fresh(fx)
      ensures fx.alpha == Clamp(CfgGet(cfg, "ewma_alpha", DefaultAlpha), MinAlpha, 1.0)
      ensures fx.minWarmup == ResolveWarmup(Trunc(CfgGet(cfg, "min_warmup", 20.0)))
      ensures fx.count == 0 && fx.m == 0.0 && fx.s == 0.0
      ensures q == CfgGet(cfg, "conformal_q", 0.9)
      ensures maxlen == Trunc(CfgGet(cfg, "conformal_maxlen", 2000.0))
      ensures pendingCap == Trunc(CfgGet(cfg, "pending_cap", 4096.0))
      ensures volTh == CfgGet(cfg, "regime_vol_threshold", 0.01)
      ensures res == Residuals([], map["calm" := [], "volatile" := []])
      ensures pending == [] && lastYHat == None && lastRegime == None
    {
      fx := new FeatureExtractor(None, None, None, Some(CfgGet(cfg, "ewma_alpha", DefaultAlpha)),
                                 Trunc(CfgGet(cfg, "min_warmup", 20.0)), sqrt);
      q := CfgGet(cfg, "conformal_q", 0.9);
      maxlen := Trunc(CfgGet(cfg, "conformal_maxlen", 2000.0));
      pendingCap := Trunc(CfgGet(cfg, "pending_cap", 4096.0));
      volTh := CfgGet(cfg, "regime_vol_threshold", 0.01);
      res := Residuals([], map["calm" := [], "volatile" := []]);
      pending := [];
      lastYHat, lastRegime := None, None;
    }

    /** `register_prediction`. */
    method RegisterPrediction(predId: string, yHat: real, regime: string)
      requires Valid()
      modifies this
      ensures Valid()
      ensures pending == Register(old(pending), Pending(predId, yHat, regime), pendingCap)
      ensures res == old(res) && lastYHat == old(lastYHat) && lastRegime == old(lastRegime)
    {
      RegisterSpec(pending, Pending(predId, yHat, regime), pendingCap);
      pending := EvictOldest(Without(pending, predId) + [Pending(predId, yHat, regime)], pendingCap);
    }

    /** The eviction loop of `register_prediction`: `popitem(last=False)`
        while more than `cap` entries remain. */
    static method EvictOldest(t: seq<Pending>, cap: nat) returns (r: seq<Pending>)
      ensures r == Last(t, cap)
    {
      r := t;
      while |r| > cap
        invariant |r| <= |t| && r == t[|t| - |r|..]
        invariant r == t || |r| >= cap
        decreases |r|
      {
        r := r[1..];
      }
    }

    /** `evict_prediction`. */
    /** `evict_prediction`: drop `predId` from the pending map if present. */
    method EvictPrediction(predId: string)
      requires Valid()
      modifies this`pending
      ensures Valid()
      ensures pending == Without(old(pending), predId)
    {
      WithoutDistinct(pending, predId);
      pending := Without(pending, predId);
    }

    /** `_learn_residual`. */
    method LearnResidual(yTrue: real, yHat: real, regime: Option<string>)
      requires Valid()
      modifies this`res
      ensures Valid()
      ensures res == Learn(old(res), Abs(yTrue - yHat), regime, maxlen)
    {
      LearnSpec(res, Abs(yTrue - yHat), regime, maxlen);
      res := Learn(res, Abs(yTrue - yHat), regime, maxlen);
    }

    /** `update_truth_by_id`: a miss changes nothing; a hit removes the id
        and learns one residual against its stored forecast and regime. */
    method UpdateTruthById(predId: string, yTrue: real) returns (found: bool)
      requires Valid()
      modifies this`pending, this`res
      ensures Valid()
      ensures var a := ApplyTruth(old(pending), old(res), predId, yTrue, maxlen);
        found == a.0 && pending == a.1 && res == a.2
    {
      ApplyTruthKeepsInv(pending, res, predId, yTrue, maxlen);
      var a := ApplyTruth(pending, res, predId, yTrue, maxlen);
      found, pending, res := a.0, a.1, a.2;
    }

    /** `update_truth`: by id when one is given; otherwise against the last
        forecast of `process`, a no-op before the first one. */
    method UpdateTruth(y: real, predictionId: Option<string>)
      requires Valid()
      modifies this`pending, this`res
      ensures Valid()
      ensures predictionId.Some? ==>
        var a := ApplyTruth(old(pending), old(res), predictionId.value, y, maxlen);
        pending == a.1 && res == a.2
      ensures predictionId.None? && old(lastYHat).None? ==> res == old(res)
      ensures predictionId.None? && old(lastYHat).Some? ==>
        res == Learn(old(res), Abs(y - old(lastYHat).value), old(lastRegime), maxlen)
      ensures predictionId.None? ==> pending == old(pending)
    {
      if predictionId.Some? {
        var _ := UpdateTruthById(predictionId.value, y);
      } else if lastYHat.Some? {
        LearnResidual(y, lastYHat.value, lastRegime);
      }
    }

    /** `process`: feed `x` (0.0 when `None` or NaN) to the
        feature extractor, build the prediction from the buffers, and
        remember the forecast and regime for `update_truth`. */
    method Process(x: Option<real>) returns (out: Prediction)
      requires Valid()
      modifies this, fx
      ensures Valid()
      ensures fx.Fed(old(fx.count), old(fx.m), old(fx.s), x.GetOr(0.0))
      ensures out == PredictionFor(fx.Mean(), fx.Std(), fx.Warm(), res, q, volTh)
      ensures res == old(res) && pending == old(pending)
      ensures lastYHat == Some(out.yHat) && lastRegime == Some(out.regime)
    {
      var f := fx.Update(Raw(x));
      out := Predict(f.ewmMean, f.ewmStd, f.warmup);
      lastYHat := Some(out.yHat);
      lastRegime := Some(out.regime);
    }

    /** The forecast, regime, radius and score steps of `process`. */
    method Predict(mean: real, std: real, warmup: bool) returns (out: Prediction)
      ensures out == PredictionFor(mean, std, warmup, res, q, volTh)
    {
      var yHat := mean;
      var regime := if std >= volTh then "volatile" else "calm";
      var regBuf := RegimeBuffer(res, regime);
      var rReg := if regBuf != [] then BufferPercentile(regBuf, q) else 0.0;
      var rGlob := if res.global != [] then BufferPercentile(res.global, q) else 0.0;
      var degraded := false;
      var r: real;
      if |regBuf| < DegradedMinBuffer && rGlob > rReg {
        r := rGlob;
        degraded := true;
      } else {
        r := Max(rReg, rGlob);
      }
      var score := Clamp(std / Max(volTh, ScoreFloor), 0.0, 1.0);
      out := Prediction(yHat, yHat - r, yHat + r, regime, score, warmup, degraded);
      PredictionSteps(mean, std, warmup, res, q, volTh, rReg, rGlob, r, degraded);
    }

    /** `state_dict`. */
    function StateDict(): (s: SavedState)
      reads this
      ensures s == Snapshot(res, pending)
    {
      SavedState(res.global, res.byRegime, Records(pending))
    }

    /** Appends saved values to a deque, as `from_state` does. */
    static method Refill(buf: seq<real>, vals: seq<real>, maxlen: nat) returns (out: seq<real>)
      requires buf == []
      ensures out == Last(vals, maxlen)
    {
      out := buf;
      for i := 0 to |vals|
        invariant out == Last(vals[..i], maxlen)
      {
        PushAfterLast(vals[..i], vals[i], maxlen);
        assert vals[..i + 1] == vals[..i] + [vals[i]];
        out := PushBounded(out, vals[i], maxlen);
      }
      assert vals[..|vals|] == vals;
    }

    /** `from_state`: a fresh pipeline on `cfg`, refilled from `state`. */
    static method FromState(cfg: map<string, real>, sqrt: real -> real, state: SavedState) returns (p: Pipeline)
      requires IsSqrt(sqrt)
      requires Trunc(CfgGet(cfg, "conformal_maxlen", 2000.0)) >= 0
      requires Trunc(CfgGet(cfg, "pending_cap", 4096.0)) >= 0
      ensures fresh(p) && fresh(p.fx) && p.Valid()
      ensures p.maxlen == Trunc(CfgGet(cfg, "conformal_maxlen", 2000.0))
      ensures p.pendingCap == Trunc(CfgGet(cfg, "pending_cap", 4096.0))
      ensures p.fx.count == 0 && p.fx.m == 0.0 && p.fx.s == 0.0
      ensures p.res == RestoredResiduals(state, p.maxlen)
      ensures p.pending == RegisterAll([], state.pending, p.pendingCap)
      ensures p.lastYHat == None && p.lastRegime == None
    {
      p := new Pipeline(cfg, sqrt);
      p.Restore(state);
    }

    /** The refill half of `from_state`, on a pipeline just built. */
    method Restore(state: SavedState)
      requires Valid() && pending == []
      modifies this
      ensures Valid()
      ensures res == RestoredResiduals(state, maxlen)
      ensures pending == RegisterAll([], state.pending, pendingCap)
      ensures lastYHat == old(lastYHat) && lastRegime == old(lastRegime)
    {
      RestoreResiduals(state);
      RestorePending(state.pending);
    }

    /** The deque loops of `from_state`. */
    method RestoreResiduals(state: SavedState)
      requires Valid()
      modifies this`res
      ensures Valid()
      ensures res == RestoredResiduals(state, maxlen)
    {
      var g := Refill([], state.globalRes, maxlen);
      var calm := Refill([], SavedBuffer(state, "calm"), maxlen);
      var volatile := Refill([], SavedBuffer(state, "volatile"), maxlen);
      var r := Residuals(g, map["calm" := calm, "volatile" := volatile]);
      assert r == RestoredResiduals(state, maxlen);
      RestoredBounded(state, maxlen);
      res := r;
      assert res.Bounded(maxlen) && res.byRegime.Keys == RegimeNames;
    }

    /** The pending loop of `from_state`: each record with a non-empty id is
        registered in order. */
    method RestorePending(recs: seq<Record>)
      requires Valid()
      modifies this
      ensures Valid()
      ensures pending == RegisterAll(old(pending), recs, pendingCap)
      ensures res == old(res) && lastYHat == old(lastYHat) && lastRegime == old(lastRegime)
    {
      for i := 0 to |recs|
        invariant Valid()
        invariant res == old(res) && lastYHat == old(lastYHat) && lastRegime == old(lastRegime)
        invariant RegisterAll(pending, recs[i..], pendingCap) == RegisterAll(old(pending), recs, pendingCap)
      {
        var rec := recs[i];
        assert recs[i..][1..] == recs[i + 1..];
        if rec.predictionId.Some? && rec.predictionId.value != "" {
          RegisterPrediction(rec.predictionId.value, rec.yHat.GetOr(0.0), rec.regime.GetOr("calm"));
        }
      }
    }
  }
}
