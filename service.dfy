/** The forecasting service of service/app.py reduced to its decisions and
    its bookkeeping: the bearer-token check, the per-client token bucket,
    the guard that combines them, and the truth protocol that matches late
    (or early) observations to registered forecasts through the pipeline's
    pending map. Clocks, identifiers and request parsing are parameters. */
module Service {
  import opened Common
  import opened Features
  import opened OnlinePipeline

  /** A `(series_id, target_timestamp)` pair. */
  type SeriesKey = (string, string)

  // ------------------------------------------------------------------ auth

  /** `_auth_ok`: with no configured token every request passes; otherwise
      the `authorization` header must be exactly `Bearer <token>`. */
  function AuthOk(token: string, authorization: Option<string>): (ok: bool)
    ensures token == "" ==> ok
    ensures token != "" ==> (ok <==> authorization.Some? && authorization.value == "Bearer " + token)
  {
    token == "" || authorization.GetOr("") == "Bearer " + token
  }

  /** `_rate_key`: the bucket of a request is named after its
      `authorization` header when that is non-empty, else after the client
      host (`unknown` when there is none). */
  function RateKey(authorization: Option<string>, host: Option<string>): string {
    if authorization.Some? && authorization.value != "" then "tok:" + authorization.value
    else "ip:" + (if host.Some? && host.value != "" then host.value else "unknown")
  }

  /** Requests with different non-empty headers never share a bucket, and a
      header-keyed bucket is never a host-keyed one. */
  lemma RateKeysSeparate(a1: Option<string>, h1: Option<string>, a2: Option<string>, h2: Option<string>)
    ensures a1.Some? && a1.value != "" && a2.Some? && a2.value != "" && a1 != a2 ==>
      RateKey(a1, h1) != RateKey(a2, h2)
    ensures a1.Some? && a1.value != "" && !(a2.Some? && a2.value != "") ==>
      RateKey(a1, h1) != RateKey(a2, h2)
  {
    var k1, k2 := RateKey(a1, h1), RateKey(a2, h2);
    if a1.Some? && a1.value != "" && a2.Some? && a2.value != "" && a1 != a2 {
      assert k1[4..] == a1.value && k2[4..] == a2.value;
    }
    if a1.Some? && a1.value != "" && !(a2.Some? && a2.value != "") {
      assert k1[0] == 't' && k2[0] == 'i';
    }
  }

  // ---------------------------------------------------------- token bucket

  /** `(tokens, last_ts)` of one client. */
  datatype Bucket = Bucket(tokens: real, last: real)

  /** The tokens a bucket holds at time `now` before this request is
      charged: a new key starts full at `burst`, elapsed time counts only
      when positive, and the refill is capped at `burst`. */
  function Refilled(b: Option<Bucket>, now: real, rps: real, burst: real): real {
    var start := if b.Some? then b.value else Bucket(burst, now);
    Min(burst, start.tokens + rps * Max(0.0, now - start.last))
  }

  /** `_allow_rate` on the bucket `b` of the key (`None` for a new key):
      whether the request is allowed, and the bucket stored back. */
  function RateStep(b: Option<Bucket>, now: real, rps: real, burst: real): (bool, Bucket) {
    var t := Refilled(b, now, rps, burst);
    if t < 1.0 then (false, Bucket(t, now)) else (true, Bucket(t - 1.0, now))
  }

  /** The bucket rules: a new key starts at `burst`, the refill never
      exceeds `burst` and never loses tokens when the rate is non-negative,
      a request is allowed exactly when at least one token is available,
      an allowed request costs exactly one token, a refused one costs none,
      and the stored timestamp is `now`. */
  lemma RateStepSpec(b: Option<Bucket>, now: real, rps: real, burst: real)
    ensures b.None? ==> Refilled(b, now, rps, burst) == burst
    ensures Refilled(b, now, rps, burst) <= burst
    ensures b.Some? && rps >= 0.0 ==> Refilled(b, now, rps, burst) >= Min(burst, b.value.tokens)
    ensures var (allowed, b') := RateStep(b, now, rps, burst);
      && (allowed <==> Refilled(b, now, rps, burst) >= 1.0)
      && (allowed ==> b'.tokens == Refilled(b, now, rps, burst) - 1.0)
      && (!allowed ==> b'.tokens == Refilled(b, now, rps, burst))
      && b'.last == now
  {
    if b.Some? && rps >= 0.0 {
      MulNonNeg(rps, Max(0.0, now - b.value.last));
    }
  }

  /** With a non-negative rate and burst, a bucket's tokens stay in
      `[0, burst]`. */
  lemma BucketStaysInRange(b: Option<Bucket>, now: real, rps: real, burst: real)
    requires rps >= 0.0 && burst >= 0.0
    requires b.Some? ==> 0.0 <= b.value.tokens <= burst
    ensures 0.0 <= RateStep(b, now, rps, burst).1.tokens <= burst
  {
    RateStepSpec(b, now, rps, burst);
  }

  /** The requests of one key at times `times`, in order, from bucket `b`:
      how many are allowed and the bucket left behind. */
  datatype Tally = Tally(allowed: nat, bucket: Bucket)

  function RunBucket(b: Bucket, times: seq<real>, rps: real, burst: real): (r: Tally)
    ensures times == [] ==> r == Tally(0, b)
    decreases |times|
  {
    if times == [] then Tally(0, b)
    else
      var step := RateStep(Some(b), times[0], rps, burst);
      var rest := RunBucket(step.1, times[1..], rps, burst);
      Tally(if step.0 then rest.allowed + 1 else rest.allowed, rest.bucket)
  }

  predicate NonDecreasing(times: seq<real>) {
    forall i, j :: 0 <= i < j < |times| ==> times[i] <= times[j]
  }

  lemma NonDecreasingTail(times: seq<real>)
    requires NonDecreasing(times) && |times| > 1
    ensures NonDecreasing(times[1..]) && times[0] <= times[1]
  {
    var rest := times[1..];
    forall i, j | 0 <= i < j < |rest| ensures rest[i] <= rest[j] {
      assert rest[i] == times[i + 1] && rest[j] == times[j + 1];
    }
  }

  /** What a bucket holding `tokens` at `from` can have handed out and
      kept by `to` at rate `rps`, ignoring the cap. */
  function Budget(tokens: real, rps: real, from: real, to: real): real {
    tokens + rps * (to - from)
  }

  /** One request under a clock that has not gone back: the allowed count
      plus the tokens left grow by at most the refill since `last`. */
  lemma RateStepGain(b: Bucket, now: real, rps: real, burst: real)
    requires rps >= 0.0 && b.last <= now
    ensures var step := RateStep(Some(b), now, rps, burst);
      (if step.0 then 1.0 else 0.0) + step.1.tokens <= Budget(b.tokens, rps, b.last, now)
  {
    assert Max(0.0, now - b.last) == now - b.last;
  }

  /** Chaining two spans of refill: `[a, b]` then `[b, c]`. */
  lemma ChainBounds(used1: real, left1: real, used2: real, left2: real, tokens: real, rps: real, a: real, b: real, c: real)
    requires used1 + left1 <= Budget(tokens, rps, a, b)
    requires used2 + left2 <= Budget(left1, rps, b, c)
    ensures used1 + used2 + left2 <= Budget(tokens, rps, a, c)
  {
    assert rps * (c - b) + rps * (b - a) == rps * (c - a);
  }

  /** Under a clock that does not run backwards, a key whose bucket holds
      `b.tokens` at `b.last` is allowed at most `b.tokens + rps * (t - b.last)`
      requests up to time `t`: the bucket never hands out more than it held
      plus what the rate refilled, and what is left is counted too. */
  lemma {:induction false} RunBucketBound(b: Bucket, times: seq<real>, rps: real, burst: real)
    requires rps >= 0.0 && times != []
    requires NonDecreasing(times) && b.last <= times[0]
    ensures var r := RunBucket(b, times, rps, burst);
      r.allowed as real + r.bucket.tokens <= Budget(b.tokens, rps, b.last, times[|times| - 1])
    decreases |times|
  {
    var t0, tn := times[0], times[|times| - 1];
    var step := RateStep(Some(b), t0, rps, burst);
    var gained := if step.0 then 1.0 else 0.0;
    var rest := times[1..];
    var tail := RunBucket(step.1, rest, rps, burst);
    assert gained + step.1.tokens <= Budget(b.tokens, rps, b.last, t0) by {
      RateStepGain(b, t0, rps, burst);
    }
    var r := RunBucket(b, times, rps, burst);
    assert r.allowed as real == tail.allowed as real + gained && r.bucket == tail.bucket;
    if rest == [] {
      assert tail == Tally(0, step.1) && tn == t0;
    } else {
      assert tail.allowed as real + tail.bucket.tokens <= Budget(step.1.tokens, rps, t0, tn) by {
        NonDecreasingTail(times);
        assert step.1.last == t0 && rest[|rest| - 1] == tn;
        RunBucketBound(step.1, rest, rps, burst);
      }
      ChainBounds(gained, step.1.tokens, tail.allowed as real, tail.bucket.tokens, b.tokens, rps, b.last, t0, tn);
    }
  }

  // ----------------------------------------------------------------- guard

  /** The guard's verdict on a request. */
  datatype Verdict = Unauthorized | RateLimited | Pass

  /** Only `/predict` and `/truth` are rate-limited. */
  predicate RateLimitedPath(path: string) {
    path == "/predict" || path == "/truth"
  }

  // ---------------------------------------------------------------- truth

  /** The outcome of a truth request: `ok` (matched by id or by series key,
      possibly as a repeat), `queued`, or an HTTP error status. */
  datatype TruthOut =
    | Matched(matchedBy: string, idempotent: bool)
    | Queued
    | Failed(status: int)

  /** The first of `y`, `y_true`, `value` that is given. */
  function FirstValue(y: Option<real>, yTrue: Option<real>, value: Option<real>): (v: Option<real>)
    ensures v.None? <==> y.None? && yTrue.None? && value.None?
    ensures y.Some? ==> v == y
    ensures y.None? && yTrue.Some? ==> v == yTrue
    ensures y.None? && yTrue.None? ==> v == value
  {
    if y.Some? then y else if yTrue.Some? then yTrue else value
  }

  /** A present, non-empty string (Python truthiness of an optional str). */
  predicate Given(s: Option<string>) {
    s.Some? && s.value != ""
  }

  /** What `predict` returns besides the pipeline's prediction. */
  datatype PredictOut = PredictOut(pred: Prediction, predictionId: string, seriesId: string, targetTimestamp: string)

  /** The characters Python's `str.isspace` accepts: what `strip()` with
      no argument removes. */
  const Whitespace: set<char> :=
    {' ', '\t', '\n', '\U{b}', '\U{c}', '\r', '\U{1c}', '\U{1d}', '\U{1e}', '\U{1f}',
     '\U{85}', '\U{a0}', '\U{1680}', '\U{2000}', '\U{2001}', '\U{2002}', '\U{2003}',
     '\U{2004}', '\U{2005}', '\U{2006}', '\U{2007}', '\U{2008}', '\U{2009}',
     '\U{200a}', '\U{2028}', '\U{2029}', '\U{202f}', '\U{205f}', '\U{3000}'}

  /** `lstrip(cs)`: the suffix left after the leading characters of `cs`. */
  function TrimStart(t: string, cs: set<char>): (r: string)
    ensures |r| <= |t| && r == t[|t| - |r|..]
    ensures r == "" || r[0] !in cs
    ensures forall k :: 0 <= k < |t| - |r| ==> t[k] in cs
  {
    if t != "" && t[0] in cs then
      var r := TrimStart(t[1..], cs);
      assert forall k :: 1 <= k < |t| - |r| ==> t[k] == t[1..][k - 1];
      r
    else t
  }

  /** `rstrip(cs)`: the prefix left before the trailing characters of `cs`. */
  function TrimEnd(t: string, cs: set<char>): (r: string)
    ensures |r| <= |t| && r == t[..|r|]
    ensures r == "" || r[|r| - 1] !in cs
    ensures forall k :: |r| <= k < |t| ==> t[k] in cs
  {
    if t != "" && t[|t| - 1] in cs then
      var r := TrimEnd(t[..|t| - 1], cs);
      assert forall k :: |r| <= k < |t| - 1 ==> t[k] == t[..|t| - 1][k];
      r
    else t
  }

  /** `strip(cs)`: `t` without its leading and trailing characters of
      `cs`; `strip()` is `Strip(t, Whitespace)`. */
  function Strip(t: string, cs: set<char>): (r: string)
    ensures |r| <= |t|
    ensures r != "" ==> r[0] !in cs && r[|r| - 1] !in cs
  {
    var a := TrimStart(t, cs);
    var r := TrimEnd(a, cs);
    assert r != "" ==> r[0] == a[0];
    r
  }

  /** A prefix of the suffix `t[i..]` is a slice of `t`. */
  lemma SliceOfSuffix(t: string, i: nat, a: string, n: nat)
    requires i <= |t| && a == t[i..] && n <= |a|
    ensures a[..n] == t[i..i + n]
  {
  }

  /** What `strip` keeps is the slice of `t` between its leading and its
      trailing run of stripped characters. */
  lemma StripSlice(t: string, cs: set<char>) returns (i: nat, j: nat)
    ensures i <= j <= |t| && Strip(t, cs) == t[i..j]
    ensures forall k :: 0 <= k < i ==> t[k] in cs
    ensures forall k :: j <= k < |t| ==> t[k] in cs
  {
    var a := TrimStart(t, cs);
    var r := TrimEnd(a, cs);
    assert Strip(t, cs) == r;
    i := |t| - |a|;
    j := i + |r|;
    SliceOfSuffix(t, i, a, |r|);
    forall k | j <= k < |t| ensures t[k] in cs {
      assert |r| <= k - i < |a| && t[k] == a[k - i];
    }
  }

  /** `strip` gives the empty string exactly when every character of `t`
      is stripped. */
  lemma StripEmpty(t: string, cs: set<char>)
    ensures Strip(t, cs) == "" <==> forall k :: 0 <= k < |t| ==> t[k] in cs
  {
    var i, j := StripSlice(t, cs);
    if Strip(t, cs) != "" {
      assert Strip(t, cs)[0] == t[i];
    }
  }

  /** A string whose ends are not stripped is its own `strip`. */
  lemma StripTrimmed(t: string, cs: set<char>)
    requires t != "" && t[0] !in cs && t[|t| - 1] !in cs
    ensures Strip(t, cs) == t
  {
    assert TrimStart(t, cs) == t;
    assert TrimEnd(t, cs) == t;
  }

  /** The series id `predict` uses:
      `(series_id or "default").strip() or "default"`. */
  function SeriesOf(seriesId: Option<string>): (s: string)
    ensures s != "" && s[0] !in Whitespace && s[|s| - 1] !in Whitespace
    ensures seriesId.None? ==> s == "default"
  {
    var stripped := if seriesId.Some? then Strip(seriesId.value, Whitespace) else "";
    if stripped != "" then stripped
    else
      assert 'd' !in Whitespace && 't' !in Whitespace;
      "default"
  }

  /** A given series id `t` is used stripped unless it is all whitespace. */
  lemma SeriesOfStripped(t: string)
    requires exists k :: 0 <= k < |t| && t[k] !in Whitespace
    ensures SeriesOf(Some(t)) == Strip(t, Whitespace)
  {
    StripEmpty(t, Whitespace);
  }

  /** An all-whitespace series id, the empty one included, is `default`. */
  lemma SeriesOfBlank(t: string)
    requires forall k :: 0 <= k < |t| ==> t[k] in Whitespace
    ensures SeriesOf(Some(t)) == "default"
  {
    StripEmpty(t, Whitespace);
  }

  /** A series id without whitespace at its ends is kept as given. */
  lemma SeriesOfTrimmed(t: string)
    requires t != "" && t[0] !in Whitespace && t[|t| - 1] !in Whitespace
    ensures SeriesOf(Some(t)) == t
  {
    StripTrimmed(t, Whitespace);
  }

  /** One stripped character on each side of a kept one is removed. */
  lemma StripPadded(x: char, cs: set<char>, pad: char)
    requires pad in cs && x !in cs
    ensures Strip([pad, x, pad], cs) == [x]
  {
    var t := [pad, x, pad];
    assert t[1..] == [x, pad];
    assert TrimStart([x, pad], cs) == [x, pad];
    assert [x, pad][..1] == [x];
    assert TrimEnd([x], cs) == [x];
  }

  /** Padding around a series id is dropped, and an id of blanks is the
      default series. */
  lemma PaddedSeriesIds()
    ensures SeriesOf(Some(" a ")) == "a"
    ensures SeriesOf(Some("  ")) == "default"
  {
    StripPadded('a', Whitespace, ' ');
    assert " a " == [' ', 'a', ' '];
    var blank := "  ";
    assert blank[0] in Whitespace && blank[1] in Whitespace;
    StripEmpty(blank, Whitespace);
  }

  function TargetOf(targetTs: Option<string>, timestamp: string): (t: string)
    ensures Given(targetTs) ==> t == targetTs.value
    ensures !Given(targetTs) ==> t == timestamp
  {
    if Given(targetTs) then targetTs.value else timestamp
  }

  /** The service's bookkeeping together with the pipeline state it drives:
      the residual deques, the pending map, the key/id maps, the queue of
      early truths and the two sets of matched ids and keys. */
  datatype Ledger = Ledger(res: Residuals, pending: seq<Pending>,
                           seriesToPred: map<SeriesKey, string>, predToSeries: map<string, SeriesKey>,
                           early: map<SeriesKey, real>, appliedIds: set<string>, appliedKeys: set<SeriesKey>)

  /** `update_truth_by_id` on the ledger's pipeline part: whether `id` was
      pending, and the ledger after removing it and learning its residual. */
  function ApplyById(l: Ledger, id: string, v: real, maxlen: nat): (r: (bool, Ledger))
    ensures r.0 <==> HasId(l.pending, id)
    ensures !r.0 ==> r.1 == l
    ensures r.1.seriesToPred == l.seriesToPred && r.1.predToSeries == l.predToSeries && r.1.early == l.early
    ensures r.1.appliedIds == l.appliedIds && r.1.appliedKeys == l.appliedKeys
  {
    var (ok, pending, res) := ApplyTruth(l.pending, l.res, id, v, maxlen);
    if ok then (true, l.(pending := pending, res := res)) else (false, l)
  }

  /** Registering the forecast of `predict` under `predId` and linking the
      key and the id both ways; the key's queued truth is taken off the
      queue. */
  function Enrolled(l: Ledger, key: SeriesKey, predId: string, yHat: real, regime: string, cap: nat): Ledger {
    l.(pending := Register(l.pending, Pending(predId, yHat, regime), cap),
       seriesToPred := l.seriesToPred[key := predId],
       predToSeries := l.predToSeries[predId := key],
       early := l.early - {key})
  }

  /** Applying `v` to the forecast `id` and, when it was pending, marking
      the id and the key matched. */
  function Settled(l: Ledger, key: SeriesKey, id: string, v: real, maxlen: nat): Ledger {
    var (ok, l') := ApplyById(l, id, v, maxlen);
    if ok then l'.(appliedIds := l'.appliedIds + {id}, appliedKeys := l'.appliedKeys + {key}) else l'
  }

  /** The locked block of `predict` once `process` has produced `yHat` and
      `regime`: enrol the forecast, then apply a truth queued for the key
      unless the key was already matched. */
  function EnterStep(l: Ledger, key: SeriesKey, predId: string, yHat: real, regime: string, cap: nat, maxlen: nat): Ledger {
    var l1 := Enrolled(l, key, predId, yHat, regime, cap);
    if key in l.early && key !in l.appliedKeys then Settled(l1, key, predId, l.early[key], maxlen) else l1
  }

  /** `truth` given the parsed value `v` (the first of `y`, `y_true`,
      `value`): the answer and the ledger afterwards. */
  function TruthStep(l: Ledger, predId: Option<string>, seriesId: Option<string>, targetTs: Option<string>,
                     v: Option<real>, maxlen: nat): (TruthOut, Ledger)
  {
    if v.None? then (Failed(422), l)
    else if Given(predId) then
      var id := predId.value;
      if id in l.appliedIds then (Matched("prediction_id", true), l)
      else
        var (ok, l') := ApplyById(l, id, v.value, maxlen);
        if !ok then (Failed(404), l)
        else
          (Matched("prediction_id", false),
           l'.(appliedIds := l'.appliedIds + {id},
               appliedKeys := if id in l.predToSeries then l'.appliedKeys + {l.predToSeries[id]} else l'.appliedKeys))
    else if !Given(seriesId) || !Given(targetTs) then (Failed(422), l)
    else
      var key := (seriesId.value, targetTs.value);
      if key in l.appliedKeys then (Matched("series_ts", true), l)
      else if key in l.seriesToPred && l.seriesToPred[key] != "" then
        var id := l.seriesToPred[key];
        var (ok, l') := ApplyById(l, id, v.value, maxlen);
        if ok then (Matched("series_ts", false), l'.(appliedIds := l'.appliedIds + {id}, appliedKeys := l'.appliedKeys + {key}))
        else (Failed(404), l)
      else (Queued, l.(early := l.early[key := v.value]))
  }

  /** The forecast a truth request is about: the given id, else the id
      registered for the given key. */
  function MatchedId(l: Ledger, predId: Option<string>, seriesId: Option<string>, targetTs: Option<string>): (r: Option<string>)
    ensures Given(predId) ==> r == predId
    ensures !Given(predId) && r.Some? ==> Given(seriesId) && Given(targetTs)
                                          && (seriesId.value, targetTs.value) in l.seriesToPred
                                          && r == Some(l.seriesToPred[(seriesId.value, targetTs.value)])
  {
    if Given(predId) then predId
    else if Given(seriesId) && Given(targetTs) && (seriesId.value, targetTs.value) in l.seriesToPred then
      Some(l.seriesToPred[(seriesId.value, targetTs.value)])
    else None
  }

  /** The outcomes of a truth request: a missing value is 422; an error or
      a repeat changes nothing; a queued value overwrites the key's queue
      entry and nothing else; a fresh match removes a pending forecast,
      learns exactly one residual against its stored forecast and regime,
      and marks the matched id, leaving the key/id maps and the queue as
      they were. */
  lemma TruthStepOutcomes(l: Ledger, predId: Option<string>, seriesId: Option<string>, targetTs: Option<string>,
                          v: Option<real>, maxlen: nat)
    ensures var (r, l') := TruthStep(l, predId, seriesId, targetTs, v, maxlen);
      && (v.None? ==> r == Failed(422))
      && (r.Failed? || (r.Matched? && r.idempotent) ==> l' == l)
      && (r.Queued? ==> v.Some? && !Given(predId) && Given(seriesId) && Given(targetTs)
                        && l' == l.(early := l.early[(seriesId.value, targetTs.value) := v.value]))
      && (r.Failed? ==> r.status == 404 || r.status == 422)
      && (r.Matched? && !r.idempotent ==> FreshMatch(l, l', predId, seriesId, targetTs, v.value, maxlen))
  {
    var (r, l') := TruthStep(l, predId, seriesId, targetTs, v, maxlen);
    if r.Matched? && !r.idempotent {
      TruthStepFreshMatch(l, predId, seriesId, targetTs, v, maxlen);
    }
  }

  /** A fresh match removes the matched forecast from the pending map,
      learns one residual against its stored forecast and regime, marks the
      id, and leaves the key/id maps and the queue as they were. */
  ghost predicate FreshMatch(l: Ledger, l': Ledger, predId: Option<string>, seriesId: Option<string>,
                             targetTs: Option<string>, v: real, maxlen: nat)
  {
    var m := MatchedId(l, predId, seriesId, targetTs);
    && m.Some?
    && HasId(l.pending, m.value) && m.value in l'.appliedIds
    && var stored := Lookup(l.pending, m.value).value;
    && l'.pending == Without(l.pending, m.value)
    && l'.res == Learn(l.res, Abs(v - stored.0), Some(stored.1), maxlen)
    && l'.seriesToPred == l.seriesToPred && l'.predToSeries == l.predToSeries
    && l'.early == l.early
  }

  lemma TruthStepFreshMatch(l: Ledger, predId: Option<string>, seriesId: Option<string>, targetTs: Option<string>,
                            v: Option<real>, maxlen: nat)
    requires var r := TruthStep(l, predId, seriesId, targetTs, v, maxlen).0; r.Matched? && !r.idempotent
    ensures v.Some? && FreshMatch(l, TruthStep(l, predId, seriesId, targetTs, v, maxlen).1, predId, seriesId, targetTs, v.value, maxlen)
  {
    if Given(predId) {
      FreshMatchById(l, predId, seriesId, targetTs, v.value, maxlen);
    } else {
      FreshMatchByKey(l, predId, seriesId, targetTs, v.value, maxlen);
    }
  }

  /** A truth by id for a pending forecast never matched settles it. */
  lemma FreshMatchById(l: Ledger, predId: Option<string>, seriesId: Option<string>, targetTs: Option<string>,
                       v: real, maxlen: nat)
    requires Given(predId) && predId.value !in l.appliedIds && HasId(l.pending, predId.value)
    ensures FreshMatch(l, TruthStep(l, predId, seriesId, targetTs, Some(v), maxlen).1, predId, seriesId, targetTs, v, maxlen)
  {
    var id := predId.value;
    var stored := Lookup(l.pending, id).value;
    ApplyByIdFound(l, id, v, maxlen, stored.0, stored.1);
    var la := ApplyById(l, id, v, maxlen).1;
    var l2 := TruthStep(l, predId, seriesId, targetTs, Some(v), maxlen).1;
    assert l2.pending == la.pending && l2.res == la.res && id in l2.appliedIds;
  }

  /** A truth by key for a key never matched whose forecast is pending
      settles it. */
  lemma FreshMatchByKey(l: Ledger, predId: Option<string>, seriesId: Option<string>, targetTs: Option<string>,
                        v: real, maxlen: nat)
    requires !Given(predId) && Given(seriesId) && Given(targetTs)
    requires var key := (seriesId.value, targetTs.value);
      && key !in l.appliedKeys && key in l.seriesToPred && l.seriesToPred[key] != ""
      && HasId(l.pending, l.seriesToPred[key])
    ensures FreshMatch(l, TruthStep(l, predId, seriesId, targetTs, Some(v), maxlen).1, predId, seriesId, targetTs, v, maxlen)
  {
    var id := l.seriesToPred[(seriesId.value, targetTs.value)];
    var stored := Lookup(l.pending, id).value;
    ApplyByIdFound(l, id, v, maxlen, stored.0, stored.1);
    var la := ApplyById(l, id, v, maxlen).1;
    var l2 := TruthStep(l, predId, seriesId, targetTs, Some(v), maxlen).1;
    assert l2.pending == la.pending && l2.res == la.res && id in l2.appliedIds;
  }

  /** Sending the same truth again after it matched is answered as a repeat
      and changes nothing: a forecast learns from a given truth once. */
  lemma RepeatTruthIsIdempotent(l: Ledger, predId: Option<string>, seriesId: Option<string>, targetTs: Option<string>,
                                v: Option<real>, maxlen: nat)
    requires TruthStep(l, predId, seriesId, targetTs, v, maxlen).0.Matched?
    ensures var (r, l') := TruthStep(l, predId, seriesId, targetTs, v, maxlen);
      var (r2, l'') := TruthStep(l', predId, seriesId, targetTs, v, maxlen);
      r2 == Matched(r.matchedBy, true) && l'' == l'
  {
  }

  /** What the ledger keeps true: the pending map has distinct ids within
      the capacity, the deques are bounded under the two regime names, and
      no matched id is still pending. */
  ghost predicate LedgerInv(l: Ledger, cap: nat, maxlen: nat) {
    && DistinctIds(l.pending) && |l.pending| <= cap
    && l.res.Bounded(maxlen) && l.res.byRegime.Keys == RegimeNames
    && forall i :: 0 <= i < |l.pending| ==> l.pending[i].id !in l.appliedIds
  }

  lemma ApplyByIdKeepsInv(l: Ledger, id: string, v: real, cap: nat, maxlen: nat)
    requires LedgerInv(l, cap, maxlen)
    ensures var (ok, l') := ApplyById(l, id, v, maxlen);
      && LedgerInv(l', cap, maxlen)
      && (ok ==> !HasId(l'.pending, id))
  {
    var (ok, l') := ApplyById(l, id, v, maxlen);
    if ok {
      var stored := Lookup(l.pending, id).value;
      WithoutDistinct(l.pending, id);
      LearnSpec(l.res, Abs(v - stored.0), Some(stored.1), maxlen);
      forall i | 0 <= i < |l'.pending| ensures l'.pending[i].id !in l'.appliedIds {
        assert l'.pending[i] in l.pending;
      }
    }
  }

  /** Every truth request keeps the ledger invariant; in particular an id
      that has been matched can never be matched by a second request. */
  lemma TruthStepKeepsInv(l: Ledger, predId: Option<string>, seriesId: Option<string>, targetTs: Option<string>,
                          v: Option<real>, cap: nat, maxlen: nat)
    requires LedgerInv(l, cap, maxlen)
    ensures LedgerInv(TruthStep(l, predId, seriesId, targetTs, v, maxlen).1, cap, maxlen)
  {
    var (r, l') := TruthStep(l, predId, seriesId, targetTs, v, maxlen);
    if r.Matched? && !r.idempotent {
      var id := if Given(predId) then predId.value else l.seriesToPred[(seriesId.value, targetTs.value)];
      ApplyByIdKeepsInv(l, id, v.value, cap, maxlen);
    }
  }

  /** A `predict` under a fresh id (one never matched before, as a
      `uuid4` is) keeps the ledger invariant. */
  lemma EnterStepKeepsInv(l: Ledger, key: SeriesKey, predId: string, yHat: real, regime: string, cap: nat, maxlen: nat)
    requires LedgerInv(l, cap, maxlen) && predId !in l.appliedIds
    ensures LedgerInv(EnterStep(l, key, predId, yHat, regime, cap, maxlen), cap, maxlen)
  {
    EnrolledKeepsInv(l, key, predId, yHat, regime, cap, maxlen);
    if key in l.early && key !in l.appliedKeys {
      SettledKeepsInv(Enrolled(l, key, predId, yHat, regime, cap), key, predId, l.early[key], cap, maxlen);
    }
  }

  /** Enrolling a forecast under an id never matched keeps the invariant. */
  lemma EnrolledKeepsInv(l: Ledger, key: SeriesKey, predId: string, yHat: real, regime: string, cap: nat, maxlen: nat)
    requires LedgerInv(l, cap, maxlen) && predId !in l.appliedIds
    ensures LedgerInv(Enrolled(l, key, predId, yHat, regime, cap), cap, maxlen)
  {
    var e := Pending(predId, yHat, regime);
    RegisterSpec(l.pending, e, cap);
    var l1 := Enrolled(l, key, predId, yHat, regime, cap);
    assert l1.pending == Register(l.pending, e, cap) && l1.appliedIds == l.appliedIds && l1.res == l.res;
    forall i | 0 <= i < |l1.pending| ensures l1.pending[i].id !in l1.appliedIds {
      var x := l1.pending[i];
      assert x in l1.pending;
      if x != e {
        var j :| 0 <= j < |l.pending| && l.pending[j] == x;
      }
    }
  }

  /** Settling a truth keeps the invariant. */
  lemma SettledKeepsInv(l: Ledger, key: SeriesKey, id: string, v: real, cap: nat, maxlen: nat)
    requires LedgerInv(l, cap, maxlen)
    ensures LedgerInv(Settled(l, key, id, v, maxlen), cap, maxlen)
  {
    ApplyByIdKeepsInv(l, id, v, cap, maxlen);
  }

  /** A truth that arrives before its forecast is queued, and the next
      `predict` for that key applies it: the residual against the new
      forecast is learned, the key and the id are marked matched, the queue
      entry is gone and the forecast is no longer pending. */
  lemma EarlyTruthAppliedAtPredict(l: Ledger, series: string, target: string, v: real,
                                   predId: string, yHat: real, regime: string, cap: nat, maxlen: nat)
    requires LedgerInv(l, cap, maxlen) && cap > 0
    requires TruthStep(l, None, Some(series), Some(target), Some(v), maxlen).0 == Queued
    ensures var l' := TruthStep(l, None, Some(series), Some(target), Some(v), maxlen).1;
      var key := (series, target);
      var l'' := EnterStep(l', key, predId, yHat, regime, cap, maxlen);
      && l''.res == Learn(l.res, Abs(v - yHat), Some(regime), maxlen)
      && key in l''.appliedKeys && predId in l''.appliedIds
      && key !in l''.early
      && !HasId(l''.pending, predId)
  {
    var key := (series, target);
    var l' := l.(early := l.early[key := v]);
    assert TruthStep(l, None, Some(series), Some(target), Some(v), maxlen).1 == l';
    assert key !in l.appliedKeys;
    assert EnterStep(l', key, predId, yHat, regime, cap, maxlen)
        == Settled(Enrolled(l', key, predId, yHat, regime, cap), key, predId, v, maxlen);
    SettleEnrolled(l', key, predId, yHat, regime, v, cap, maxlen);
  }

  /** Enrolling a forecast and settling it with `v` learns the residual
      against it, marks the id and the key, and leaves it neither pending
      nor queued. */
  lemma SettleEnrolled(l: Ledger, key: SeriesKey, predId: string, yHat: real, regime: string, v: real,
                       cap: nat, maxlen: nat)
    requires DistinctIds(l.pending) && cap > 0
    ensures var l'' := Settled(Enrolled(l, key, predId, yHat, regime, cap), key, predId, v, maxlen);
      && l''.res == Learn(l.res, Abs(v - yHat), Some(regime), maxlen)
      && key in l''.appliedKeys && predId in l''.appliedIds
      && key !in l''.early
      && !HasId(l''.pending, predId)
  {
    var e := Pending(predId, yHat, regime);
    var r := Register(l.pending, e, cap);
    assert r[|r| - 1] == e;
    RegisterDistinct(l.pending, e, cap);
    LookupDistinct(r, e);
    var l1 := Enrolled(l, key, predId, yHat, regime, cap);
    assert l1.pending == r && l1.res == l.res;
    ApplyByIdFound(l1, predId, v, maxlen, yHat, regime);
  }

  /** Applying `v` to a pending forecast removes it and learns the residual
      against its stored forecast and regime. */
  lemma ApplyByIdFound(l: Ledger, id: string, v: real, maxlen: nat, yHat: real, regime: string)
    requires Lookup(l.pending, id) == Some((yHat, regime))
    ensures var (ok, l') := ApplyById(l, id, v, maxlen);
      ok && l'.pending == Without(l.pending, id) && l'.res == Learn(l.res, Abs(v - yHat), Some(regime), maxlen)
  {
    ApplyTruthHit(l.pending, l.res, id, v, maxlen);
  }

  class App {
    const pipe: Pipeline
    const token: string
    const rps: real
    const burst: real
    var buckets: map<string, Bucket>
    var seriesToPred: map<SeriesKey, string>
    var predToSeries: map<string, SeriesKey>
    var early: map<SeriesKey, real>
    var appliedIds: set<string>
    var appliedKeys: set<SeriesKey>

    ghost predicate Valid()
      reads this, pipe, pipe.fx
    {
      && pipe.Valid()
      && forall k :: k in buckets ==> buckets[k].tokens <= burst
    }

    /** The bookkeeping and the pipeline state it drives, as a value. */
    function State(): Ledger
      reads this, pipe
    {
      Ledger(pipe.res, pipe.pending, seriesToPred, predToSeries, early, appliedIds, appliedKeys)
    }

    /** Module start-up: the pipeline on the loaded configuration, no
        buckets and empty bookkeeping. */
    constructor (cfg: map<string, real>, sqrt: real -> real, token: string, rps: real, burst: real)
      requires IsSqrt(sqrt)
      requires Trunc(CfgGet(cfg, "conformal_maxlen", 2000.0)) >= 0
      requires Trunc(CfgGet(cfg, "pending_cap", 4096.0)) >= 0
      ensures Valid() && fresh(pipe) && fresh(pipe.fx)
      ensures this.token == token && this.rps == rps && this.burst == burst
      ensures pipe.pending == [] && pipe.pendingCap == Trunc(CfgGet(cfg, "pending_cap", 4096.0))
      ensures buckets == map[] && seriesToPred == map[] && predToSeries == map[] && early == map[]
      ensures appliedIds == {} && appliedKeys == {}
    {
      pipe := new Pipeline(cfg, sqrt);
      this.token, this.rps, this.burst := token, rps, burst;
      buckets := map[];
      seriesToPred, predToSeries, early := map[], map[], map[];
      appliedIds, appliedKeys := {}, {};
    }

    /** `_allow_rate` at time `now`. */
    method AllowRate(key: string, now: real) returns (allowed: bool)
      requires Valid()
      modifies this`buckets
      ensures Valid()
      ensures var step := RateStep(if key in old(buckets) then Some(old(buckets)[key]) else None, now, rps, burst);
        allowed == step.0 && buckets == old(buckets)[key := step.1]
    {
      var b := if key in buckets then Some(buckets[key]) else None;
      RateStepSpec(b, now, rps, burst);
      var tokens := Refilled(b, now, rps, burst);
      if tokens < 1.0 {
        buckets := buckets[key := Bucket(tokens, now)];
        return false;
      }
      buckets := buckets[key := Bucket(tokens - 1.0, now)];
      return true;
    }

    /** `_guard`: authentication first, then the bucket of the request's
        key, only on the rate-limited paths. */
    method Guard(authorization: Option<string>, host: Option<string>, path: string, now: real)
      returns (v: Verdict)
      requires Valid()
      modifies this`buckets
      ensures Valid()
      ensures !AuthOk(token, authorization) ==> v == Unauthorized && buckets == old(buckets)
      ensures AuthOk(token, authorization) && !RateLimitedPath(path) ==> v == Pass && buckets == old(buckets)
      ensures AuthOk(token, authorization) && RateLimitedPath(path) ==>
        var key := RateKey(authorization, host);
        var step := RateStep(if key in old(buckets) then Some(old(buckets)[key]) else None, now, rps, burst);
        buckets == old(buckets)[key := step.1] && (v == Pass <==> step.0) && v != Unauthorized
    {
      if !AuthOk(token, authorization) {
        return Unauthorized;
      }
      if RateLimitedPath(path) {
        var allowed := AllowRate(RateKey(authorization, host), now);
        if !allowed {
          return RateLimited;
        }
      }
      return Pass;
    }

    /** `predict`: run the pipeline on `x`, then the bookkeeping of
        `EnterStep` under the fresh id `predId` (the `uuid4` of the
        source). */
    method Predict(x: Option<real>, seriesId: Option<string>, timestamp: string, targetTs: Option<string>,
                   predId: string)
      returns (out: PredictOut)
      requires Valid()
      modifies this`seriesToPred, this`predToSeries, this`early, this`appliedIds, this`appliedKeys, pipe, pipe.fx
      ensures Valid()
      ensures pipe.fx.Fed(old(pipe.fx.count), old(pipe.fx.m), old(pipe.fx.s), x.GetOr(0.0))
      ensures out.pred == PredictionFor(pipe.fx.Mean(), pipe.fx.Std(), pipe.fx.Warm(), old(pipe.res), pipe.q, pipe.volTh)
      ensures out.predictionId == predId && out.seriesId == SeriesOf(seriesId)
      ensures out.targetTimestamp == TargetOf(targetTs, timestamp)
      ensures State() == EnterStep(old(State()), (out.seriesId, out.targetTimestamp), predId,
                                   out.pred.yHat, out.pred.regime, pipe.pendingCap, pipe.maxlen)
    {
      var series := SeriesOf(seriesId);
      var target := TargetOf(targetTs, timestamp);
      var pred := pipe.Process(x);
      Enter((series, target), predId, pred.yHat, pred.regime);
      out := PredictOut(pred, predId, series, target);
    }

    /** The locked block of `predict` after `process`. */
    method Enter(key: SeriesKey, predId: string, yHat: real, regime: string)
      requires Valid()
      modifies this`seriesToPred, this`predToSeries, this`early, this`appliedIds, this`appliedKeys, pipe
      ensures Valid()
      ensures State() == EnterStep(old(State()), key, predId, yHat, regime, pipe.pendingCap, pipe.maxlen)
    {
      var queued := if key in early && key !in appliedKeys then Some(early[key]) else None;
      Enrol(key, predId, yHat, regime);
      if queued.Some? {
        Settle(key, predId, queued.value);
      }
    }

    /** Registration and the two links of `predict`. */
    method Enrol(key: SeriesKey, predId: string, yHat: real, regime: string)
      requires Valid()
      modifies this`seriesToPred, this`predToSeries, this`early, pipe
      ensures Valid()
      ensures State() == Enrolled(old(State()), key, predId, yHat, regime, pipe.pendingCap)
    {
      pipe.RegisterPrediction(predId, yHat, regime);
      seriesToPred := seriesToPred[key := predId];
      predToSeries := predToSeries[predId := key];
      early := early - {key};
    }

    /** Applying a truth to the forecast `id` and marking it matched. */
    method Settle(key: SeriesKey, id: string, v: real)
      requires Valid()
      modifies this`appliedIds, this`appliedKeys, pipe
      ensures Valid()
      ensures State() == Settled(old(State()), key, id, v, pipe.maxlen)
    {
      var ok := pipe.UpdateTruthById(id, v);
      if ok {
        appliedIds := appliedIds + {id};
        appliedKeys := appliedKeys + {key};
      }
    }

    /** `truth`: match an observation to a forecast by id, else by series
        key, else queue it for the key's forecast to come. */
    method Truth(predId: Option<string>, seriesId: Option<string>, targetTs: Option<string>,
                 y: Option<real>, yTrue: Option<real>, value: Option<real>)
      returns (r: TruthOut)
      requires Valid()
      modifies this`appliedIds, this`appliedKeys, this`early, pipe
      ensures Valid()
      ensures (r, State()) == TruthStep(old(State()), predId, seriesId, targetTs, FirstValue(y, yTrue, value), pipe.maxlen)
    {
      var v := FirstValue(y, yTrue, value);
      if v.None? {
        return Failed(422);
      }
      if Given(predId) {
        r := TruthById(predId.value, v.value);
        return;
      }
      if !Given(seriesId) || !Given(targetTs) {
        return Failed(422);
      }
      r := TruthByKey(seriesId.value, targetTs.value, v.value);
    }

    /** Case 1 of `truth`: by prediction id. */
    method TruthById(id: string, v: real) returns (r: TruthOut)
      requires Valid() && id != ""
      modifies this`appliedIds, this`appliedKeys, pipe
      ensures Valid()
      ensures (r, State()) == TruthStep(old(State()), Some(id), None, None, Some(v), pipe.maxlen)
    {
      if id in appliedIds {
        return Matched("prediction_id", true);
      }
      var applied := pipe.UpdateTruthById(id, v);
      if !applied {
        return Failed(404);
      }
      appliedIds := appliedIds + {id};
      if id in predToSeries {
        appliedKeys := appliedKeys + {predToSeries[id]};
      }
      return Matched("prediction_id", false);
    }

    /** Case 2 of `truth`: by `(series_id, target_timestamp)`. */
    method TruthByKey(series: string, target: string, v: real) returns (r: TruthOut)
      requires Valid() && series != "" && target != ""
      modifies this`appliedIds, this`appliedKeys, this`early, pipe
      ensures Valid()
      ensures (r, State()) == TruthStep(old(State()), None, Some(series), Some(target), Some(v), pipe.maxlen)
    {
      var key := (series, target);
      if key in appliedKeys {
        return Matched("series_ts", true);
      }
      if key in seriesToPred && seriesToPred[key] != "" {
        var id := seriesToPred[key];
        var applied := pipe.UpdateTruthById(id, v);
        if applied {
          appliedIds := appliedIds + {id};
          appliedKeys := appliedKeys + {key};
          return Matched("series_ts", false);
        }
        return Failed(404);
      }
      early := early[key := v];
      return Queued;
    }
  }
}
