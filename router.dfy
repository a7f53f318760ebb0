/** The dwell-based model router of core/router.py: it adopts the wanted
    model on the first call and afterwards switches only once the current
    choice has been held for `dwell_min` calls. */
module Routing {
  import opened Common

  /** `_last` (None before the first call) and `_dwell`. */
  datatype RouterState = RouterState(last: Option<string>, dwell: int)

  /** The model `choose` wants for a label: `high_model` exactly for
      `"high_vol"`, `low_model` for every other label. */
  function Want(regimeLabel: string, low: string, high: string): (w: string)
    ensures regimeLabel == "high_vol" ==> w == high
    ensures regimeLabel != "high_vol" ==> w == low
  {
    if regimeLabel == "high_vol" then high else low
  }

  /** The state after one `choose` that wants `want`; the returned model is
      the new `last`. */
  function Step(s: RouterState, want: string, dwellMin: int): (s': RouterState)
    ensures s'.last.Some?
  {
    if s.last.None? then RouterState(Some(want), 1)
    else if want != s.last.value && s.dwell < dwellMin then RouterState(s.last, s.dwell + 1)
    else if want != s.last.value then RouterState(Some(want), 1)
    else RouterState(s.last, s.dwell + 1)
  }

  /** One call either keeps the current model and counts one more call, or
      (first call, or held for at least `dwell_min` calls) adopts the wanted
      model with the dwell reset to 1. */
  lemma StepOutcome(s: RouterState, want: string, dwellMin: int)
    ensures var s' := Step(s, want, dwellMin);
      && (s.last.None? ==> s'.last == Some(want) && s'.dwell == 1)
      && (s.last.Some? && s'.last != s.last ==> s.dwell >= dwellMin && s'.last == Some(want) && s'.dwell == 1)
      && (s.last.Some? && s'.last == s.last ==> s'.dwell == s.dwell + 1)
      && (s.last.Some? && want != s.last.value && s.dwell >= dwellMin ==> s'.last == Some(want))
      && (s.last.Some? && want == s.last.value ==> s'.last == s.last)
  {
  }

  /** The state after a sequence of calls from the initial state. */
  function Run(wants: seq<string>, dwellMin: int): RouterState
    decreases |wants|
  {
    if wants == [] then RouterState(None, 0)
    else Step(Run(wants[..|wants| - 1], dwellMin), wants[|wants| - 1], dwellMin)
  }

  /** The models returned by a sequence of calls. */
  function Outputs(wants: seq<string>, dwellMin: int): (h: seq<string>)
    ensures |h| == |wants|
    decreases |wants|
  {
    if wants == [] then []
    else Outputs(wants[..|wants| - 1], dwellMin) + [Run(wants, dwellMin).last.value]
  }

  /** Length of the run of equal models at the end of `h`. */
  function TrailingRun(h: seq<string>): (n: nat)
    requires h != []
    ensures 1 <= n <= |h|
    ensures forall k :: |h| - n <= k < |h| ==> h[k] == h[|h| - 1]
    decreases |h|
  {
    if |h| == 1 || h[|h| - 1] != h[|h| - 2] then 1
    else
      var n := TrailingRun(h[..|h| - 1]);
      assert forall k :: |h| - 1 - n <= k < |h| - 1 ==> h[k] == h[..|h| - 1][k];
      n + 1
  }

  /** The `dwellMin` models before position `i` all equal `h[i - 1]`. */
  ghost predicate HeldBefore(h: seq<string>, i: int, dwellMin: int)
    requires 0 < i <= |h|
  {
    i >= dwellMin && forall k :: i - dwellMin <= k < i ==> h[k] == h[i - 1]
  }

  /** Every change of model in `h` comes after at least `dwellMin` equal
      models. */
  ghost predicate SwitchesSpaced(h: seq<string>, dwellMin: int) {
    forall i :: 0 < i < |h| && h[i] != h[i - 1] ==> HeldBefore(h, i, dwellMin)
  }

  /** What holds of the models `h` returned so far and the state `s`: the
      state is empty exactly before the first call, the stored model is the
      last one returned, `_dwell` is the length of the final run of equal
      models, every model is one of the two configured ones, and changes of
      model are spaced by at least `dwellMin` calls. */
  ghost predicate TraceInv(h: seq<string>, s: RouterState, dwellMin: int, low: string, high: string) {
    && (s.last.None? <==> h == [])
    && (h != [] ==> s.last.value == h[|h| - 1] && s.dwell == TrailingRun(h))
    && (forall i :: 0 <= i < |h| ==> h[i] == low || h[i] == high)
    && SwitchesSpaced(h, dwellMin)
  }

  lemma StepKeepsTraceInv(h: seq<string>, s: RouterState, want: string, dwellMin: int, low: string, high: string)
    requires TraceInv(h, s, dwellMin, low, high)
    requires want == low || want == high
    ensures TraceInv(h + [Step(s, want, dwellMin).last.value], Step(s, want, dwellMin), dwellMin, low, high)
  {
    var s' := Step(s, want, dwellMin);
    var h' := h + [s'.last.value];
    assert h'[..|h'| - 1] == h;
    if h == [] {
      assert |h'| == 1;
    } else if s'.last == s.last {
      assert h'[|h'| - 1] == h'[|h'| - 2];
      assert TrailingRun(h') == TrailingRun(h) + 1;
    } else {
      assert h'[|h'| - 1] != h'[|h'| - 2];
    }
    forall i | 0 < i < |h'| && h'[i] != h'[i - 1]
      ensures HeldBefore(h', i, dwellMin)
    {
      if i < |h| {
        assert h[i] != h[i - 1];
        assert HeldBefore(h, i, dwellMin);
      } else {
        assert s.last.Some? && s.dwell == TrailingRun(h) >= dwellMin;
      }
    }
  }

  /** Over any sequence of calls from a fresh router, `TraceInv` holds of the
      models returned and the final state; in particular consecutive changes
      of model are at least `dwell_min` calls apart. */
  lemma {:induction false} RouterTrace(wants: seq<string>, dwellMin: int, low: string, high: string)
    requires forall i :: 0 <= i < |wants| ==> wants[i] == low || wants[i] == high
    ensures TraceInv(Outputs(wants, dwellMin), Run(wants, dwellMin), dwellMin, low, high)
    decreases |wants|
  {
    if wants != [] {
      var w := wants[..|wants| - 1];
      RouterTrace(w, dwellMin, low, high);
      StepKeepsTraceInv(Outputs(w, dwellMin), Run(w, dwellMin), wants[|wants| - 1], dwellMin, low, high);
    }
  }

  class Router {
    const low: string
    const high: string
    const dwellMin: int
    var last: Option<string>
    var dwell: int
    /** The models wanted by the calls so far. */
    ghost var wants: seq<string>

    ghost predicate Valid()
      reads this
    {
      && RouterState(last, dwell) == Run(wants, dwellMin)
      && forall i :: 0 <= i < |wants| ==> wants[i] == low || wants[i] == high
    }

    constructor (low: string, high: string, dwellMin: int)
      ensures Valid()
      ensures this.low == low && this.high == high && this.dwellMin == dwellMin
      ensures last == None && dwell == 0 && wants == []
    {
      this.low, this.high, this.dwellMin := low, high, dwellMin;
      last, dwell := None, 0;
      wants := [];
    }

    /** `choose`: `regimeScore` is accepted and has no effect. */
    method Choose(regimeLabel: string, regimeScore: real) returns (model: string)
      requires Valid()
      modifies this
      ensures Valid()
      ensures wants == old(wants) + [Want(regimeLabel, low, high)]
      ensures RouterState(last, dwell) == Step(old(RouterState(last, dwell)), Want(regimeLabel, low, high), dwellMin)
      ensures last == Some(model)
      ensures model == Outputs(wants, dwellMin)[|wants| - 1]
      ensures TraceInv(Outputs(wants, dwellMin), RouterState(last, dwell), dwellMin, low, high)
    {
      var want := if regimeLabel == "high_vol" then high else low;
      wants := wants + [want];
      assert wants[..|wants| - 1] == old(wants);
      RouterTrace(wants, dwellMin, low, high);
      if last.None? {
        last, dwell := Some(want), 1;
        return want;
      }
      if want != last.value && dwell < dwellMin {
        dwell := dwell + 1;
        return last.value;
      }
      if want != last.value {
        last, dwell := Some(want), 1;
      } else {
        dwell := dwell + 1;
      }
      return last.value;
    }
  }
}
