/** The shading helper of the backtest plot: the (start, end) index ranges
    over which a boolean mask holds, as maximal runs of consecutive `true`
    entries. The index labels are of any type; `truthy` is Python's truth
    value of a label, which the helper consults through `prev_idx or idx`. */
module PlotRanges {
  import opened Common

  /** `(s, e)` is a maximal run of `true` in `v`, both ends inclusive. */
  ghost predicate MaximalRun(v: seq<bool>, s: nat, e: nat) {
    && s <= e < |v|
    && (forall k :: s <= k <= e ==> v[k])
    && (s == 0 || !v[s - 1])
    && (e == |v| - 1 || !v[e + 1])
  }

  /** The state of a left-to-right scan of `v`: the runs already closed by
      a `false`, and the start of the run still open at the end of `v`. */
  function Scan(v: seq<bool>): (r: (seq<(nat, nat)>, Option<nat>))
    ensures forall j :: 0 <= j < |r.0| ==> r.0[j].0 <= r.0[j].1 && r.0[j].1 + 1 < |v|
    ensures r.1.Some? ==> r.1.value < |v|
    decreases |v|
  {
    if v == [] then ([], None)
    else
      var u := v[..|v| - 1];
      var (closed, open) := Scan(u);
      if v[|v| - 1] then
        var o: Option<nat> := if open.Some? then open else Some(|u|);
        (closed, o)
      else if open.Some? then
        var last: (nat, nat) := (open.value, |u| - 1);
        (closed + [last], None)
      else (closed, None)
  }

  /** The open run of the scan is a maximal run reaching the end, after
      every closed run; with no open run the mask is empty or ends `false`. */
  lemma {:induction false} ScanOpen(v: seq<bool>)
    ensures var (closed, open) := Scan(v);
      && (open.Some? ==> MaximalRun(v, open.value, |v| - 1))
      && (open.Some? ==> forall j :: 0 <= j < |closed| ==> closed[j].1 + 1 < open.value)
      && (open.None? ==> v == [] || !v[|v| - 1])
    decreases |v|
  {
    if v != [] {
      var n := |v| - 1;
      var u := v[..n];
      ScanOpen(u);
      ScanSnoc(v, n);
      assert v[..n + 1] == v;
      assert forall k :: 0 <= k < n ==> v[k] == u[k];
    }
  }

  /** The scan's closed runs are maximal, ordered and apart. */
  lemma {:induction false} ScanClosed(v: seq<bool>)
    ensures var closed := Scan(v).0;
      && (forall j :: 0 <= j < |closed| ==> MaximalRun(v, closed[j].0, closed[j].1))
      && (forall a, b :: 0 <= a < b < |closed| ==> closed[a].1 + 1 < closed[b].0)
    decreases |v|
  {
    if v != [] {
      var n := |v| - 1;
      var u := v[..n];
      ScanClosed(u);
      ScanOpen(u);
      ScanSnoc(v, n);
      assert v[..n + 1] == v;
      var (closed, open) := Scan(u);
      forall j | 0 <= j < |closed| ensures MaximalRun(v, closed[j].0, closed[j].1) {
        StillMaximal(v, n, closed[j].0, closed[j].1);
      }
      if !v[n] && open.Some? {
        StillMaximal(v, n, open.value, n - 1);
        var r := closed + [(open.value, n - 1)];
        assert Scan(v).0 == r;
        assert forall j :: 0 <= j < |closed| ==> r[j] == closed[j];
      }
    }
  }

  /** A maximal run of the first `n` entries stays maximal in `v` when it
      ends before the last of them, or at it with entry `n` false. */
  lemma StillMaximal(v: seq<bool>, n: nat, s: nat, e: nat)
    requires n < |v| && MaximalRun(v[..n], s, e)
    requires e + 1 < n || !v[n]
    ensures MaximalRun(v, s, e)
  {
    assert forall k :: 0 <= k < n ==> v[..n][k] == v[k];
  }

  /** Every `true` entry lies in a closed run or at or after the open
      run's start. */
  lemma {:induction false} ScanCovers(v: seq<bool>)
    ensures var (closed, open) := Scan(v);
      forall k :: 0 <= k < |v| && v[k] ==>
        (exists j :: 0 <= j < |closed| && closed[j].0 <= k <= closed[j].1) || (open.Some? && open.value <= k)
    decreases |v|
  {
    if v != [] {
      var u := v[..|v| - 1];
      ScanCovers(u);
      var (closed, open) := Scan(u);
      var (closed', open') := Scan(v);
      forall k | 0 <= k < |v| && v[k]
        ensures (exists j :: 0 <= j < |closed'| && closed'[j].0 <= k <= closed'[j].1) || (open'.Some? && open'.value <= k)
      {
        if k < |u| {
          assert u[k];
          if exists j :: 0 <= j < |closed| && closed[j].0 <= k <= closed[j].1 {
            var j :| 0 <= j < |closed| && closed[j].0 <= k <= closed[j].1;
            assert closed'[j] == closed[j];
          } else if open'.None? {
            assert closed'[|closed|].0 <= k <= closed'[|closed|].1;
          }
        }
      }
    }
  }

  /** The maximal runs of `v`, in order. */
  function Runs(v: seq<bool>): (r: seq<(nat, nat)>)
    ensures forall j :: 0 <= j < |r| ==> r[j].1 < |v|
  {
    var (closed, open) := Scan(v);
    var last: (nat, nat) := if open.Some? then (open.value, |v| - 1) else (0, 0);
    if open.Some? then closed + [last] else closed
  }

  /** The runs are exactly the maximal runs of `true`: each one is
      maximal, they come in order without touching, and every `true`
      entry lies in one of them. */
  lemma RunsExact(v: seq<bool>)
    ensures forall j :: 0 <= j < |Runs(v)| ==> MaximalRun(v, Runs(v)[j].0, Runs(v)[j].1)
    ensures forall a, b :: 0 <= a < b < |Runs(v)| ==> Runs(v)[a].1 + 1 < Runs(v)[b].0
    ensures forall k :: 0 <= k < |v| && v[k] ==> exists j :: 0 <= j < |Runs(v)| && Runs(v)[j].0 <= k <= Runs(v)[j].1
  {
    ScanOpen(v);
    ScanClosed(v);
    ScanCovers(v);
    var (closed, open) := Scan(v);
    var r := Runs(v);
    if open.Some? {
      assert forall j :: 0 <= j < |closed| ==> r[j] == closed[j];
      assert r[|closed|] == (open.value, |v| - 1);
      forall k | 0 <= k < |v| && v[k]
        ensures exists j :: 0 <= j < |r| && r[j].0 <= k <= r[j].1
      {
        if exists j :: 0 <= j < |closed| && closed[j].0 <= k <= closed[j].1 {
          var j :| 0 <= j < |closed| && closed[j].0 <= k <= closed[j].1;
          assert r[j] == closed[j];
        } else {
          assert r[|closed|].0 <= k <= r[|closed|].1;
        }
      }
    }
  }

  /** The ranges the helper is meant to return: each maximal run from its
      first label to its last. */
  function Ranges<T>(idx: seq<T>, vals: seq<bool>): (r: seq<(T, T)>)
    requires |idx| == |vals|
    ensures |r| == |Runs(vals)|
    ensures forall j :: 0 <= j < |r| ==> r[j] == (idx[Runs(vals)[j].0], idx[Runs(vals)[j].1])
  {
    var runs := Runs(vals);
    seq(|runs|, j requires 0 <= j < |runs| => (idx[runs[j].0], idx[runs[j].1]))
  }

  /** The end label the helper records for a run closed by a `false`:
      `prev_idx or idx`, which is the label after the run when the run's
      last label is falsy. */
  function ClosedEnd<T>(idx: seq<T>, e: nat, truthy: T -> bool): T
    requires e + 1 < |idx|
  {
    if truthy(idx[e]) then idx[e] else idx[e + 1]
  }

  /** The ranges the helper records for runs closed by a `false`, in
      order. */
  function ClosedRanges<T>(idx: seq<T>, runs: seq<(nat, nat)>, truthy: T -> bool): (r: seq<(T, T)>)
    requires forall j :: 0 <= j < |runs| ==> runs[j].0 <= runs[j].1 && runs[j].1 + 1 < |idx|
    ensures |r| == |runs|
    ensures forall j :: 0 <= j < |r| ==> r[j] == (idx[runs[j].0], ClosedEnd(idx, runs[j].1, truthy))
    decreases |runs|
  {
    if runs == [] then []
    else
      var last := runs[|runs| - 1];
      ClosedRanges(idx, runs[..|runs| - 1], truthy) + [(idx[last.0], ClosedEnd(idx, last.1, truthy))]
  }

  /** The ranges the helper returns. A run still open at the end ends at
      the last label either way: `prev_idx` and `mask.index[-1]` are the
      same label there. */
  function AsWritten<T>(idx: seq<T>, vals: seq<bool>, truthy: T -> bool): (r: seq<(T, T)>)
    requires |idx| == |vals|
    ensures |r| == |Runs(vals)|
    ensures forall j :: 0 <= j < |r| ==> r[j].0 == idx[Runs(vals)[j].0]
  {
    var (closed, open) := Scan(vals);
    var ends := ClosedRanges(idx, closed, truthy);
    if open.Some? then ends + [(idx[open.value], idx[|idx| - 1])] else ends
  }

  /** `_contiguous_ranges(mask)` over the labels `idx` and the entries
      `vals` of the mask. */
  method ContiguousRanges<T>(idx: seq<T>, vals: seq<bool>, truthy: T -> bool) returns (ranges: seq<(T, T)>)
    requires |idx| == |vals|
    ensures ranges == AsWritten(idx, vals, truthy)
  {
    if vals == [] || forall k :: 0 <= k < |vals| ==> !vals[k] {
      NoTrueNoRuns(vals);
      return [];
    }
    ranges := [];
    var runStart: Option<T> := None;
    var prevIdx: Option<T> := None;
    ghost var closed: seq<(nat, nat)>, open: Option<nat> := [], None;
    var i := 0;
    while i < |vals|
      invariant 0 <= i <= |vals|
      invariant (closed, open) == Scan(vals[..i])
      invariant ranges == ClosedRanges(idx, closed, truthy)
      invariant runStart == if open.Some? then Some(idx[open.value]) else None
      invariant prevIdx == if i == 0 then None else Some(idx[i - 1])
    {
      ScanSnoc(vals, i);
      var id, val := idx[i], vals[i];
      if val {
        if runStart.None? {
          runStart := Some(id);
          open := Some(i);
        }
      } else if runStart.Some? {
        ghost var last: (nat, nat) := (open.value, i - 1);
        var end := if prevIdx.Some? && truthy(prevIdx.value) then prevIdx.value else id;
        assert (closed + [last])[..|closed|] == closed;
        ranges := ranges + [(runStart.value, end)];
        closed, open := closed + [last], None;
        runStart := None;
      }
      prevIdx := Some(id);
      i := i + 1;
    }
    assert vals[..i] == vals;
    if runStart.Some? {
      ranges := ranges + [(runStart.value, if prevIdx.Some? && truthy(prevIdx.value) then prevIdx.value else idx[|idx| - 1])];
    }
  }

  /** One more entry of the scan: a `true` opens a run unless one is open,
      and a `false` closes the open run at the entry before it. */
  lemma ScanSnoc(v: seq<bool>, i: nat)
    requires i < |v|
    ensures var (pre, post) := (Scan(v[..i]), Scan(v[..i + 1]));
      && (v[i] ==> post.0 == pre.0 && post.1 == (if pre.1.Some? then pre.1 else Some(i)))
      && (!v[i] && pre.1.Some? ==> i > 0 && post == (pre.0 + [(pre.1.value, i - 1)], None))
      && (!v[i] && pre.1.None? ==> post == (pre.0, None))
  {
    assert v[..i + 1][..i] == v[..i];
  }

  /** A mask with no `true` entry has no runs. */
  lemma {:induction false} NoTrueNoRuns(v: seq<bool>)
    requires forall k :: 0 <= k < |v| ==> !v[k]
    ensures Scan(v) == ([], None)
    decreases |v|
  {
    if v != [] {
      NoTrueNoRuns(v[..|v| - 1]);
    }
  }

  /** With truthy labels, as timestamps are, the helper returns exactly
      the maximal runs. */
  lemma TruthyLabelsExact<T>(idx: seq<T>, vals: seq<bool>, truthy: T -> bool)
    requires |idx| == |vals|
    requires forall k :: 0 <= k < |idx| ==> truthy(idx[k])
    ensures AsWritten(idx, vals, truthy) == Ranges(idx, vals)
  {
    var (closed, open) := Scan(vals);
    var a, r, runs := AsWritten(idx, vals, truthy), Ranges(idx, vals), Runs(vals);
    forall j | 0 <= j < |a| ensures a[j] == r[j] {
      assert r[j] == (idx[runs[j].0], idx[runs[j].1]);
      if j < |closed| {
        assert runs[j] == closed[j];
        assert a[j] == (idx[closed[j].0], ClosedEnd(idx, closed[j].1, truthy));
      } else {
        assert runs[j] == (open.value, |vals| - 1);
      }
    }
  }

  /** With integer labels `0, 1` (0 is falsy) the mask `[true, false]`
      has the single run at label 0, yet the helper reports it as ending
      at label 1, where the mask is false. */
  lemma FalsyLabelEnd()
    ensures AsWritten([0, 1], [true, false], (x: int) => x != 0) == [(0, 1)]
    ensures Ranges([0, 1], [true, false]) == [(0, 0)]
  {
    var v, idx, truthy := [true, false], [0, 1], (x: int) => x != 0;
    var closed := ScanTrueFalse();
    assert Runs(v) == closed;
    assert ClosedEnd(idx, 0, truthy) == 1;
    assert closed[..0] == [];
    assert ClosedRanges(idx, closed, truthy) == [(0, 1)];
    var r := Ranges(idx, v);
    assert |r| == 1 && r[0] == (0, 0);
  }

  /** The scan of `[true, false]` closes the single run at index 0. */
  lemma ScanTrueFalse() returns (closed: seq<(nat, nat)>)
    ensures closed == [(0, 0)] && Scan([true, false]) == (closed, None)
  {
    var v := [true, false];
    assert v[..1] == [true] && [true][..0] == [];
    assert Scan([true]) == ([], Some(0));
    var last: (nat, nat) := (0, 0);
    closed := [last];
    assert [] + [last] == closed;
  }


}
