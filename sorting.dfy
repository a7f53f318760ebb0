/** Python's `sorted`, `min` and `max` as used by the calibration and
    metrics code: a stable insertion sort under a total preorder, its
    instances for reals, (value, weight) pairs and strings, and the
    extreme elements of a sequence. */
module Sorting {

  ghost predicate TotalPreorder<T(!new)>(leq: (T, T) -> bool) {
    && (forall a, b :: leq(a, b) || leq(b, a))
    && (forall a, b, c :: leq(a, b) && leq(b, c) ==> leq(a, c))
  }

  ghost predicate SortedBy<T>(s: seq<T>, leq: (T, T) -> bool) {
    forall i, j :: 0 <= i < j < |s| ==> leq(s[i], s[j])
  }

  /** Places `x` before the first element it is `leq` to. */
  function Insert<T>(x: T, s: seq<T>, leq: (T, T) -> bool): (r: seq<T>)
    ensures |r| == |s| + 1
    ensures multiset(r) == multiset(s) + multiset{x}
  {
    if s == [] || leq(x, s[0]) then [x] + s
    else
      assert s == [s[0]] + s[1..];
      [s[0]] + Insert(x, s[1..], leq)
  }

  /** Stable insertion sort: equal elements keep their input order. */
  function Sort<T>(s: seq<T>, leq: (T, T) -> bool): (r: seq<T>)
    ensures |r| == |s|
    ensures multiset(r) == multiset(s)
  {
    if s == [] then []
    else
      assert s == [s[0]] + s[1..];
      Insert(s[0], Sort(s[1..], leq), leq)
  }

  lemma {:induction false} InsertSorted<T(!new)>(x: T, s: seq<T>, leq: (T, T) -> bool)
    requires TotalPreorder(leq)
    requires SortedBy(s, leq)
    ensures SortedBy(Insert(x, s, leq), leq)
  {
    if s == [] || leq(x, s[0]) {
    } else {
      InsertSorted(x, s[1..], leq);
      var t := Insert(x, s[1..], leq);
      var r := [s[0]] + t;
      assert r == Insert(x, s, leq);
      forall j | 0 < j < |r|
        ensures leq(r[0], r[j])
      {
        assert r[j] in multiset(t);
        assert r[j] in multiset(s[1..]) + multiset{x};
        if r[j] == x {
          assert leq(s[0], x);
        } else {
          assert r[j] in s[1..];
          var k :| 0 <= k < |s[1..]| && s[1..][k] == r[j];
          assert s[k + 1] == r[j];
        }
      }
    }
  }

  lemma {:induction false} SortSorted<T(!new)>(s: seq<T>, leq: (T, T) -> bool)
    requires TotalPreorder(leq)
    ensures SortedBy(Sort(s, leq), leq)
  {
    if s != [] {
      SortSorted(s[1..], leq);
      InsertSorted(s[0], Sort(s[1..], leq), leq);
    }
  }

  // ---------------------------------------------------------------- reals

  predicate RealLe(a: real, b: real) { a <= b }

  predicate Ascending(s: seq<real>) {
    forall i, j :: 0 <= i < j < |s| ==> s[i] <= s[j]
  }

  /** `sorted(vals)` for floats. */
  function SortReals(s: seq<real>): (r: seq<real>)
    ensures |r| == |s|
    ensures multiset(r) == multiset(s)
    ensures Ascending(r)
  {
    assert TotalPreorder(RealLe);
    SortSorted(s, RealLe);
    Sort(s, RealLe)
  }

  /** An element of a sequence is an element of any permutation of it. */
  lemma InPermutation(s: seq<real>, t: seq<real>, i: nat)
    requires multiset(s) == multiset(t)
    requires i < |s|
    ensures s[i] in t
  {
    assert s[i] in multiset(s);
  }

  /** `min(vals)`. */
  function SeqMin(s: seq<real>): (r: real)
    requires s != []
    ensures r in s
    ensures forall i :: 0 <= i < |s| ==> r <= s[i]
  {
    if |s| == 1 then s[0]
    else
      var m := SeqMin(s[1..]);
      assert forall i :: 1 <= i < |s| ==> s[i] == s[1..][i - 1];
      if s[0] <= m then s[0] else m
  }

  /** `max(vals)`. */
  function SeqMax(s: seq<real>): (r: real)
    requires s != []
    ensures r in s
    ensures forall i :: 0 <= i < |s| ==> s[i] <= r
  {
    if |s| == 1 then s[0]
    else
      var m := SeqMax(s[1..]);
      assert forall i :: 1 <= i < |s| ==> s[i] == s[1..][i - 1];
      if s[0] >= m then s[0] else m
  }

  /** Every element of a permutation of `s` lies between `min(s)` and `max(s)`. */
  lemma BetweenExtremes(s: seq<real>, t: seq<real>, i: nat)
    requires s != [] && multiset(s) == multiset(t)
    requires i < |t|
    ensures SeqMin(s) <= t[i] <= SeqMax(s)
  {
    InPermutation(t, s, i);
  }

  /** An ascending permutation starts at the minimum and ends at the
      maximum. */
  lemma AscendingEnds(vals: seq<real>, s: seq<real>)
    requires vals != [] && multiset(s) == multiset(vals) && Ascending(s)
    ensures |s| == |vals|
    ensures s[0] == SeqMin(vals) && s[|s| - 1] == SeqMax(vals)
  {
    assert |s| == |multiset(s)| == |vals|;
    AscendingFirst(vals, s);
    AscendingLast(vals, s);
  }

  lemma AscendingFirst(vals: seq<real>, s: seq<real>)
    requires vals != [] && s != [] && multiset(s) == multiset(vals) && Ascending(s)
    ensures s[0] == SeqMin(vals)
  {
    var i :| 0 <= i < |vals| && vals[i] == SeqMin(vals);
    InPermutation(vals, s, i);
    var a :| 0 <= a < |s| && s[a] == SeqMin(vals);
    assert s[0] <= s[a];
    BetweenExtremes(vals, s, 0);
  }

  lemma AscendingLast(vals: seq<real>, s: seq<real>)
    requires vals != [] && s != [] && multiset(s) == multiset(vals) && Ascending(s)
    ensures s[|s| - 1] == SeqMax(vals)
  {
    var j :| 0 <= j < |vals| && vals[j] == SeqMax(vals);
    InPermutation(vals, s, j);
    var b :| 0 <= b < |s| && s[b] == SeqMax(vals);
    assert s[b] <= s[|s| - 1];
    BetweenExtremes(vals, s, |s| - 1);
  }

  // ------------------------------------------------- (value, weight) pairs

  /** Python's tuple order on `(value, weight)`: by value, then by weight. */
  predicate PairLe(p: (real, real), q: (real, real)) {
    p.0 < q.0 || (p.0 == q.0 && p.1 <= q.1)
  }

  /** `sorted(pairs)` for `(float, float)` tuples. */
  function SortPairs(s: seq<(real, real)>): (r: seq<(real, real)>)
    ensures |r| == |s|
    ensures multiset(r) == multiset(s)
    ensures forall i, j :: 0 <= i < j < |r| ==> r[i].0 <= r[j].0
  {
    assert TotalPreorder(PairLe);
    SortSorted(s, PairLe);
    var r := Sort(s, PairLe);
    assert forall i, j :: 0 <= i < j < |r| ==> PairLe(r[i], r[j]);
    r
  }

  // ---------------------------------------------------------------- strings

  /** Python's string order: code point by code point, a proper prefix first. */
  predicate StrLe(a: string, b: string)
    decreases |a|
  {
    if a == [] then true
    else if b == [] then false
    else if a[0] != b[0] then a[0] < b[0]
    else StrLe(a[1..], b[1..])
  }

  lemma {:induction false} StrLeTotal(a: string, b: string)
    ensures StrLe(a, b) || StrLe(b, a)
    decreases |a|
  {
    if a != [] && b != [] && a[0] == b[0] {
      StrLeTotal(a[1..], b[1..]);
    }
  }

  lemma {:induction false} StrLeTransitive(a: string, b: string, c: string)
    requires StrLe(a, b) && StrLe(b, c)
    ensures StrLe(a, c)
    decreases |a|
  {
    if a != [] && b != [] && c != [] && a[0] == b[0] && b[0] == c[0] {
      StrLeTransitive(a[1..], b[1..], c[1..]);
    }
  }

  lemma {:induction false} StrLeAntisymmetric(a: string, b: string)
    requires StrLe(a, b) && StrLe(b, a)
    ensures a == b
    decreases |a|
  {
    if a != [] && b != [] {
      StrLeAntisymmetric(a[1..], b[1..]);
      assert a == [a[0]] + a[1..] && b == [b[0]] + b[1..];
    }
  }

  predicate IsLeast(k: string, ks: set<string>) {
    k in ks && forall j :: j in ks ==> StrLe(k, j)
  }

  /** A non-empty finite set of strings has a least element. */
  lemma {:induction false} LeastString(ks: set<string>) returns (m: string)
    requires ks != {}
    ensures IsLeast(m, ks)
    decreases ks
  {
    var x :| x in ks;
    StrLeTotal(x, x);
    if ks == {x} {
      m := x;
    } else {
      var m' := LeastString(ks - {x});
      StrLeTotal(m', x);
      if StrLe(m', x) {
        m := m';
      } else {
        forall j | j in ks
          ensures StrLe(x, j)
        {
          if j != x {
            assert StrLe(m', j);
            StrLeTransitive(x, m', j);
          }
        }
        m := x;
      }
    }
  }

  lemma LeastStringExists(ks: set<string>)
    requires ks != {}
    ensures exists k :: IsLeast(k, ks)
  {
    var m := LeastString(ks);
  }

  /** `sorted(keys)` for a set of string keys: the least key first, then
      the others sorted (`SortedKeysSpec`). */
  function SortedKeys(ks: set<string>): seq<string>
    decreases ks
  {
    if ks == {} then []
    else
      LeastUnique(ks);
      var k :| IsLeast(k, ks);
      [k] + SortedKeys(ks - {k})
  }

  /** A non-empty set has exactly one least name. */
  lemma LeastUnique(ks: set<string>)
    requires ks != {}
    ensures exists k :: IsLeast(k, ks)
    ensures forall a, b :: IsLeast(a, ks) && IsLeast(b, ks) ==> a == b
  {
    LeastStringExists(ks);
    forall a, b | IsLeast(a, ks) && IsLeast(b, ks) ensures a == b {
      StrLeAntisymmetric(a, b);
    }
  }

  /** Every key comes out exactly once, in ascending order. */
  lemma {:induction false} SortedKeysSpec(ks: set<string>)
    ensures var r := SortedKeys(ks);
      && |r| == |ks|
      && (forall k :: k in ks <==> k in r)
      && forall i, j :: 0 <= i < j < |r| ==> StrLe(r[i], r[j]) && r[i] != r[j]
    decreases ks
  {
    if ks != {} {
      LeastUnique(ks);
      var k :| IsLeast(k, ks);
      var rest := SortedKeys(ks - {k});
      assert SortedKeys(ks) == [k] + rest;
      SortedKeysSpec(ks - {k});
      LeastFirst(k, ks, rest);
    }
  }

  /** The least name put in front of the others, sorted, keeps them sorted
      and distinct. */
  lemma LeastFirst(k: string, ks: set<string>, rest: seq<string>)
    requires IsLeast(k, ks)
    requires forall x :: x in ks - {k} <==> x in rest
    requires forall i, j :: 0 <= i < j < |rest| ==> StrLe(rest[i], rest[j]) && rest[i] != rest[j]
    ensures var r := [k] + rest;
      forall i, j :: 0 <= i < j < |r| ==> StrLe(r[i], r[j]) && r[i] != r[j]
  {
    var r := [k] + rest;
    assert forall i :: 0 < i < |r| ==> r[i] == rest[i - 1] && r[i] in ks - {k};
  }
}
