/** Feature selection shared by the XGB and ARIMA backends: which feature
    names a backend uses, in which order, and the vector it reads from a
    feature mapping. */
module FeatureVectors {
  import opened Common
  import opened Sorting

  type Features = map<string, real>

  /** The preferred features, in their preferred order. */
  const Defaults: seq<string> := ["z", "ewm_vol", "ac1", "rv"]

  /** The position of a name in the preferred order (4 for any other name). */
  function Rank(k: string): nat {
    if k == "z" then 0 else if k == "ewm_vol" then 1 else if k == "ac1" then 2 else if k == "rv" then 3 else 4
  }

  /** The ranks below 4 are exactly the preferred names, each at its own
      position. */
  lemma RankOfDefaults()
    ensures forall k :: Rank(k) < 4 <==> k in Defaults
    ensures forall i :: 0 <= i < |Defaults| ==> Rank(Defaults[i]) == i
  {
  }

  /** The preferred features present in `f` from position `i` on, in the
      preferred order. */
  function PresentFrom(f: Features, i: nat): seq<string>
    requires i <= |Defaults|
    decreases |Defaults| - i
  {
    if i == |Defaults| then []
    else if Defaults[i] in f then [Defaults[i]] + PresentFrom(f, i + 1)
    else PresentFrom(f, i + 1)
  }

  /** Exactly the preferred names present from position `i` on come out,
      in strictly increasing rank. */
  lemma {:induction false} PresentFromSpec(f: Features, i: nat)
    requires i <= |Defaults|
    ensures var r := PresentFrom(f, i);
      && (forall k :: k in r <==> i <= Rank(k) < 4 && k in f)
      && forall a, b :: 0 <= a < b < |r| ==> Rank(r[a]) < Rank(r[b])
    decreases |Defaults| - i
  {
    if i < |Defaults| {
      PresentFromSpec(f, i + 1);
      var rest, d := PresentFrom(f, i + 1), Defaults[i];
      assert Rank(d) == i;
      assert forall k :: Rank(k) == i ==> k == d;
      if d in f {
        var r := [d] + rest;
        assert PresentFrom(f, i) == r;
        assert forall a :: 0 < a < |r| ==> r[a] == rest[a - 1];
      } else {
        assert PresentFrom(f, i) == rest;
      }
    }
  }

  /** `_order` / `_select_feature_order`: explicit names are copied; an
      empty mapping gives no names; otherwise the preferred names present,
      in the preferred order, or failing those every name in sorted order
      (`OrderPreferred`, `OrderFallback`). */
  function Order(f: Features, keys: Option<seq<string>>): (r: seq<string>)
    ensures keys.Some? ==> r == keys.value
    ensures keys.None? && |f| == 0 ==> r == []
  {
    if keys.Some? then keys.value
    else if |f| == 0 then []
    else
      var present := PresentFrom(f, 0);
      if present != [] then present
      else SortedKeys(f.Keys)
  }

  /** When some preferred name is present, exactly the preferred names
      present are selected, in the preferred order. */
  lemma OrderPreferred(f: Features)
    requires exists k :: k in Defaults && k in f
    ensures var r := Order(f, None);
      && (forall k :: k in r <==> k in Defaults && k in f)
      && forall a, b :: 0 <= a < b < |r| ==> Rank(r[a]) < Rank(r[b])
  {
    RankOfDefaults();
    PresentFromSpec(f, 0);
    var k :| k in Defaults && k in f;
    assert k in f.Keys && k in PresentFrom(f, 0);
  }

  /** With no preferred name present, every name is selected once, in
      sorted order. */
  lemma OrderFallback(f: Features)
    requires !exists k :: k in Defaults && k in f
    ensures var r := Order(f, None);
      && |r| == |f| && (forall k :: k in r <==> k in f)
      && forall a, b :: 0 <= a < b < |r| ==> StrLe(r[a], r[b]) && r[a] != r[b]
  {
    RankOfDefaults();
    PresentFromSpec(f, 0);
    SortedKeysSpec(f.Keys);
    var p := PresentFrom(f, 0);
    if p != [] {
      assert false;
    }
  }

  /** `[float(feats[k]) for k in order]`; `None` when a name is missing
      (the `KeyError` the comprehension raises). */
  function Vec(f: Features, order: seq<string>): (r: Option<seq<real>>)
    ensures r.Some? <==> forall k :: k in order ==> k in f
    ensures r.Some? ==> |r.value| == |order| && forall i :: 0 <= i < |order| ==> r.value[i] == f[order[i]]
  {
    if forall k :: k in order ==> k in f then Some(seq(|order|, i requires 0 <= i < |order| => f[order[i]]))
    else None
  }
}
