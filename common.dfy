/** Small shared vocabulary: optional values, real helpers, bounded deques
    and the square-root oracle. */
module Common {

  datatype Option<+T> = None | Some(value: T) {
    /** The held value, or `default` when there is none. */
    function GetOr(default: T): T {
      match this
      case Some(v) => v
      case None => default
    }
  }

  function Abs(x: real): (r: real)
    ensures r >= 0.0
    ensures r == x || r == -x
  {
    if x < 0.0 then -x else x
  }

  function Max(a: real, b: real): (r: real)
    ensures r >= a && r >= b
    ensures r == a || r == b
  {
    if a >= b then a else b
  }

  function Min(a: real, b: real): (r: real)
    ensures r <= a && r <= b
    ensures r == a || r == b
  {
    if a <= b then a else b
  }

  /** `min(max(x, lo), hi)`. */
  function Clamp(x: real, lo: real, hi: real): (r: real)
    requires lo <= hi
    ensures lo <= r <= hi
    ensures lo <= x <= hi ==> r == x
  {
    Min(Max(x, lo), hi)
  }

  /** `cfg.get(key, default)` over the numeric settings of a configuration. */
  function CfgGet(cfg: map<string, real>, key: string, default: real): (v: real)
    ensures key in cfg ==> v == cfg[key]
    ensures key !in cfg ==> v == default
  {
    if key in cfg then cfg[key] else default
  }

  /** Python's `int()` of a float: truncation toward zero. */
  function Trunc(r: real): (n: int)
    ensures r >= 0.0 ==> n as real <= r < n as real + 1.0
    ensures r < 0.0 ==> n as real - 1.0 < r <= n as real
  {
    if r >= 0.0 then r.Floor else -((-r).Floor)
  }

  /** The last `k` elements of `s` (all of `s` when it is shorter). */
  function Last<T>(s: seq<T>, k: nat): (r: seq<T>)
    ensures |r| <= k && |r| <= |s|
    ensures |r| == k || |r| == |s|
  {
    if |s| <= k then s else s[|s| - k..]
  }

  /** The last `k` elements are a suffix: all of `s` when it fits, exactly
      `k` elements otherwise. */
  lemma LastSuffix<T>(s: seq<T>, k: nat)
    ensures Last(s, k) == s[|s| - |Last(s, k)|..]
    ensures |s| <= k ==> Last(s, k) == s
    ensures |s| > k ==> |Last(s, k)| == k
  {
    if |s| <= k {
      assert s[0..] == s;
    }
  }

  /** The `i`-th of the last `k` elements of `s`, counted in `s`. */
  lemma LastIndex<T>(s: seq<T>, k: nat, i: nat)
    requires i < |Last(s, k)|
    ensures Last(s, k)[i] == s[|s| - |Last(s, k)| + i]
  {
  }

  /** `deque(maxlen=cap).append(x)`: append, then drop from the left until at most `cap` remain. */
  function PushBounded<T>(s: seq<T>, x: T, cap: nat): seq<T> {
    Last(s + [x], cap)
  }

  lemma PushBoundedShape<T>(s: seq<T>, x: T, cap: nat)
    requires |s| <= cap
    ensures cap == 0 ==> PushBounded(s, x, cap) == []
    ensures cap > 0 ==> |PushBounded(s, x, cap)| == (if |s| < cap then |s| + 1 else cap)
    ensures cap > 0 ==> PushBounded(s, x, cap)[|PushBounded(s, x, cap)| - 1] == x
    ensures cap > 0 && |s| < cap ==> PushBounded(s, x, cap) == s + [x]
    ensures cap > 0 && |s| == cap ==> PushBounded(s, x, cap) == s[1..] + [x]
  {
  }

  /** With room for at least one element the pushed element is the newest. */
  lemma PushBoundedNewest<T>(s: seq<T>, x: T, cap: nat)
    requires cap > 0
    ensures |PushBounded(s, x, cap)| > 0
    ensures PushBounded(s, x, cap)[|PushBounded(s, x, cap)| - 1] == x
  {
  }

  /** Appending `x` to the last `k` elements of `t` keeps the last `k` elements of `t + [x]`. */
  lemma {:induction false} PushAfterLast<T>(t: seq<T>, x: T, k: nat)
    ensures PushBounded(Last(t, k), x, k) == Last(t + [x], k)
  {
    var l := Last(t, k);
    if |t| <= k {
      assert l == t;
    } else {
      assert l == t[|t| - k..];
      if k > 0 {
        assert (l + [x])[1..] == (t + [x])[|t| + 1 - k..];
      }
    }
  }

  lemma MulNonNeg(p: real, q: real)
    requires p >= 0.0 && q >= 0.0
    ensures p * q >= 0.0
  {
  }

  /** One more copy of `e`. */
  lemma MulSucc(e: real, n: nat)
    ensures e * (n + 1) as real == e * n as real + e
  {
  }

  /** Multiplying by a positive factor keeps the sign. */
  lemma SignKept(u: real, c: real)
    requires c > 0.0
    ensures u * c >= 0.0 <==> u >= 0.0
  {
    if u < 0.0 {
      assert (-u) * c > 0.0;
      assert u * c == -((-u) * c);
    }
  }

  /** Scaling a non-negative `d` by a factor in `[0, 1]` keeps it in `[0, d]`. */
  lemma ScaleAtMost(a: real, d: real)
    requires 0.0 <= a <= 1.0 && d >= 0.0
    ensures 0.0 <= a * d <= d
  {
    MulNonNeg(a, d);
    MulNonNeg(1.0 - a, d);
    assert d - a * d == (1.0 - a) * d;
  }

  /** The blend `a * (1 - w) + b * w`. */
  function Lerp(a: real, b: real, w: real): real {
    a * (1.0 - w) + b * w
  }

  /** A blend with weight in `[0, 1]` of `a <= b` lies between them. */
  lemma LerpBetween(a: real, b: real, w: real)
    requires a <= b && 0.0 <= w <= 1.0
    ensures a <= Lerp(a, b, w) <= b
  {
    assert Lerp(a, b, w) == a + w * (b - a);
    ScaleAtMost(w, b - a);
  }

  /** The square-root oracle: only `sqrt(0) == 0` and non-negativity on the
      non-negative reals are assumed of it. */
  ghost predicate IsSqrt(sqrt: real -> real) {
    sqrt(0.0) == 0.0 && forall v: real :: v >= 0.0 ==> sqrt(v) >= 0.0
  }

  /** Every element is non-negative. */
  predicate AllNonNeg(s: seq<real>) {
    forall i :: 0 <= i < |s| ==> s[i] >= 0.0
  }
}
