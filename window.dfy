/**
 * One bounded buffer (a channel's values or the timeline's timestamps) as the
 * acquisition step keeps it: append the newest element, then, when the list is
 * longer than `maxSamples`, keep the slice `[-maxSamples:]`.
 */
module Window {

  function Min(a: int, b: int): int { if a <= b then a else b }

  /** Python's `s[k:]` for any integer `k`; a negative `k` counts from the end. */
  function SliceFrom<T>(s: seq<T>, k: int): (r: seq<T>)
    ensures |r| == if k >= 0 then |s| - Min(k, |s|) else Min(-k, |s|)
    ensures r == s[|s| - |r|..]
  {
    if k >= 0 then s[Min(k, |s|)..]
    else if |s| + k >= 0 then s[|s| + k..]
    else s
  }

  /** The length a list of length `n` has after one append and the eviction check against `m`. */
  function PushedLength(n: nat, m: int): nat
  {
    if n + 1 <= m then n + 1
    else if m >= 0 then (if m == 0 then n + 1 else m)
    else n + 1 - Min(-m, n + 1)
  }

  /**
   * Append `x`, then evict: `s.append(x); if len(s) > m: s = s[-m:]`.
   * The result is always a suffix of `s + [x]`. For `m >= 1` it is the newest
   * `min(|s| + 1, m)` elements, so `x` is last and the length is at most `m`,
   * whatever the length of `s` was; for `m == 0` the slice `[-0:]` keeps everything.
   */
  function Push<T>(s: seq<T>, x: T, m: int): (r: seq<T>)
    ensures |r| == PushedLength(|s|, m)
    ensures r == (s + [x])[|s| + 1 - |r|..]
    ensures m >= 1 ==> |r| == Min(|s| + 1, m) && r[|r| - 1] == x
    ensures m == 0 ==> r == s + [x]
  {
    var t := s + [x];
    if |t| > m then SliceFrom(t, -m) else t
  }

  /** The newest `m` elements of `t` (all of them when there are fewer). */
  function Newest<T>(t: seq<T>, m: nat): seq<T>
  {
    t[|t| - Min(|t|, m)..]
  }

  /** The buffer after the elements of `xs` arrive one by one. */
  function PushAll<T>(s: seq<T>, xs: seq<T>, m: int): seq<T>
    decreases |xs|
  {
    if |xs| == 0 then s else PushAll(Push(s, xs[0], m), xs[1..], m)
  }

  /** Taking the newest `m` after one eviction step is taking the newest `m` of everything. */
  lemma NewestAfterPush<T>(s: seq<T>, x: T, u: seq<T>, m: int)
    requires m >= 1
    ensures Newest(Push(s, x, m) + u, m) == Newest(s + [x] + u, m)
  {
    var p := Push(s, x, m);
    var t := s + [x];
    assert p == t[|t| - |p|..];
    assert p + u == (t + u)[|t| - |p|..];
  }

  /**
   * FIFO eviction law: after at least one append with capacity `m >= 1`, the
   * buffer holds exactly the newest `m` elements of everything that arrived,
   * in arrival order. A capacity lowered since the last append takes full
   * effect at the next one.
   */
  lemma {:induction false} PushAllKeepsNewest<T>(s: seq<T>, xs: seq<T>, m: int)
    requires m >= 1 && |xs| >= 1
    ensures PushAll(s, xs, m) == Newest(s + xs, m)
    decreases |xs|
  {
    var u := xs[1..];
    assert s + xs == s + [xs[0]] + u;
    if |u| == 0 {
      assert s + [xs[0]] + u == s + [xs[0]];
    } else {
      PushAllKeepsNewest(Push(s, xs[0], m), u, m);
      NewestAfterPush(s, xs[0], u, m);
    }
  }
}
