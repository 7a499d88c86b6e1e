/**
 * The two measurement cursors. A cursor is an integer sample index into the
 * current timeline (not a timestamp); it resolves only while the index lies
 * inside the timeline, and the elapsed time between the two cursors is shown
 * only when both exist and both resolve.
 */
module Cursors {
  import opened Wrappers
  import opened Window

  /** The Δt label: a distinct undefined value ("---") or a non-negative duration in microseconds. */
  datatype Delta = Undefined | Elapsed(micros: nat)

  /** What a resolved cursor shows: the timestamp, and per channel the value when that channel is long enough. */
  datatype Snapshot<V> = Snapshot(time: int, values: seq<Option<V>>)

  /** `DraggableCursor.get_time`: the timestamp at index `x`, or None when `x` is outside the timeline. */
  function TimeAt(timeStamps: seq<int>, x: int): (r: Option<int>)
    ensures r.Some? <==> 0 <= x < |timeStamps|
    ensures r.Some? ==> r.value == timeStamps[x]
  {
    if 0 <= x < |timeStamps| then Some(timeStamps[x]) else None
  }

  /**
   * The guard of `DraggableCursor.update_position`: a cursor resolves exactly
   * when its index is inside the timeline; a channel contributes a value only
   * when it is longer than the index.
   */
  function Resolve<V>(x: int, timeStamps: seq<int>, channels: seq<seq<V>>): (r: Option<Snapshot<V>>)
    ensures r.Some? <==> TimeAt(timeStamps, x).Some?
    ensures r.Some? ==> r.value.time == timeStamps[x] && |r.value.values| == |channels|
    ensures r.Some? ==> forall i :: 0 <= i < |channels| ==>
      (r.value.values[i].Some? <==> x < |channels[i]|) &&
      (r.value.values[i].Some? ==> r.value.values[i].value == channels[i][x])
  {
    if 0 <= x < |timeStamps| then
      Some(Snapshot(timeStamps[x], seq(|channels|, i requires 0 <= i < |channels| =>
        if x < |channels[i]| then Some(channels[i][x]) else None)))
    else None
  }

  function Abs(d: int): nat { if d < 0 then -d else d }

  /** `update_time_difference`: |t2 - t1| when both cursors exist and resolve, otherwise "---". */
  function DeltaT(c1: Option<int>, c2: Option<int>, timeStamps: seq<int>): (r: Delta)
    ensures r.Elapsed? <==> c1.Some? && c2.Some? && TimeAt(timeStamps, c1.value).Some? && TimeAt(timeStamps, c2.value).Some?
    ensures r.Elapsed? ==> r.micros == Abs(timeStamps[c2.value] - timeStamps[c1.value])
  {
    if c1.Some? && c2.Some? then
      match (TimeAt(timeStamps, c1.value), TimeAt(timeStamps, c2.value))
      case (Some(t1), Some(t2)) => Elapsed(Abs(t2 - t1))
      case _ => Undefined
    else Undefined
  }

  /** The measurement does not depend on which cursor is the first. */
  lemma DeltaTSymmetric(c1: Option<int>, c2: Option<int>, timeStamps: seq<int>)
    ensures DeltaT(c1, c2, timeStamps) == DeltaT(c2, c1, timeStamps)
  {
  }

  /** The live cursors: `cursor1` and `cursor2`. */
  datatype Pair = Pair(first: Option<int>, second: Option<int>)

  /** The second cursor never exists without the first. */
  predicate WellFormed(p: Pair) { p.second.Some? ==> p.first.Some? }

  function Live(p: Pair): nat { (if p.first.Some? then 1 else 0) + (if p.second.Some? then 1 else 0) }

  /**
   * The placement cycle of `add_cursor_on_click` once a click is accepted:
   * no cursor gives cursor 1; cursor 1 alone gains cursor 2; with both, they
   * are reset and a new cursor 1 is placed. The clicked index is always live,
   * and the number of live cursors goes 0, 1, 2, 1, 2, ...
   */
  function Place(p: Pair, x: int): (r: Pair)
    ensures WellFormed(r)
    ensures r.first == Some(x) || r.second == Some(x)
    ensures WellFormed(p) ==> Live(r) == if Live(p) == 2 then 1 else Live(p) + 1
    ensures WellFormed(p) && Live(p) == 1 ==> r == Pair(p.first, Some(x))
    ensures Live(p) != 1 ==> r == Pair(Some(x), None)
  {
    if p.first.None? then Pair(Some(x), p.second)
    else if p.second.None? then Pair(p.first, Some(x))
    else Pair(Some(x), None)
  }

  /** A third click starts over with one cursor, so Δt is undefined until another click. */
  lemma ThirdClickRestarts(a: int, b: int, c: int, timeStamps: seq<int>)
    ensures Place(Place(Place(Pair(None, None), a), b), c) == Pair(Some(c), None)
    ensures DeltaT(Some(c), None, timeStamps) == Undefined
  {
  }

  /**
   * Cursors are indices, not timestamps: when the timeline is full and a
   * sample arrives, the oldest timestamp is evicted and a cursor left at index
   * `x` silently resolves to the next newer sample.
   */
  lemma {:induction false} CursorDriftsOnEviction(timeStamps: seq<int>, now: int, m: int, x: int)
    requires m >= 1 && |timeStamps| == m
    requires 0 <= x < m
    ensures TimeAt(Push(timeStamps, now, m), x) ==
      if x < m - 1 then TimeAt(timeStamps, x + 1) else Some(now)
  {
    var r := Push(timeStamps, now, m);
    var t := timeStamps + [now];
    assert |r| == m;
    assert r == t[1..];
    assert r[x] == t[x + 1];
  }
}
