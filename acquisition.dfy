/**
 * The acquisition step of `SerialPlotter.update_plot` as a function on values:
 * what one already-read line does to the timeline, the channel buffers, the
 * redraw counter and the CSV log, including what the bare `except: continue`
 * leaves behind when a line has more fields than there are channels.
 */
module Acquisition {
  import opened Wrappers
  import opened LineParser
  import opened Window
  import opened Throttle

  /** One CSV row: the sample's timestamp and all its parsed values. */
  datatype Record<V> = Record(time: int, values: seq<V>)

  /** `time_stamps`, `y_data_channels`, `update_counter` and the rows written to the current CSV file. */
  datatype EngineState<V> = EngineState(timeStamps: seq<int>, channels: seq<seq<V>>, counter: int, log: seq<Record<V>>)

  /** `max_samples` and `update_every_n`. */
  datatype Settings = Settings(maxSamples: int, updateEveryN: int)

  /**
   * What became of one line: skipped (empty, or a field did not parse),
   * accepted (and whether the throttle redrew), or overlong (more fields than
   * channels: applied in part, then abandoned by the exception handler).
   */
  datatype Outcome = Skipped | Accepted(redraw: bool) | Overlong

  /** Each channel that has a value in `values` receives it; longer `values` are cut off at the last channel. */
  function AppendValues<V>(channels: seq<seq<V>>, values: seq<V>, m: int): seq<seq<V>>
  {
    seq(|channels|, i requires 0 <= i < |channels| =>
      if i < |values| then Push(channels[i], values[i], m) else channels[i])
  }

  /** The channel buffers a sample of `k` values meets: those there are, or `k` new empty ones on the first sample. */
  function ChannelsFor<V>(channels: seq<seq<V>>, k: nat): seq<seq<V>>
  {
    if |channels| == 0 then seq(k, _ => []) else channels
  }

  /**
   * What a parsed sample stamped `now` does: the CSV row is written, the
   * channels are created on the first sample, the timestamp and each value
   * are appended and evicted down to `maxSamples`, and the throttle ticks.
   * With more values than channels, the step stops at the first value with
   * no channel: the timestamp stays appended but is not evicted, and the
   * throttle does not tick.
   */
  function Apply<V>(e: EngineState<V>, values: seq<V>, now: int, s: Settings): (EngineState<V>, Outcome)
  {
    var log := e.log + [Record(now, values)];
    var channels := ChannelsFor(e.channels, |values|);
    var appended := AppendValues(channels, values, s.maxSamples);
    if |values| > |channels| then
      (EngineState(e.timeStamps + [now], appended, e.counter, log), Overlong)
    else
      var t := Advance(e.counter, s.updateEveryN);
      (EngineState(Push(e.timeStamps, now, s.maxSamples), appended, t.counter, log), Accepted(t.redraw))
  }

  /** `Apply` in its two cases, for the channels `appended` the values produce. */
  lemma ApplyCases<V>(e: EngineState<V>, values: seq<V>, now: int, s: Settings, appended: seq<seq<V>>)
    requires appended == AppendValues(ChannelsFor(e.channels, |values|), values, s.maxSamples)
    ensures |values| > |ChannelsFor(e.channels, |values|)| ==>
      Apply(e, values, now, s) == (EngineState(e.timeStamps + [now], appended, e.counter, e.log + [Record(now, values)]), Overlong)
    ensures |values| <= |ChannelsFor(e.channels, |values|)| ==>
      var t := Advance(e.counter, s.updateEveryN);
      Apply(e, values, now, s) ==
        (EngineState(Push(e.timeStamps, now, s.maxSamples), appended, t.counter, e.log + [Record(now, values)]), Accepted(t.redraw))
  {
  }

  /** One line through the body of the read loop, stamped `now` if it is accepted. */
  function Ingest<V>(e: EngineState<V>, line: string, now: int, s: Settings, parse: string -> Option<V>)
    : (EngineState<V>, Outcome)
  {
    if |line| == 0 then (e, Skipped)
    else match ParseLine(line, parse)
      case None => (e, Skipped)
      case Some(values) => Apply(e, values, now, s)
  }

  /**
   * What one line does: it is skipped exactly when it is empty or a field
   * does not parse, and then nothing changes; otherwise exactly one CSV row
   * is written, the first sample fixes the number of channels, the line is
   * overlong exactly when there are channels and fewer than its fields, and
   * only an accepted line ticks the throttle.
   */
  lemma IngestEffect<V>(e: EngineState<V>, line: string, now: int, s: Settings, parse: string -> Option<V>)
    ensures var r := Ingest(e, line, now, s, parse);
      (r.1.Skipped? <==> |line| == 0 || ParseLine(line, parse).None?) &&
      (r.1.Skipped? ==> r.0 == e) &&
      (!r.1.Skipped? ==> r.0.log == e.log + [Record(now, ParseLine(line, parse).value)]) &&
      |r.0.channels| == (if |e.channels| == 0 && !r.1.Skipped? then |ParseLine(line, parse).value| else |e.channels|) &&
      (r.1.Overlong? <==> !r.1.Skipped? && 0 < |e.channels| < |ParseLine(line, parse).value|) &&
      (!r.1.Accepted? ==> r.0.counter == e.counter) &&
      (r.1.Accepted? ==> Tick(r.0.counter, r.1.redraw) == Advance(e.counter, s.updateEveryN))
  {
  }

  /** Lines drained in one timer tick, the i-th stamped `clock[i]`; the outcomes in order. */
  function IngestAll<V>(e: EngineState<V>, lines: seq<string>, clock: seq<int>, s: Settings, parse: string -> Option<V>)
    : (r: (EngineState<V>, seq<Outcome>))
    requires |clock| == |lines|
    ensures |r.1| == |lines|
    decreases |lines|
  {
    if |lines| == 0 then (e, [])
    else
      var n := |lines| - 1;
      var (e1, os) := IngestAll(e, lines[..n], clock[..n], s, parse);
      var (e2, o) := Ingest(e1, lines[n], clock[n], s, parse);
      (e2, os + [o])
  }

  function AcceptedCount(os: seq<Outcome>): nat
  {
    if |os| == 0 then 0 else AcceptedCount(os[..|os| - 1]) + if os[|os| - 1].Accepted? then 1 else 0
  }

  function RedrawCount(os: seq<Outcome>): nat
  {
    if |os| == 0 then 0 else RedrawCount(os[..|os| - 1]) + if os[|os| - 1] == Accepted(true) then 1 else 0
  }

  /** The timeline and every channel have the same length; before the first sample there are neither channels nor timestamps. */
  predicate Aligned<V>(e: EngineState<V>)
  {
    (|e.channels| == 0 ==> |e.timeStamps| == 0) &&
    forall i :: 0 <= i < |e.channels| ==> |e.channels[i]| == |e.timeStamps|
  }

  /** Every line that would be accepted has exactly `k` fields. */
  predicate Conforming<V>(lines: seq<string>, k: nat, parse: string -> Option<V>)
  {
    forall i :: 0 <= i < |lines| && |lines[i]| > 0 && ParseLine(lines[i], parse).Some? ==>
      |ParseLine(lines[i], parse).value| == k
  }

  /** Parse failure has no effect: a line with a field that does not parse changes nothing at all. */
  lemma ParseFailureHasNoEffect<V>(e: EngineState<V>, line: string, now: int, s: Settings, parse: string -> Option<V>, j: nat)
    requires j < |Split(line, Comma)| && parse(Split(line, Comma)[j]).None?
    ensures Ingest(e, line, now, s, parse) == (e, Skipped)
  {
  }

  /**
   * One accepted sample of the established arity keeps the timeline and the
   * channels in lockstep, writes exactly one CSV row and, for a capacity
   * `m >= 1`, leaves every buffer holding the newest `min(|old| + 1, m)`
   * entries with the new one last.
   */
  lemma IngestKeepsLockstep<V>(e: EngineState<V>, line: string, now: int, s: Settings, parse: string -> Option<V>)
    requires Aligned(e)
    requires |line| > 0 && ParseLine(line, parse).Some?
    requires |e.channels| == 0 || |ParseLine(line, parse).value| == |e.channels|
    ensures var r := Ingest(e, line, now, s, parse);
      r.1.Accepted? && Aligned(r.0) && |r.0.log| == |e.log| + 1 &&
      |r.0.channels| == |ParseLine(line, parse).value| &&
      r.0.timeStamps == Push(e.timeStamps, now, s.maxSamples) &&
      (s.maxSamples >= 1 ==> |r.0.timeStamps| == Min(|e.timeStamps| + 1, s.maxSamples) <= s.maxSamples)
  {
    var values := ParseLine(line, parse).value;
    var r := Ingest(e, line, now, s, parse);
    forall i | 0 <= i < |r.0.channels|
      ensures |r.0.channels[i]| == |r.0.timeStamps|
    {
      if |e.channels| == 0 {
        assert |e.timeStamps| == 0;
      }
    }
  }

  /**
   * Lockstep invariant over a whole drain: if every accepted line has the
   * arity `k` of the first, no line is overlong, the timeline and the `k`
   * channels stay the same length, each accepted sample adds exactly one CSV
   * row, and with a capacity `m >= 1` no buffer grows past `m`.
   */
  lemma {:induction false} LockstepThroughout<V>(e: EngineState<V>, lines: seq<string>, clock: seq<int>,
                                                 s: Settings, parse: string -> Option<V>, k: nat)
    requires |clock| == |lines| && k >= 1
    requires Aligned(e) && (|e.channels| == 0 || |e.channels| == k)
    requires Conforming(lines, k, parse)
    ensures var r := IngestAll(e, lines, clock, s, parse);
      Aligned(r.0) && (|r.0.channels| == 0 || |r.0.channels| == k) &&
      Overlong !in r.1 && |r.0.log| == |e.log| + AcceptedCount(r.1) &&
      (s.maxSamples >= 1 && |e.timeStamps| <= s.maxSamples ==> |r.0.timeStamps| <= s.maxSamples)
    decreases |lines|
  {
    if |lines| > 0 {
      var n := |lines| - 1;
      ConformingPrefix(lines, k, parse);
      LockstepThroughout(e, lines[..n], clock[..n], s, parse, k);
      DrainLockstepStep(e, lines, clock, s, parse, k);
    }
  }

  lemma ConformingPrefix<V>(lines: seq<string>, k: nat, parse: string -> Option<V>)
    requires |lines| > 0 && Conforming(lines, k, parse)
    ensures Conforming(lines[..|lines| - 1], k, parse)
    ensures var n := |lines| - 1;
      |lines[n]| > 0 && ParseLine(lines[n], parse).Some? ==> |ParseLine(lines[n], parse).value| == k
  {
    var n := |lines| - 1;
    forall i | 0 <= i < n ensures lines[..n][i] == lines[i] { }
  }

  /** The invariant of `LockstepThroughout` for a drain from `e` that ended in `r`. */
  predicate LockstepAfter<V>(e: EngineState<V>, r: (EngineState<V>, seq<Outcome>), k: nat, m: int)
  {
    Aligned(r.0) && (|r.0.channels| == 0 || |r.0.channels| == k) &&
    Overlong !in r.1 && |r.0.log| == |e.log| + AcceptedCount(r.1) &&
    (m >= 1 && |e.timeStamps| <= m ==> |r.0.timeStamps| <= m)
  }

  /** A conforming last line keeps the invariant the rest of the drain established. */
  lemma DrainLockstepStep<V>(e: EngineState<V>, lines: seq<string>, clock: seq<int>, s: Settings,
                             parse: string -> Option<V>, k: nat)
    requires |clock| == |lines| > 0 && k >= 1
    requires var n := |lines| - 1;
      |lines[n]| > 0 && ParseLine(lines[n], parse).Some? ==> |ParseLine(lines[n], parse).value| == k
    requires var n := |lines| - 1;
      LockstepAfter(e, IngestAll(e, lines[..n], clock[..n], s, parse), k, s.maxSamples)
    ensures LockstepAfter(e, IngestAll(e, lines, clock, s, parse), k, s.maxSamples)
  {
    var n := |lines| - 1;
    var p := IngestAll(e, lines[..n], clock[..n], s, parse);
    IngestAllLast(e, lines, clock, s, parse);
    LockstepStep(e, p.0, p.1, lines[n], clock[n], s, parse, k);
  }

  /** One more line of arity `k` (if accepted) keeps the invariant of `LockstepThroughout`. */
  lemma LockstepStep<V>(e0: EngineState<V>, e: EngineState<V>, os: seq<Outcome>, line: string, now: int,
                        s: Settings, parse: string -> Option<V>, k: nat)
    requires Aligned(e) && (|e.channels| == 0 || |e.channels| == k) && k >= 1
    requires Overlong !in os && |e.log| == |e0.log| + AcceptedCount(os)
    requires s.maxSamples >= 1 && |e0.timeStamps| <= s.maxSamples ==> |e.timeStamps| <= s.maxSamples
    requires |line| > 0 && ParseLine(line, parse).Some? ==> |ParseLine(line, parse).value| == k
    ensures var r := Ingest(e, line, now, s, parse);
      Aligned(r.0) && (|r.0.channels| == 0 || |r.0.channels| == k) &&
      Overlong !in os + [r.1] && |r.0.log| == |e0.log| + AcceptedCount(os + [r.1]) &&
      (s.maxSamples >= 1 && |e0.timeStamps| <= s.maxSamples ==> |r.0.timeStamps| <= s.maxSamples)
  {
    var r := Ingest(e, line, now, s, parse);
    CountsOfLast(os, r.1);
    if !r.1.Skipped? {
      IngestKeepsLockstep(e, line, now, s, parse);
    }
  }

  /** One more outcome advances the throttle exactly when it is an accepted sample. */
  lemma RunExtend(c0: int, n: int, os: seq<Outcome>, c1: int, o: Outcome, c2: int)
    requires (c1, RedrawCount(os)) == Run(c0, n, AcceptedCount(os))
    requires o.Accepted? ==> Tick(c2, o.redraw) == Advance(c1, n)
    requires !o.Accepted? ==> c2 == c1
    ensures (c2, RedrawCount(os + [o])) == Run(c0, n, AcceptedCount(os + [o]))
  {
    CountsOfLast(os, o);
  }

  /**
   * The throttle over a whole drain: the counter and the number of redraws
   * are those of `Run` after as many ticks as there were accepted samples;
   * skipped and overlong lines do not tick.
   */
  lemma {:induction false} ThrottleThroughout<V>(e: EngineState<V>, lines: seq<string>, clock: seq<int>,
                                                 s: Settings, parse: string -> Option<V>)
    requires |clock| == |lines|
    ensures var r := IngestAll(e, lines, clock, s, parse);
      (r.0.counter, RedrawCount(r.1)) == Run(e.counter, s.updateEveryN, AcceptedCount(r.1))
    decreases |lines|
  {
    if |lines| > 0 {
      var n := |lines| - 1;
      ThrottleThroughout(e, lines[..n], clock[..n], s, parse);
      var p := IngestAll(e, lines[..n], clock[..n], s, parse);
      var r := Ingest(p.0, lines[n], clock[n], s, parse);
      IngestAllLast(e, lines, clock, s, parse);
      RunExtend(e.counter, s.updateEveryN, p.1, p.0.counter, r.1, r.0.counter);
    }
  }

  /** A drain ends with its last line applied to the state the rest of the drain left. */
  lemma IngestAllLast<V>(e: EngineState<V>, lines: seq<string>, clock: seq<int>, s: Settings, parse: string -> Option<V>)
    requires |clock| == |lines| > 0
    ensures var n := |lines| - 1;
      var p := IngestAll(e, lines[..n], clock[..n], s, parse);
      var r := Ingest(p.0, lines[n], clock[n], s, parse);
      IngestAll(e, lines, clock, s, parse) == (r.0, p.1 + [r.1])
  {
  }

  /** The outcomes of the first `j` lines of a drain are the first `j` outcomes of the whole drain. */
  lemma {:induction false} IngestAllPrefix<V>(e: EngineState<V>, lines: seq<string>, clock: seq<int>, s: Settings,
                                              parse: string -> Option<V>, j: nat)
    requires |clock| == |lines| && j <= |lines|
    ensures IngestAll(e, lines[..j], clock[..j], s, parse).1 == IngestAll(e, lines, clock, s, parse).1[..j]
    decreases |lines|
  {
    if j == |lines| {
      assert lines[..j] == lines && clock[..j] == clock;
    } else {
      var n := |lines| - 1;
      IngestAllPrefix(e, lines[..n], clock[..n], s, parse, j);
      assert lines[..n][..j] == lines[..j] && clock[..n][..j] == clock[..j];
      IngestAllLast(e, lines, clock, s, parse);
      var p := IngestAll(e, lines[..n], clock[..n], s, parse);
      var os := IngestAll(e, lines, clock, s, parse).1;
      assert os[..n] == p.1;
      assert os[..j] == os[..n][..j];
    }
  }

  /** The counts of a sequence of outcomes with one more at its end. */
  lemma CountsOfLast(os: seq<Outcome>, o: Outcome)
    ensures AcceptedCount(os + [o]) == AcceptedCount(os) + if o.Accepted? then 1 else 0
    ensures RedrawCount(os + [o]) == RedrawCount(os) + if o == Accepted(true) then 1 else 0
  {
    assert (os + [o])[..|os|] == os;
  }

  /** With a threshold `n >= 1` and a counter below it, a drain of `a` accepted samples redraws `(counter + a) / n` times. */
  lemma RedrawsOncePerN<V>(e: EngineState<V>, lines: seq<string>, clock: seq<int>, s: Settings, parse: string -> Option<V>)
    requires |clock| == |lines|
    requires 1 <= s.updateEveryN && 0 <= e.counter < s.updateEveryN
    ensures var r := IngestAll(e, lines, clock, s, parse);
      var a := AcceptedCount(r.1);
      RedrawCount(r.1) == (e.counter + a) / s.updateEveryN &&
      r.0.counter == (e.counter + a) % s.updateEveryN
  {
    var r := IngestAll(e, lines, clock, s, parse);
    ThrottleThroughout(e, lines, clock, s, parse);
    RunFiresEveryN(e.counter, s.updateEveryN, AcceptedCount(r.1));
  }

  /**
   * A shorter line is accepted although it leaves the trailing channels
   * untouched, so (with room in the window) the timeline grows past them.
   */
  lemma ShortLineLeavesTrailingChannels<V>(e: EngineState<V>, line: string, now: int, s: Settings, parse: string -> Option<V>)
    requires Aligned(e)
    requires |line| > 0 && ParseLine(line, parse).Some?
    requires |ParseLine(line, parse).value| < |e.channels|
    requires s.maxSamples > |e.timeStamps|
    ensures var r := Ingest(e, line, now, s, parse);
      r.1.Accepted? && r.0.channels[|e.channels| - 1] == e.channels[|e.channels| - 1] &&
      |r.0.timeStamps| == |e.timeStamps| + 1 && !Aligned(r.0)
  {
    var values := ParseLine(line, parse).value;
    var appended := AppendValues(e.channels, values, s.maxSamples);
    assert Ingest(e, line, now, s, parse) == Apply(e, values, now, s);
    ApplyCases(e, values, now, s, appended);
    var last := |e.channels| - 1;
    assert appended[last] == e.channels[last];
    assert |appended[last]| == |e.timeStamps|;
  }

  /**
   * A line with more fields than there are channels is not skipped: the CSV
   * row is written, the timestamp is appended with no eviction, each channel
   * takes its value and is evicted as usual, and the throttle does not tick.
   */
  lemma OverlongLineAppliesInPart<V>(e: EngineState<V>, line: string, now: int, s: Settings, parse: string -> Option<V>)
    requires |line| > 0 && ParseLine(line, parse).Some?
    requires 0 < |e.channels| < |ParseLine(line, parse).value|
    ensures var values := ParseLine(line, parse).value;
      Ingest(e, line, now, s, parse) ==
        (EngineState(e.timeStamps + [now], AppendValues(e.channels, values, s.maxSamples), e.counter,
                     e.log + [Record(now, values)]), Overlong)
  {
  }

  /** Every line parses to more fields than the `k` channels there are. */
  predicate AllOverlong<V>(lines: seq<string>, k: nat, parse: string -> Option<V>)
  {
    forall i :: 0 <= i < |lines| ==>
      |lines[i]| > 0 && ParseLine(lines[i], parse).Some? && |ParseLine(lines[i], parse).value| > k
  }

  lemma AllOverlongPrefix<V>(lines: seq<string>, k: nat, parse: string -> Option<V>)
    requires |lines| > 0 && AllOverlong(lines, k, parse)
    ensures AllOverlong(lines[..|lines| - 1], k, parse)
    ensures var n := |lines| - 1;
      |lines[n]| > 0 && ParseLine(lines[n], parse).Some? && |ParseLine(lines[n], parse).value| > k
  {
    var n := |lines| - 1;
    forall i | 0 <= i < n ensures lines[..n][i] == lines[i] { }
  }

  /**
   * Overlong lines are never evicted from the timeline: a drain of them
   * appends every timestamp, so the timeline grows past `maxSamples`, while
   * the channel count and the throttle stay as they were.
   */
  lemma {:induction false} OverlongLinesOutgrowCapacity<V>(e: EngineState<V>, lines: seq<string>, clock: seq<int>,
                                                          s: Settings, parse: string -> Option<V>)
    requires |clock| == |lines| && |e.channels| > 0
    requires AllOverlong(lines, |e.channels|, parse)
    ensures var r := IngestAll(e, lines, clock, s, parse);
      r.0.timeStamps == e.timeStamps + clock && |r.0.channels| == |e.channels| && r.0.counter == e.counter &&
      |r.0.timeStamps| == |e.timeStamps| + |lines|
    decreases |lines|
  {
    if |lines| > 0 {
      var n := |lines| - 1;
      AllOverlongPrefix(lines, |e.channels|, parse);
      OverlongLinesOutgrowCapacity(e, lines[..n], clock[..n], s, parse);
      OverlongStep(e, lines, clock, s, parse);
    }
  }

  /** If the drain up to its last line appended every timestamp, an overlong last line appends its own too. */
  lemma OverlongStep<V>(e: EngineState<V>, lines: seq<string>, clock: seq<int>, s: Settings, parse: string -> Option<V>)
    requires |clock| == |lines| > 0 && |e.channels| > 0
    requires var n := |lines| - 1;
      |lines[n]| > 0 && ParseLine(lines[n], parse).Some? && |ParseLine(lines[n], parse).value| > |e.channels|
    requires var n := |lines| - 1;
      var p := IngestAll(e, lines[..n], clock[..n], s, parse);
      p.0.timeStamps == e.timeStamps + clock[..n] && |p.0.channels| == |e.channels| && p.0.counter == e.counter
    ensures var r := IngestAll(e, lines, clock, s, parse);
      r.0.timeStamps == e.timeStamps + clock && |r.0.channels| == |e.channels| && r.0.counter == e.counter
  {
    var n := |lines| - 1;
    var p := IngestAll(e, lines[..n], clock[..n], s, parse);
    IngestAllLast(e, lines, clock, s, parse);
    OverlongLineAppliesInPart(p.0, lines[n], clock[n], s, parse);
    assert clock[..n] + [clock[n]] == clock;
  }

  /** The fields of the line `"b,c"`. */
  lemma SplitTwoFields()
    ensures Split("b,c", Comma) == ["b", "c"]
  {
    assert "c"[0] == 'c' && "c"[1..] == "";
    assert ['c'] + "" == "c" && [""][1..] == [];
    assert Split("c", Comma) == ["c"];
    assert ",c"[0] == Comma && ",c"[1..] == "c";
    assert Split(",c", Comma) == ["", "c"];
    assert "b,c"[0] == 'b' && "b,c"[1..] == ",c";
    assert ['b'] + "" == "b" && ["", "c"][1..] == ["c"];
  }

  /** A field parser that accepts every field as it is. */
  function Verbatim(f: string): Option<string> { Some(f) }

  /**
   * An overlong line is not skipped: with one channel, capacity 1 and the
   * line `"b,c"`, the CSV row is written, the channel takes `"b"`, and the
   * timeline keeps both timestamps, past the capacity and out of lockstep.
   */
  lemma OverlongLineBreaksLockstep()
    ensures var e := EngineState([0], [["a"]], 0, [Record(0, ["a"])]);
      var r := Ingest(e, "b,c", 1, Settings(1, 10), Verbatim);
      r.1 == Overlong && r.0.timeStamps == [0, 1] && r.0.channels == [["b"]] &&
      r.0.log == e.log + [Record(1, ["b", "c"])] && r.0.counter == 0 && !Aligned(r.0)
  {
    var parse := Verbatim;
    var e := EngineState([0], [["a"]], 0, [Record(0, ["a"])]);
    SplitTwoFields();
    var values := ParseLine("b,c", parse).value;
    assert values == ["b", "c"];
    assert Push(["a"], "b", 1) == ["b"];
    assert AppendValues(e.channels, values, 1) == [["b"]];
    var r := Ingest(e, "b,c", 1, Settings(1, 10), parse);
    assert r.1 == Overlong;
    assert r.0.timeStamps == [0, 1];
    assert r.0.channels == [["b"]];
    assert r.0.log == e.log + [Record(1, ["b", "c"])];
    assert r.0.counter == 0;
    assert |r.0.channels[0]| != |r.0.timeStamps|;
  }
}
