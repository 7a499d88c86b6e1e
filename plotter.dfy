/**
 * The state the `SerialPlotter` window keeps and the operations that change
 * it: the per-line acquisition step and the drain of one timer tick, the
 * cursor clicks, drags and reset, the Δt label, starting and stopping a
 * session, and the two settings boxes.
 */
module Plotter {
  import opened Wrappers
  import opened LineParser
  import opened Window
  import opened Cursors
  import opened Acquisition
  import Throttle

  /** How `start_plotting` ended. */
  datatype StartStatus = NoPortSelected | SaveCancelled | OpenFailed | Started

  /** Which cursor the user drags. */
  datatype CursorId = First | Second

  /** The Δt label after one line: refreshed from the new timeline when the line was accepted and a cursor exists. */
  function Refreshed(shown: Delta, o: Outcome, c1: Option<int>, c2: Option<int>, timeStamps: seq<int>): Delta
  {
    if o.Accepted? && (c1.Some? || c2.Some?) then DeltaT(c1, c2, timeStamps) else shown
  }

  /**
   * A drain with the Δt label carried along: the engine state and outcomes
   * of `IngestAll`, and the label after each line as `Refreshed` leaves it,
   * the cursors `c1` and `c2` held fixed throughout.
   */
  function Drain<V>(e: EngineState<V>, shown: Delta, lines: seq<string>, clock: seq<int>, s: Settings,
                    parse: string -> Option<V>, c1: Option<int>, c2: Option<int>): (EngineState<V>, seq<Outcome>, Delta)
    requires |clock| == |lines|
    decreases |lines|
  {
    if |lines| == 0 then (e, [], shown)
    else
      var n := |lines| - 1;
      var d := Drain(e, shown, lines[..n], clock[..n], s, parse, c1, c2);
      var r := Ingest(d.0, lines[n], clock[n], s, parse);
      (r.0, d.1 + [r.1], Refreshed(d.2, r.1, c1, c2, r.0.timeStamps))
  }

  /** Carrying the label along does not change the engine state or the outcomes of the drain. */
  lemma {:induction false} DrainAgrees<V>(e: EngineState<V>, shown: Delta, lines: seq<string>, clock: seq<int>, s: Settings,
                                          parse: string -> Option<V>, c1: Option<int>, c2: Option<int>)
    requires |clock| == |lines|
    ensures var d := Drain(e, shown, lines, clock, s, parse, c1, c2);
      (d.0, d.1) == IngestAll(e, lines, clock, s, parse)
    decreases |lines|
  {
    if |lines| > 0 {
      var n := |lines| - 1;
      DrainAgrees(e, shown, lines[..n], clock[..n], s, parse, c1, c2);
    }
  }

  /** No outcome from index `from` on is an accepted sample. */
  predicate NoneAcceptedFrom(os: seq<Outcome>, from: nat)
  {
    forall i :: from <= i < |os| ==> !os[i].Accepted?
  }

  /** Dropping the last outcome keeps `NoneAcceptedFrom`, and the dropped one was not accepted if it lay in the range. */
  lemma NoneAcceptedPrefix(os: seq<Outcome>, from: nat)
    requires |os| > 0 && NoneAcceptedFrom(os, from)
    ensures NoneAcceptedFrom(os[..|os| - 1], from)
    ensures from <= |os| - 1 ==> !os[|os| - 1].Accepted?
  {
  }

  /** A drain with no cursor, or with no accepted line, leaves the label as it was. */
  lemma {:induction false} DrainLabelUnrefreshed<V>(e: EngineState<V>, shown: Delta, lines: seq<string>, clock: seq<int>,
                                                    s: Settings, parse: string -> Option<V>, c1: Option<int>, c2: Option<int>)
    requires |clock| == |lines|
    requires (c1.None? && c2.None?) || NoneAcceptedFrom(IngestAll(e, lines, clock, s, parse).1, 0)
    ensures Drain(e, shown, lines, clock, s, parse, c1, c2).2 == shown
    decreases |lines|
  {
    if |lines| > 0 {
      var n := |lines| - 1;
      DrainLast(e, shown, lines, clock, s, parse, c1, c2);
      if c1.Some? || c2.Some? {
        NoneAcceptedPrefix(IngestAll(e, lines, clock, s, parse).1, 0);
      }
      DrainLabelUnrefreshed(e, shown, lines[..n], clock[..n], s, parse, c1, c2);
    }
  }

  /**
   * With a cursor present, the label after a drain is Δt on the timeline
   * the last accepted line left; later skipped or overlong lines do not
   * refresh it.
   */
  lemma {:induction false} DrainLabelLastAccepted<V>(e: EngineState<V>, shown: Delta, lines: seq<string>, clock: seq<int>,
                                                     s: Settings, parse: string -> Option<V>, c1: Option<int>, c2: Option<int>,
                                                     j: nat)
    requires |clock| == |lines| && j < |lines| && (c1.Some? || c2.Some?)
    requires var os := IngestAll(e, lines, clock, s, parse).1;
      os[j].Accepted? && NoneAcceptedFrom(os, j + 1)
    ensures Drain(e, shown, lines, clock, s, parse, c1, c2).2 ==
      DeltaT(c1, c2, IngestAll(e, lines[..j + 1], clock[..j + 1], s, parse).0.timeStamps)
    decreases |lines|
  {
    var n := |lines| - 1;
    DrainLast(e, shown, lines, clock, s, parse, c1, c2);
    NoneAcceptedPrefix(IngestAll(e, lines, clock, s, parse).1, j + 1);
    if j == n {
      assert lines[..j + 1] == lines && clock[..j + 1] == clock;
    } else {
      assert lines[..n][..j + 1] == lines[..j + 1] && clock[..n][..j + 1] == clock[..j + 1];
      DrainLabelLastAccepted(e, shown, lines[..n], clock[..n], s, parse, c1, c2, j);
    }
  }

  /** The label after a drain is the label before its last line, refreshed by that line's outcome. */
  lemma DrainLast<V>(e: EngineState<V>, shown: Delta, lines: seq<string>, clock: seq<int>, s: Settings,
                     parse: string -> Option<V>, c1: Option<int>, c2: Option<int>)
    requires |clock| == |lines| > 0
    ensures var n := |lines| - 1;
      var r := IngestAll(e, lines, clock, s, parse);
      r.1[..n] == IngestAll(e, lines[..n], clock[..n], s, parse).1 &&
      Drain(e, shown, lines, clock, s, parse, c1, c2).2 ==
        Refreshed(Drain(e, shown, lines[..n], clock[..n], s, parse, c1, c2).2, r.1[n], c1, c2, r.0.timeStamps)
  {
    var n := |lines| - 1;
    DrainAgrees(e, shown, lines, clock, s, parse, c1, c2);
    DrainAgrees(e, shown, lines[..n], clock[..n], s, parse, c1, c2);
  }

  /** The drain of the first `i + 1` lines is the drain of the first `i` followed by line `i`. */
  lemma DrainStep<V>(e: EngineState<V>, shown: Delta, lines: seq<string>, clock: seq<int>, s: Settings,
                     parse: string -> Option<V>, c1: Option<int>, c2: Option<int>, i: nat)
    requires |clock| == |lines| && i < |lines|
    ensures var d := Drain(e, shown, lines[..i], clock[..i], s, parse, c1, c2);
      var r := Ingest(d.0, lines[i], clock[i], s, parse);
      Drain(e, shown, lines[..i + 1], clock[..i + 1], s, parse, c1, c2) ==
        (r.0, d.1 + [r.1], Refreshed(d.2, r.1, c1, c2, r.0.timeStamps))
  {
    assert lines[..i + 1][..i] == lines[..i] && clock[..i + 1][..i] == clock[..i];
  }

  class SerialPlotter<V> {
    /** `float(field)`: the conversion of one field of a line, None where Python raises. */
    const parseField: string -> Option<V>
    /** `int(text)`: the conversion of a settings box's text, None where Python raises. */
    const parseInt: string -> Option<int>

    var timeStamps: seq<int>
    var channels: seq<seq<V>>
    var maxSamples: int
    var updateEveryN: int
    var updateCounter: int
    /** The rows written to the current session's CSV file. */
    var csvLog: seq<Record<V>>
    var cursor1: Option<int>
    var cursor2: Option<int>
    /** The Δt label as last set. */
    var deltaLabel: Delta
    var reading: bool
    /** `self.serial is not None` */
    var serialOpen: bool
    /** `self.csv_file is not None` */
    var csvOpen: bool

    /** The second cursor exists only beside the first, and a reading session always has its port and CSV file. */
    ghost predicate Valid()
      reads this`cursor1, this`cursor2, this`reading, this`serialOpen, this`csvOpen
    {
      (cursor2.Some? ==> cursor1.Some?) &&
      (reading ==> serialOpen && csvOpen)
    }

    function State(): EngineState<V>
      reads this`timeStamps, this`channels, this`updateCounter, this`csvLog
    {
      EngineState(timeStamps, channels, updateCounter, csvLog)
    }

    function Config(): Settings
      reads this`maxSamples, this`updateEveryN
    {
      Settings(maxSamples, updateEveryN)
    }

    /** A fresh window: no data, no cursors, 1000 samples per buffer, a redraw every 10 samples. */
    constructor (parseField: string -> Option<V>, parseInt: string -> Option<int>)
      ensures Valid()
      ensures this.parseField == parseField && this.parseInt == parseInt
      ensures timeStamps == [] && channels == [] && csvLog == [] && updateCounter == 0
      ensures maxSamples == 1000 && updateEveryN == 10
      ensures cursor1 == None && cursor2 == None && deltaLabel == Elapsed(0)
      ensures !reading && !serialOpen && !csvOpen
    {
      this.parseField := parseField;
      this.parseInt := parseInt;
      timeStamps, channels, csvLog := [], [], [];
      maxSamples, updateEveryN, updateCounter := 1000, 10, 0;
      cursor1, cursor2 := None, None;
      deltaLabel := Elapsed(0);
      reading, serialOpen, csvOpen := false, false, false;
    }

    /** `get_data`: the sample indices `0 .. len(time_stamps) - 1`, the channels and the timestamps. */
    function GetData(): (r: (seq<int>, seq<seq<V>>, seq<int>))
      reads this`timeStamps, this`channels
      ensures |r.0| == |timeStamps| && forall i :: 0 <= i < |r.0| ==> r.0[i] == i
      ensures r.1 == channels && r.2 == timeStamps
    {
      (seq(|timeStamps|, i => i), channels, timeStamps)
    }

    /** `update_time_difference`: the label shows the current Δt of the two cursors. */
    method UpdateTimeDifference()
      modifies this`deltaLabel
      ensures deltaLabel == DeltaT(cursor1, cursor2, timeStamps)
    {
      if cursor1.Some? && cursor2.Some? {
        var t1 := TimeAt(timeStamps, cursor1.value);
        var t2 := TimeAt(timeStamps, cursor2.value);
        if t1.Some? && t2.Some? {
          deltaLabel := Elapsed(Abs(t2.value - t1.value));
        } else {
          deltaLabel := Undefined;
        }
      } else {
        deltaLabel := Undefined;
      }
    }

    /** `reset_cursors`: both cursors are removed and Δt becomes undefined. */
    method ResetCursors()
      modifies this`cursor1, this`cursor2, this`deltaLabel
      ensures cursor1 == None && cursor2 == None && deltaLabel == Undefined
    {
      cursor1 := None;
      cursor2 := None;
      UpdateTimeDifference();
    }

    /**
     * `add_cursor_on_click`: a click outside the plot or before any data does
     * nothing; otherwise the click at index `x` takes the next step of the
     * placement cycle and the label is refreshed.
     */
    method AddCursorOnClick(insidePlot: bool, x: int)
      requires Valid()
      modifies this`cursor1, this`cursor2, this`deltaLabel
      ensures Valid()
      ensures !insidePlot || |timeStamps| == 0 ==>
        cursor1 == old(cursor1) && cursor2 == old(cursor2) && deltaLabel == old(deltaLabel)
      ensures insidePlot && |timeStamps| > 0 ==>
        Pair(cursor1, cursor2) == Place(Pair(old(cursor1), old(cursor2)), x) &&
        deltaLabel == DeltaT(cursor1, cursor2, timeStamps)
    {
      if !insidePlot {
        return;
      }
      if |timeStamps| == 0 {
        return;
      }
      if cursor1.None? {
        cursor1 := Some(x);
      } else if cursor2.None? {
        cursor2 := Some(x);
      } else {
        ResetCursors();
        cursor1 := Some(x);
      }
      UpdateTimeDifference();
    }

    /** Dragging a live cursor's line to index `x` moves it and refreshes the label; an absent cursor cannot be dragged. */
    method DragCursor(which: CursorId, x: int)
      requires Valid()
      modifies this`cursor1, this`cursor2, this`deltaLabel
      ensures Valid()
      ensures cursor1 == if which == First && old(cursor1).Some? then Some(x) else old(cursor1)
      ensures cursor2 == if which == Second && old(cursor2).Some? then Some(x) else old(cursor2)
      ensures deltaLabel == if (which == First && old(cursor1).Some?) || (which == Second && old(cursor2).Some?)
        then DeltaT(cursor1, cursor2, timeStamps) else old(deltaLabel)
    {
      if which == First && cursor1.Some? {
        cursor1 := Some(x);
        UpdateTimeDifference();
      } else if which == Second && cursor2.Some? {
        cursor2 := Some(x);
        UpdateTimeDifference();
      }
    }

    /**
     * `start_plotting`. The cursors are reset before anything else, so even a
     * start that fails clears them. The buffers and the CSV log are cleared and
     * reading begins only when a port is selected, a file name is chosen, and
     * both the port and the file open. A port that opens before the file fails
     * stays assigned. The redraw counter carries over.
     */
    method StartPlotting(portSelected: bool, fileChosen: bool, portOpens: bool, fileOpens: bool)
      returns (status: StartStatus)
      requires Valid()
      modifies this
      ensures Valid()
      ensures cursor1 == None && cursor2 == None && deltaLabel == Undefined
      ensures status == if !portSelected then NoPortSelected
                        else if !fileChosen then SaveCancelled
                        else if !portOpens || !fileOpens then OpenFailed
                        else Started
      ensures status == Started ==>
        timeStamps == [] && channels == [] && csvLog == [] && reading && serialOpen && csvOpen
      ensures status != Started ==>
        timeStamps == old(timeStamps) && channels == old(channels) && csvLog == old(csvLog) &&
        reading == old(reading) && csvOpen == old(csvOpen)
      ensures serialOpen == (old(serialOpen) || (portSelected && fileChosen && portOpens))
      ensures updateCounter == old(updateCounter) && Config() == old(Config())
    {
      ResetCursors();
      if !portSelected {
        return NoPortSelected;
      }
      if !fileChosen {
        return SaveCancelled;
      }
      if !portOpens {
        return OpenFailed;
      }
      serialOpen := true;
      if !fileOpens {
        return OpenFailed;
      }
      csvOpen := true;
      csvLog := [];
      timeStamps := [];
      channels := [];
      reading := true;
      return Started;
    }

    /** `stop_plotting`: reading stops and both handles are dropped; the data stays for inspection. */
    method StopPlotting()
      requires Valid()
      modifies this`reading, this`serialOpen, this`csvOpen, this`deltaLabel
      ensures Valid()
      ensures !reading && !serialOpen && !csvOpen
      ensures timeStamps == old(timeStamps) && channels == old(channels) && csvLog == old(csvLog)
      ensures deltaLabel == DeltaT(cursor1, cursor2, timeStamps)
    {
      reading := false;
      serialOpen := false;
      csvOpen := false;
      UpdateTimeDifference();
    }

    /** `change_update_rate`: text that is not an integer leaves the threshold as it was. */
    method ChangeUpdateRate(value: string)
      modifies this`updateEveryN
      ensures parseInt(value).Some? ==> updateEveryN == parseInt(value).value
      ensures parseInt(value).None? ==> updateEveryN == old(updateEveryN)
    {
      var n := parseInt(value);
      if n.Some? {
        updateEveryN := n.value;
      }
    }

    /** `change_max_samples`: text that is not an integer leaves the capacity as it was; the buffers are not touched. */
    method ChangeMaxSamples(value: string)
      modifies this`maxSamples
      ensures parseInt(value).Some? ==> maxSamples == parseInt(value).value
      ensures parseInt(value).None? ==> maxSamples == old(maxSamples)
    {
      var n := parseInt(value);
      if n.Some? {
        maxSamples := n.value;
      }
    }

    /**
     * One already-read, stripped line through the body of the read loop. The
     * new state is `Ingest` of the old one. When the line is accepted and a
     * cursor exists, the cursors are refreshed and with them the Δt label.
     */
    method ProcessLine(line: string, now: int) returns (outcome: Outcome)
      modifies this`timeStamps, this`channels, this`updateCounter, this`csvLog, this`deltaLabel
      ensures (State(), outcome) == Ingest(old(State()), line, now, Config(), parseField)
      ensures deltaLabel == if outcome.Accepted? && (cursor1.Some? || cursor2.Some?)
        then DeltaT(cursor1, cursor2, timeStamps) else old(deltaLabel)
    {
      if |line| == 0 {
        return Skipped;
      }
      var parsed := ParseLine(line, parseField);
      if parsed.None? {
        return Skipped;
      }
      ghost var e0 := State();
      assert Ingest(e0, line, now, Config(), parseField) == Apply(e0, parsed.value, now, Config());
      outcome := AcceptSample(parsed.value, now);
    }

    /**
     * The part of the loop body after a successful parse (lines 263-296 of
     * the source): the new state is `Apply` of the old one, and when the
     * sample is accepted and a cursor exists the Δt label is refreshed.
     */
    method AcceptSample(values: seq<V>, now: int) returns (outcome: Outcome)
      modifies this`timeStamps, this`channels, this`updateCounter, this`csvLog, this`deltaLabel
      ensures (State(), outcome) == Apply(old(State()), values, now, Config())
      ensures deltaLabel == if outcome.Accepted? && (cursor1.Some? || cursor2.Some?)
        then DeltaT(cursor1, cursor2, timeStamps) else old(deltaLabel)
    {
      ghost var e0 := State();
      csvLog := csvLog + [Record(now, values)];
      if |channels| == 0 {
        CreateChannels(|values|);
      }
      assert channels == ChannelsFor(e0.channels, |values|);
      timeStamps := timeStamps + [now];
      var complete := AppendToChannels(values);
      ApplyCases(e0, values, now, Config(), channels);
      if !complete {
        return Overlong;
      }
      var redraw := FinishAccepted(e0.timeStamps, now);
      return Accepted(redraw);
    }

    /** The rest of an accepted sample: the timeline is evicted, the throttle ticks and the cursors are refreshed. */
    method FinishAccepted(ghost before: seq<int>, ghost now: int) returns (redraw: bool)
      requires timeStamps == before + [now]
      modifies this`timeStamps, this`updateCounter, this`deltaLabel
      ensures timeStamps == Push(before, now, maxSamples)
      ensures Throttle.Tick(updateCounter, redraw) == Throttle.Advance(old(updateCounter), updateEveryN)
      ensures deltaLabel == if cursor1.Some? || cursor2.Some? then DeltaT(cursor1, cursor2, timeStamps) else old(deltaLabel)
    {
      EvictOldTimestamps(before, now);
      redraw := AdvanceCounter();
      RefreshCursors();
    }

    /** `if len(time_stamps) > max_samples: time_stamps = time_stamps[-max_samples:]` after `now` was appended. */
    method EvictOldTimestamps(ghost before: seq<int>, ghost now: int)
      requires timeStamps == before + [now]
      modifies this`timeStamps
      ensures timeStamps == Push(before, now, maxSamples)
    {
      if |timeStamps| > maxSamples {
        timeStamps := SliceFrom(timeStamps, -maxSamples);
      }
    }

    /** The redraw throttle: one tick of `update_counter` against `update_every_n`; the result says whether to redraw. */
    method AdvanceCounter() returns (redraw: bool)
      modifies this`updateCounter
      ensures Throttle.Tick(updateCounter, redraw) == Throttle.Advance(old(updateCounter), updateEveryN)
    {
      updateCounter := updateCounter + 1;
      redraw := false;
      if updateCounter >= updateEveryN {
        updateCounter := 0;
        redraw := true;
      }
    }

    /** After an accepted sample each live cursor's `update_position` emits `positionChanged`, which refreshes the label. */
    method RefreshCursors()
      modifies this`deltaLabel
      ensures deltaLabel == if cursor1.Some? || cursor2.Some? then DeltaT(cursor1, cursor2, timeStamps) else old(deltaLabel)
    {
      if cursor1.Some? || cursor2.Some? {
        UpdateTimeDifference();
      }
    }

    /** The lazy creation on the first sample: one empty buffer per field. */
    method CreateChannels(count: nat)
      requires channels == []
      modifies this`channels
      ensures channels == ChannelsFor([], count)
    {
      var k := 0;
      while k < count
        invariant 0 <= k <= count
        invariant |channels| == k && forall j :: 0 <= j < k ==> channels[j] == []
      {
        channels := channels + [[]];
        k := k + 1;
      }
    }

    /**
     * `for i, value in enumerate(values)`: each value goes to its channel,
     * which is then cut back to `maxSamples`. A value with no channel raises
     * IndexError, after every channel has already taken its value; the result
     * says whether the loop ran to the end.
     */
    method AppendToChannels(values: seq<V>) returns (complete: bool)
      modifies this`channels
      ensures complete <==> |values| <= |old(channels)|
      ensures channels == AppendValues(old(channels), values, maxSamples)
    {
      var i := 0;
      while i < |values|
        invariant 0 <= i <= |values| && i <= |old(channels)|
        invariant |channels| == |old(channels)|
        invariant forall j :: 0 <= j < |channels| ==>
          channels[j] == if j < i then Push(old(channels)[j], values[j], maxSamples) else old(channels)[j]
      {
        if i >= |channels| {
          // the IndexError of `y_data_channels[i]`, swallowed by the bare `except`
          return false;
        }
        var ch := channels[i] + [values[i]];
        if |ch| > maxSamples {
          ch := SliceFrom(ch, -maxSamples);
        }
        assert ch == Push(old(channels)[i], values[i], maxSamples);
        channels := channels[i := ch];
        i := i + 1;
      }
      return true;
    }

    /** After the first `i` lines of a drain from `start`, the state, the label and the redraw flag are those of `Drain`. */
    ghost predicate DrainedTo(start: EngineState<V>, shown: Delta, lines: seq<string>, clock: seq<int>, i: nat, redrawn: bool)
      reads this
      requires |clock| == |lines| && i <= |lines|
    {
      var d := Drain(start, shown, lines[..i], clock[..i], Config(), parseField, cursor1, cursor2);
      State() == d.0 && deltaLabel == d.2 && (redrawn <==> Accepted(true) in d.1)
    }

    /** Line `i` of a drain: the state, the label and the redraw flag move from the drain of `i` lines to that of `i + 1`. */
    method DrainLine(ghost start: EngineState<V>, ghost shown: Delta, lines: seq<string>, clock: seq<int>, i: nat,
                     redrawn: bool) returns (redrawnAfter: bool)
      requires |clock| == |lines| && i < |lines|
      requires DrainedTo(start, shown, lines, clock, i, redrawn)
      modifies this`timeStamps, this`channels, this`updateCounter, this`csvLog, this`deltaLabel
      ensures DrainedTo(start, shown, lines, clock, i + 1, redrawnAfter)
    {
      DrainStep(start, shown, lines, clock, Config(), parseField, cursor1, cursor2, i);
      var outcome := ProcessLine(lines[i], clock[i]);
      redrawnAfter := redrawn || outcome == Accepted(true);
    }

    /**
     * `update_plot`: nothing happens unless a session is reading from an open
     * port; otherwise the lines available in this tick are processed in order,
     * the i-th stamped `clock[i]`, and the result reports whether any of them
     * redrew the curves.
     */
    method UpdatePlot(lines: seq<string>, clock: seq<int>) returns (redrawn: bool)
      requires Valid() && |clock| == |lines|
      modifies this`timeStamps, this`channels, this`updateCounter, this`csvLog, this`deltaLabel
      ensures Valid()
      ensures !(old(reading) && old(serialOpen)) ==> State() == old(State()) && !redrawn
      ensures old(reading) && old(serialOpen) ==>
        var r := IngestAll(old(State()), lines, clock, Config(), parseField);
        State() == r.0 && (redrawn <==> Accepted(true) in r.1)
      ensures !(old(reading) && old(serialOpen)) ==> deltaLabel == old(deltaLabel)
      ensures old(reading) && old(serialOpen) ==>
        deltaLabel == Drain(old(State()), old(deltaLabel), lines, clock, Config(), parseField, cursor1, cursor2).2
    {
      redrawn := false;
      if !reading || !serialOpen {
        return;
      }
      ghost var start := State();
      ghost var shown := deltaLabel;
      var i := 0;
      while i < |lines|
        invariant 0 <= i <= |lines|
        invariant Valid()
        invariant DrainedTo(start, shown, lines, clock, i, redrawn)
      {
        redrawn := DrainLine(start, shown, lines, clock, i, redrawn);
        i := i + 1;
      }
      assert lines[..i] == lines && clock[..i] == clock;
      DrainAgrees(start, shown, lines, clock, Config(), parseField, cursor1, cursor2);
    }
  }
}
