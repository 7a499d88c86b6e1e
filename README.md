# Serial plotter acquisition, cursors and sessions in Dafny

This project models the logic inside the `SerialPlotter` window of the
serial plotter (`main.py`). A device streams comma-separated numeric lines
over a serial port. The window turns each line into one sample. It writes
the sample as a CSV row, keeps a bounded window of the newest samples per
channel, and redraws the curves once every `update_every_n` samples. The user
measures the time between two samples with two cursors placed by clicking.

The model has seven modules:

- `Wrappers`: the `Option` type that stands for a conversion that raises.
- `LineParser`: splitting a line on `,` and the all-or-nothing parse of its fields.
- `Window`: Python's `s[-m:]` slice and the append-then-evict step of a bounded buffer.
- `Throttle`: the redraw counter.
- `Cursors`: cursor resolution (`DraggableCursor.get_time` and the index guard
  of `update_position`), the Δt measurement and the placement cycle.
- `Acquisition`: one drained line as a function on values (`Ingest`), and a
  whole drain (`IngestAll`). This includes what the bare `except: continue`
  leaves behind when a line has more fields than there are channels.
- `Plotter`: the `SerialPlotter` class with the fields the source updates in
  place, and methods for `update_plot`, the cursor handlers, `start_plotting`,
  `stop_plotting` and the two settings boxes. Each method is proved against
  the functions above.

Timestamps are integer microseconds supplied with each line, standing in for
`datetime.now()`. Channel values have an abstract type `V`. Python's `float`
and `int` conversions are abstract functions `string -> Option<_>` given to
the constructor; `None` stands for the exception. The serial drain is a
sequence of already-stripped lines. The CSV file is an append-only sequence
of records.

The code writes no header row to the CSV file, so the model writes none.

## Model

| member | source | states |
|---|---|---|
| LineParser.Split | main.py:262 | `line.split(',')`: never empty, and no piece contains the separator |
| LineParser.JoinSplit | main.py:262 | joining the pieces with the separator gives back the line |
| LineParser.SplitJoin | main.py:262 | splitting a join of separator-free pieces gives back the pieces |
| LineParser.SplitPrefix | main.py:262 | a separator-free prefix merges into the first piece |
| LineParser.SplitTrailingSeparator | main.py:262 | a trailing comma adds exactly one empty field |
| LineParser.ParseAll | main.py:262 | the list comprehension of `float`: succeeds iff every field parses, keeping their number and order |
| LineParser.ParseLine | main.py:262 | a line parses iff every field of its split parses; one value per field, at least one field |
| LineParser.TrailingCommaRejected | main.py:262 | a line ending in `,` (such as `"1.0,"`) is rejected when the empty field does not parse |
| Window.SliceFrom | main.py:280 | Python `s[k:]` for any integer `k`, negative and zero included: a suffix of `s` with the length Python gives |
| Window.Push | main.py:276-283 | append, then cut back to `s[-m:]` when longer than `m`: with `m >= 1` the newest `min(|s|+1, m)` elements with the new one last; with `m == 0` the whole list is kept |
| Window.NewestAfterPush | main.py:276-283 | one eviction step does not change which newest `m` elements remain of everything that arrives afterwards |
| Window.PushAllKeepsNewest | main.py:276-283 | FIFO law: after any run of appends with capacity `m >= 1` the buffer is exactly the newest `m` elements in arrival order, even if the capacity was lowered beforehand |
| Throttle.Advance | main.py:285-290 | one tick redraws iff the incremented counter reaches the threshold, and then resets it to 0; with `n >= 1` the counter stays in `[0, n)` |
| Throttle.RunFiresEveryN | main.py:285-290 | with a fixed threshold `n >= 1`, after `k` ticks the counter is `(c+k) % n` and the number of redraws is `(c+k) / n` |
| Throttle.DivModNext | main.py:285-290 | one more tick wraps the remainder to 0 exactly when the quotient grows |
| Cursors.TimeAt | main.py:76-81 | `get_time` returns `timestamps[x]` iff `0 <= x < len(timestamps)`, else nothing |
| Cursors.Resolve | main.py:39-61 | `update_position` shows a cursor only inside the timeline; channel `i` gives a value iff `x < len(y_data)` |
| Cursors.DeltaT | main.py:332-342 | Δt is `|t2 - t1|` iff both cursors exist and both resolve, otherwise the distinct undefined value |
| Cursors.DeltaTSymmetric | main.py:332-342 | Δt does not depend on which cursor is the first |
| Cursors.Place | main.py:316-328 | no cursor gives cursor 1 at the clicked index; cursor 1 alone keeps its index and gains cursor 2 at the clicked index (also when both are equal); with both, they are reset and only a new cursor 1 is placed; the live count cycles 1, 2, 1, 2 |
| Cursors.ThirdClickRestarts | main.py:316-328 | three clicks leave only the third as cursor 1, and Δt is undefined |
| Cursors.CursorDriftsOnEviction | main.py:276-283 | a cursor is an index: when a full timeline evicts its oldest sample, index `x` resolves to the next newer timestamp |
| Acquisition.IngestEffect | main.py:257-299 | a line is skipped iff it is empty or a field does not parse, and then nothing changes; otherwise exactly one CSV row is written, the first sample fixes the channel count, a line with more fields than channels is overlong, and only accepted lines tick the throttle |
| Acquisition.IngestAll | main.py:257-299 | one outcome per drained line |
| Acquisition.ApplyCases | main.py:263-296 | a parsed sample with more values than channels keeps the timestamp unevicted and the counter as it was; otherwise the timestamp is evicted like a channel and the throttle ticks; in both cases the row is written and each channel with a value takes it |
| Acquisition.ParseFailureHasNoEffect | main.py:258-262 | a field that does not parse leaves timestamps, channels, counter and CSV log unchanged |
| Acquisition.IngestKeepsLockstep | main.py:265-283 | a sample of the established arity keeps timeline and channels the same length, writes one row, and bounds the timeline by `min(|old|+1, m)` |
| Acquisition.ConformingPrefix | main.py:265-283 | a drain whose accepted lines all have arity `k` has a prefix with the same property and a last line of arity `k` if accepted |
| Acquisition.DrainLockstepStep | main.py:265-283 | a conforming last line keeps the lockstep invariant the rest of the drain established |
| Acquisition.LockstepStep | main.py:265-283 | one more line of the established arity keeps the drain's lockstep invariant |
| Acquisition.LockstepThroughout | main.py:265-283 | over a drain where every accepted line has arity `k`: lockstep, `k` channels, nothing overlong, one row per accepted sample, no buffer past `m` |
| Acquisition.RunExtend | main.py:285-290 | one more outcome advances the throttle exactly when it is an accepted sample |
| Acquisition.ThrottleThroughout | main.py:285-290 | over a drain the counter and redraw count are those of as many ticks as accepted samples |
| Acquisition.RedrawsOncePerN | main.py:285-290 | a drain of `a` accepted samples redraws `(counter + a) / n` times and leaves `(counter + a) % n` |
| Acquisition.ShortLineLeavesTrailingChannels | main.py:277-283 | with room left in the window, a shorter line is accepted, leaves the last channel untouched and breaks lockstep |
| Acquisition.OverlongLineAppliesInPart | main.py:265-299 | for every state with channels and every line with more fields than channels: the CSV row is written, the timestamp appended with no eviction, each channel takes its value and is evicted, the counter does not tick |
| Acquisition.AllOverlongPrefix | main.py:276-299 | a drain of overlong lines has a prefix of overlong lines and an overlong last line |
| Acquisition.OverlongStep | main.py:276-299 | if the drain up to its last line appended every timestamp and kept channel count and counter, an overlong last line appends its own timestamp too and keeps both |
| Acquisition.OverlongLinesOutgrowCapacity | main.py:276-299 | a drain of overlong lines appends every timestamp, so the timeline grows by the number of lines, past `max_samples`, with channel count and counter unchanged |
| Acquisition.OverlongLineBreaksLockstep | main.py:265-299 | example with a full window of capacity 1: the line `"b,c"` writes its row, the channel takes `"b"`, the timeline holds two timestamps and lockstep breaks |
| Acquisition.IngestAllLast | main.py:257-299 | a drain ends with its last line applied to the state the rest of the drain left |
| Acquisition.IngestAllPrefix | main.py:257-299 | the outcomes of the first `j` drained lines are the first `j` outcomes of the whole drain |
| Acquisition.CountsOfLast | main.py:285-290 | the accepted and redraw counts of a drain with one more outcome |
| Plotter.SerialPlotter.constructor | main.py:84-113 | a fresh window has no data and no cursors, capacity 1000, a redraw every 10 samples, counter 0, and the label at Δt 0 |
| Plotter.SerialPlotter.GetData | main.py:305-306 | the indices `0 .. len(time_stamps)-1`, the channels and the timestamps |
| Plotter.SerialPlotter.UpdateTimeDifference | main.py:332-342 | the label becomes `DeltaT` of the current cursors and timeline |
| Plotter.SerialPlotter.ResetCursors | main.py:344-351 | both cursors removed and Δt undefined |
| Plotter.SerialPlotter.AddCursorOnClick | main.py:308-330 | a click outside the plot or before any data changes nothing; otherwise the cursors take the next `Place` step and the label shows their Δt |
| Plotter.SerialPlotter.DragCursor | main.py:35-70 | dragging a live cursor moves it and refreshes the label; the other cursor stays |
| Plotter.SerialPlotter.StartPlotting | main.py:201-237 | cursors always reset; buffers and CSV log cleared and reading started only when a port is selected, a file chosen and both open; a port opened before the file fails stays open; the counter and settings carry over |
| Plotter.SerialPlotter.StopPlotting | main.py:239-249 | reading stops, both handles dropped, the data kept, the label refreshed |
| Plotter.SerialPlotter.ChangeUpdateRate | main.py:487-492 | an integer sets the threshold; anything else keeps the old one |
| Plotter.SerialPlotter.ChangeMaxSamples | main.py:494-499 | an integer sets the capacity; anything else keeps the old one; the buffers are not touched |
| Plotter.SerialPlotter.ProcessLine | main.py:258-299 | the new state and outcome are `Ingest` of the old state; the label is refreshed after an accepted sample when a cursor exists |
| Plotter.SerialPlotter.AcceptSample | main.py:263-296 | after a successful parse the new state and outcome are `Apply` of the old state |
| Plotter.SerialPlotter.EvictOldTimestamps | main.py:282-283 | the timeline becomes `Push` of the old one |
| Plotter.SerialPlotter.AdvanceCounter | main.py:285-290 | the counter and the redraw flag are one `Advance` tick |
| Plotter.SerialPlotter.RefreshCursors | main.py:292-296 | with a live cursor the label shows the current Δt |
| Plotter.SerialPlotter.CreateChannels | main.py:267-269 | one empty buffer per field of the first sample |
| Plotter.SerialPlotter.AppendToChannels | main.py:277-280 | each value goes to its channel, cut back to the capacity; it completes iff there are at least as many channels as values, and otherwise every channel has already taken its value |
| Plotter.SerialPlotter.UpdatePlot | main.py:251-299 | nothing happens, the label included, unless reading from an open port; otherwise the state is `IngestAll` of the drained lines, the label is the one `Drain` carries to the end of the drained lines, and it reports a redraw iff some line redrew |
| Plotter.SerialPlotter.FinishAccepted | main.py:282-296 | after the timestamp of an accepted sample is appended: the timeline becomes `Push` of the old one, the throttle ticks once, and with a live cursor the label shows the current Δt |
| Plotter.SerialPlotter.DrainLine | main.py:257-299 | one pass of the read loop moves the state, the label and the redraw flag from the drain of the first `i` lines to that of the first `i + 1` |
| Plotter.DrainAgrees | main.py:257-299 | carrying the label along a drain does not change its state or outcomes: they are those of `IngestAll` |
| Plotter.DrainStep | main.py:257-299 | the drain of `i + 1` lines is the drain of `i` followed by line `i`, the label refreshed only by an accepted line while a cursor exists |
| Plotter.DrainLast | main.py:292-296 | the label after a drain is the label before its last line, refreshed by that line's outcome |
| Plotter.NoneAcceptedPrefix | main.py:292-296 | dropping the last outcome of a run with no accepted sample keeps that property |
| Plotter.DrainLabelUnrefreshed | main.py:292-296 | a drain with no cursor or with no accepted line leaves the Δt label as it was |
| Plotter.DrainLabelLastAccepted | main.py:292-296 | with a cursor present, the label after a drain is Δt on the timeline the last accepted line left; later skipped or overlong lines do not refresh it |

## Left out

- The Qt and pyqtgraph interface is not modelled: widget layout, curves and `setData`, the legend and curve visibility, `QApplication.processEvents` and the status label texts. `UpdatePlot` returns whether a redraw happened instead of calling `processEvents`.
- `QTimer` is not modelled. `UpdatePlot` is the body of one timer tick, guarded as the source guards it by `reading` and the serial handle.
- pyserial is not modelled: port listing, `serial.Serial`, `in_waiting` and `readline().decode(errors='ignore').strip()`. The drained lines are a parameter. The outer `try` around the drain (an error of the port itself) is not modelled.
- Whether a port or file opens, whether a port is selected and whether a file name is chosen are parameters of `StartPlotting`. The baud rate comes from a fixed list of integers, so its `int` conversion cannot fail and is not modelled. The handles are booleans: a port opened again without closing the old one is not visible.
- `float` and `int` parsing are abstract functions. Floating-point values are the abstract type `V`.
- `datetime.now()` becomes the integer microseconds given with each line. The `strftime` text of the CSV row and the cursor label are not modelled, and neither is the three-decimal formatting of Δt: the label holds the exact difference in microseconds.
- `DraggableCursor` drawing is not modelled: dots, HTML text and `max_y`. A cursor's line position is the integer index the source takes from it. The label writes made while a cursor is being created and moved are overwritten before the handler ends; only the final label is modelled.
- `load_csv_data`, `save_plot_image`, `open_plot_image`, `show_data_table` and `refresh_ports` are file dialogs, pandas and rendering. They are not part of this model.
- Window.PushAllKeepsNewest: stated only for a capacity `m >= 1`, because `s[-0:]` keeps the whole list; `Window.Push` states the `m == 0` case separately.
- Acquisition.LockstepThroughout: stated only when every accepted line has the arity of the first, because the source does not enforce it. `ShortLineLeavesTrailingChannels` and `OverlongLineBreaksLockstep` show what happens otherwise.
- Resolving a cursor twice with the same index and buffers gives the same result because `TimeAt` and `Resolve` are functions; there is no separate lemma for it.
