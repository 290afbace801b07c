# Sensor monitor core in Dafny

`tool.py` is a PyQt desktop tool. It reads comma-separated sensor lines
(a laser distance followed by IMU readings) from four Arduino serial ports,
COM3 .. COM6. For each port it keeps bounded plot buffers. It logs every
accepted line together with the current 3×3 weight grid, and it saves the
log as a tab-separated text file. This project models the tool's core
without the widgets:

- `Reader`: the `SerialThread` reader with its `is_running` and `is_paused`
  flags. The serial device is an abstract queue of lines that are already
  decoded. `Reader.SerialThread` is a class whose methods update the flags
  and the queue in place. The functions `LoopBody` and `Loop` and the
  `*State` functions are the reference it is proved against.
- `Text`, `Fields`: Python's `split`/`join` and integer rendering, the
  per-field coercion of `handle_serial_data`, and the mapping from fields to
  the laser and IMU values.
- `Deque`: `deque(maxlen=cap)`. Appending to a full deque drops the oldest
  item. `Window` (the last `cap` items of the whole history) is the
  reference.
- `Acquisition`: the per-port buffers `data_x`, `data_y[metric]`,
  `laser_changes` and `prev_laser_values`, plus the log rows, as one
  value. `Ingest` is one call of `handle_serial_data`. `Expected` says what
  a port holds after any sequence of accepted samples. `ReplayFromInit`
  proves that the buffers always equal it, from start-up on.
- `Weights`: the grid `weight_a` and the edits made by the +, − and zero
  buttons and by the table, as functions on its value.
- `Persistence`: the text that `save` and `auto_save` write. The two are
  identical code, so there is one model.
- `Monitor.MyApp`: the application object's state, updated in place by its
  handlers. Each handler is proved against the function that defines it.

The capacity of the deques is a parameter (`cap`); the application uses
300. Numbers are `real`. A field that passes the source's test is a decimal
literal made of digits and at most one dot, so its value is exact. The
clock and the outcome of the file write are parameters. Lines that arrive
at a serial device are an argument of `SerialThread.Receive`.

## Model

| member | source | states |
|---|---|---|
| Reader.LoopBody | tool.py:23-29 | A paused thread reads nothing. An unpaused thread with input waiting takes the oldest line and emits it. With nothing waiting, nothing happens. The flags are never touched. |
| Reader.Loop | tool.py:20-29 | Any number of passes of the run loop leaves both flags as they were, and the lines already emitted stay at the front of the output. |
| Reader.LoopConserves | tool.py:20-29 | The run loop loses, repeats and reorders no line: the emitted lines followed by the lines still waiting are exactly the lines that were waiting. The loop never changes a flag. |
| Reader.LoopCount | tool.py:23-26 | A paused or stopped thread consumes no input however long it runs. An unpaused running thread emits one waiting line per pass. |
| Reader.ResumeDiscardsStale | tool.py:33-38 | Lines that arrive while the thread is paused are flushed by `resume`. Afterwards the loop emits only lines that arrived later, in their order. |
| Reader.StopEndsRun | tool.py:40-41 | After `stop`, the loop ends at once and emits nothing, whatever the pause flag and the buffer hold. Stopping twice is the same as stopping once. |
| Reader.PauseHolds | tool.py:33-38 | A paused thread stays put. `resume` leaves it unpaused with an empty buffer. |
| Reader.PauseState | tool.py:33-34 | `pause` sets the paused flag and keeps the running flag and the buffer. A pass of the loop over a paused state reads nothing and changes nothing. |
| Reader.ResumeState | tool.py:36-38 | `resume` empties the buffer and clears the paused flag, keeping the running flag. A pass of the loop right after it reads nothing. |
| Reader.StopState | tool.py:40-41 | `stop` clears the running flag and keeps the paused flag and the buffer. |
| Reader.Deliver | tool.py:27-28 | Lines arriving at the device queue behind the ones already waiting. The waiting lines keep their order, and the flags are unchanged. |
| Reader.SerialThread.constructor | tool.py:13-18 | A new thread records its port and baud rate. It starts running, not paused, with nothing waiting. |
| Reader.SerialThread.Receive | tool.py:27 | Lines that arrive at the device are queued after the ones already waiting. |
| Reader.SerialThread.Run | tool.py:20-29 | The loop's new state and output are exactly the reference `Loop`'s. The lines it emits, followed by those left waiting, are the lines that were waiting. |
| Reader.SerialThread.Pause | tool.py:33-34 | Sets the paused flag and nothing else. |
| Reader.SerialThread.Resume | tool.py:36-38 | Empties the input buffer, then clears the paused flag. The running flag is unchanged. |
| Reader.SerialThread.Stop | tool.py:40-41 | Clears the running flag and nothing else. |
| Text.Split | tool.py:198 | `str.split(',')` always yields at least one field, and no field contains the separator. |
| Text.JoinSplit | tool.py:351 | Joining the fields of a split with the same separator gives back the text. |
| Text.SplitJoin | tool.py:345-351 | Splitting a join of separator-free fields gives back the fields. |
| Text.DigitsValue | tool.py:325 | `int(s)` of a digit string is below 10^len(s). Leading zeros are allowed. |
| Text.NatToString | tool.py:328 | `str(n)` of n ≥ 0 is a non-empty digit string with no leading zero. |
| Text.IntToString | tool.py:282 | `str(i)` is never empty, and it is all digits exactly when `i >= 0`. |
| Text.NatToStringRoundTrip | tool.py:275 | `int(str(n)) == n` for every n ≥ 0: a weight cell's text reads back as its value. |
| Text.RemoveFirst | tool.py:204 | `replace('.', '', 1)` drops exactly one character when there is a dot, and nothing otherwise. |
| Fields.DigitsAroundDot | tool.py:204 | `x.replace('.', '', 1).isdigit()` holds exactly when x is a decimal literal: digits with at most one dot and at least one digit. This covers `ddd`, `ddd.ddd`, `.ddd` and `ddd.`. |
| Fields.Numeric | tool.py:204 | The field test holds exactly for the decimal literals, in both directions. |
| Fields.ToNum | tool.py:204 | `float(x)` of a field that passes the test is ≥ 0. A field without a dot is read as the integer its digits spell. |
| Fields.Coerce | tool.py:204 | Every coerced field is ≥ 0. Every field that is not a decimal literal is recorded as 0, e.g. "1a", ".", "1 " or "-1". |
| Fields.CoerceDecimal | tool.py:204 | A field `a.b` made of digit runs is recorded as a + b / 10^\|b\|. |
| Fields.CoerceInteger | tool.py:204 | A field of digits is recorded as the integer it spells. |
| Fields.CoerceNonDigitLead | tool.py:204 | A field that starts with a sign, a blank or a letter is recorded as 0, e.g. "-1.5", " 2" or "bad". |
| Fields.CoerceTwoDots | tool.py:204 | A field with a second dot is recorded as 0. |
| Fields.ParseLine | tool.py:198-206 | A line is rejected exactly when it has fewer than 4 comma fields. An accepted line keeps its arity, and every value is ≥ 0. |
| Fields.ToSample | tool.py:213-216 | The laser value is field 0. The last three fields are, in order, IMU[x], IMU[z] and IMU[y]. Fields in between are ignored. |
| Fields.LineToSample | tool.py:213-216 | Laser = f[0], IMU[x] = f[n-3], IMU[y] = f[n-1], IMU[z] = f[n-2], each coerced. |
| Deque.Push | tool.py:208-222 | `append` on a deque with `maxlen=cap`: the deque never exceeds cap, the new item is last, and below capacity nothing is dropped. |
| Deque.Window | tool.py:178 | The reference deque has min(history, cap) items. |
| Deque.WindowIsSuffix | tool.py:178 | The reference deque is the newest part of the history, in order. |
| Deque.PushWindow | tool.py:208-222 | Appending to the deque of a history gives the deque of the longer history: the oldest item is evicted first. |
| Deque.PushEvictsOldest | tool.py:178-187 | A full deque of capacity 2 drops its oldest item on the third append. |
| Acquisition.PortName | tool.py:139-144 | Port n is named "COM" followed by its digit. |
| Acquisition.WeightText | tool.py:255 | The weight snapshot is a bracketed list. |
| Acquisition.Init | tool.py:177-187 | At start-up every port has six empty deques and no previous laser value, and the log is empty. |
| Acquisition.Advance | tool.py:208-224 | An accepted sample keeps all six deques of its port equally long and within the capacity. It makes the sample's laser value the new previous value. |
| Acquisition.NextX | tool.py:208-211 | The next sequence number is 0 for an empty deque and one past the newest item otherwise. |
| Acquisition.LaserChange | tool.py:218-221 | The change is 0 without a previous laser value. Otherwise the previous value plus the change is the current value. |
| Acquisition.WithView | tool.py:208-224 | Updating one port's deques changes no other port's. |
| Acquisition.Accepted | tool.py:208-257 | An accepted sample advances exactly its own port and appends exactly one log row after the earlier ones. Every other port is untouched. |
| Acquisition.Ingest | tool.py:197-224 | A line with fewer than 4 fields changes nothing. Otherwise exactly one row (weight text, port, raw line) is appended to the log, and only the line's own port changes. The buffer invariant is kept. |
| Acquisition.IngestAccepted | tool.py:208-224 | Deque by deque: the sequence number is 0 or one past the newest. The four readings come from their fields. The change is 0 for a port's first sample and the exact difference afterwards. The previous laser value becomes the current one. |
| Acquisition.Replay | tool.py:193-224 | Handling any sequence of lines, one `handle_serial_data` call after another, keeps the buffer invariant: six equally long deques within the capacity for every port. |
| Acquisition.Arrivals | tool.py:193 | The lines a reader emits reach the handler as events in emission order, one per line, each tagged with the reader's port. |
| Acquisition.ArrivalsStep | tool.py:193 | Handing over one more line is exactly one more `handle_serial_data` call on the state the earlier lines left. |
| Acquisition.Expected | tool.py:178-224 | After k accepted samples a port holds min(k, cap) items in each deque, and it has a previous laser value exactly when k > 0. |
| Acquisition.AdvanceExpected | tool.py:208-224 | One more accepted sample takes the reference state of k samples to the reference state of k+1 samples. |
| Acquisition.ExpectedXs | tool.py:208-211 | The sequence numbers a port holds are consecutive and end at k−1, including after eviction. |
| Acquisition.ReplayFromInit | tool.py:177-257 | From start-up, after any sequence of lines, every port holds exactly the reference state of its accepted samples. The log holds one row per accepted line, in arrival order. |
| Weights.Index | tool.py:280 | `row*3+col` lies in 0..8 and gives back the row and the column. |
| Weights.CellAt | tool.py:280 | Each position 0..8 is the position of one cell. |
| Weights.IndexRoundTrip | tool.py:280 | Cell ↔ position is a bijection. |
| Weights.IndexInjective | tool.py:295 | Two cells share a position only when they are the same cell. |
| Weights.Adjust | tool.py:281-302 | + adds 20. − sets values below 4 to 0 and subtracts 20 from the rest, so 4..19 become negative. |
| Weights.StepsUndo | tool.py:270-304 | − undoes + exactly when the value is ≥ −16. + undoes − on values ≥ 4, and gives 20 on values that − clamps. |
| Weights.Adjusted | tool.py:270-304 | An empty selection changes nothing, and the + button never lowers a weight. |
| Weights.AdjustedFrame | tool.py:270-304 | A button press changes only the selected cells. |
| Weights.AdjustedSelected | tool.py:270-304 | When no cell is selected twice, each selected cell takes exactly one step. |
| Weights.Zeros | tool.py:306-314 | The zero button's grid has all nine weights 0. |
| Weights.CellEdit | tool.py:316-330 | An all-digit text becomes the cell's weight. Any other text leaves the grid unchanged, and the cell shows its weight again. No other cell changes. |
| Weights.ShownTextIsStable | tool.py:316-330 | Feeding a cell's shown text back to the handler changes nothing. |
| Persistence.AfterFirstComma | tool.py:351 | The text after the first comma is shorter than the line, or empty. |
| Persistence.LogContentIsAfterFirstComma | tool.py:345-351 | `",".join(split(raw)[1:])` (or "" when there is one field) is exactly the text after the first comma. |
| Persistence.LogContentChars | tool.py:345-351 | The content column holds no character that the raw line lacks. |
| Persistence.FileName | tool.py:335-336 | The file name is the timestamp followed by ".txt". |
| Persistence.LinesSnoc | tool.py:343-353 | Rows are written in row order, one line per row. |
| Persistence.FileTextSnoc | tool.py:338-353 | Writing one more row extends the file by exactly that row's line. |
| Persistence.RowColumns | tool.py:349-353 | When no field of the row holds a tab, the row line splits on tabs into the four header columns: time, weight, port, content. A raw line with a tab after its first comma gives the file extra columns. |
| Persistence.RowLineHasNoNewline | tool.py:353 | A row line contains no newline when none of its fields does. Tabs inside the fields do not matter. |
| Persistence.RowLines | tool.py:343-353 | There is one line per log row. |
| Persistence.LinesSplit | tool.py:342-353 | When no field holds a newline, the row part of the file splits on newlines into the rows' lines, in row order. Tabs inside the fields are allowed. |
| Persistence.FileLines | tool.py:338-353 | When no field holds a newline, the file is the header `Logged Time\t무게\t포트\t로그`, then one line per log row in row order, then nothing after the final newline. Raw lines with inner tabs are included. |
| Monitor.MyApp.constructor | tool.py:177-195 | Zero weights, empty deques for every port, no previous laser value and no log row. There are four fresh, distinct reader threads for COM3..COM6 at 9600 baud, running and not paused. |
| Monitor.MyApp.StopThreads | tool.py:261-264 | Every reader thread is paused, and nothing else about it changes. |
| Monitor.MyApp.RestartThreads | tool.py:266-268 | Every reader thread has its buffer flushed and is unpaused. |
| Monitor.MyApp.CloseThreads | tool.py:481-484 | Every reader thread is stopped, and nothing else about it changes. |
| Monitor.MyApp.HandleSerialData | tool.py:197-257 | The new buffers and log are exactly `Ingest` of the old ones with the current weight grid. The buffer invariant is kept. |
| Monitor.MyApp.Accept | tool.py:208-224 | The port's seven per-port entries change: its six deques and its previous laser value each get the advanced value. The log gains the row. |
| Monitor.MyApp.Pump | tool.py:193 | The reader thread of a port runs as the reference `Loop` says. Every line it emits is handled in emission order, so the buffers and the log become `Replay` of those lines under the current weight grid. |
| Monitor.MyApp.Feed | tool.py:193-257 | Handling a reader's lines one by one leaves the buffers and the log exactly as `Replay` of those lines does, and keeps the buffer invariant. |
| Monitor.MyApp.WeightP | tool.py:270-284 | The grid becomes `Adjusted(+)` of the selection, in selection order. Nothing else changes. |
| Monitor.MyApp.WeightM | tool.py:286-304 | The grid becomes `Adjusted(−)` of the selection, in selection order. Nothing else changes. |
| Monitor.MyApp.WeightZ | tool.py:306-314 | All nine weights become 0. Nothing else changes. |
| Monitor.MyApp.OnCellChanged | tool.py:316-330 | The grid and the shown text are exactly `CellEdit`'s. |
| Monitor.MyApp.Render | tool.py:338-353 | The text written is exactly `FileText` of the log rows with their timestamps. |
| Monitor.MyApp.Save | tool.py:332-361 | The file `stamp.txt` gets the rendered text. Its name is listed only when the write succeeds, and the log and buffers are unchanged. |

## Left out

- Qt widgets, layout, plots, the value table, axis ranges and the keyboard shortcuts (tool.py:63-176, 226-251, 411-479): presentation only.
- Opening the serial port, the `SerialException` path, `msleep`, the `data_received` signal and `wait()` are not modelled. These are I/O, scheduling and a foreign library. The device buffer is a queue of whole lines. A `readline` that times out on a partial line is not modelled.
- `SerialThread.resume` on a thread whose port never opened fails in the source with a missing `ser` attribute. The model flushes the abstract queue instead.
- UTF-8 decoding with `errors='ignore'` and `strip()`: lines arrive already decoded and stripped. Since `strip()` trims only the ends, a line may still hold inner tabs. The layout lemmas of `Persistence` therefore assume only that no field holds a newline.
- `Reader.SerialThread.Run`: it runs at most `fuel` passes of the unbounded loop. `fuel` stands for the time until another thread changes a flag. Concurrent flag changes during a pass are not modelled.
- `QCoreApplication.processEvents()` in `stop`, `wait()` in `SerialThread.stop` and `event.accept()` in `closeEvent` are not modelled: they are scheduling and UI.
- `datetime.now()`, `open`/`write` and the `QMessageBox` error path: the file stamp, the per-row times and whether the write succeeds are parameters. A partially written file is not modelled.
- IEEE float rounding: values are exact reals.
- Non-ASCII digits are not modelled; the model's digits are ASCII only. Python's `isdigit` also accepts them, with two behaviours:
  - Unicode decimal digits such as a full-width "３" or an Arabic-Indic "٣" are read by `float()` and `int()`. The source records 3.0 for such a field where the model records 0, and `onCellChanged` stores 3 where the model restores the old text.
  - Digits that are not decimal, such as a superscript "²", make `float()` or `int()` raise. `handle_serial_data` then drops the whole line (tool.py:205-206), and `onCellChanged` leaves both the weight and the cell's text as they are (tool.py:329-330). The model records 0 for such a field and restores the old text.
- `weightP` and `weightM` read the cell's text rather than `weight_a`. The model reads `weight_a`, on the ground that every path that sets a cell's text writes `str(weight_a[i])` or digits that `onCellChanged` stores. The `ValueError` branch at tool.py:283-284 and 303-304 is then unreachable.
- The `count` attribute that `weightZ` uses as a loop counter (tool.py:308-314) is a display detail.
- A `None` table item in `onCellChanged`, `save` and `auto_save` (tool.py:319-320, 344, 349-350) is not modelled. Every logged row has all three cells, and the weight table has all nine.
- `update_table` (tool.py:394-402) is dead code. `restart_arduino` (tool.py:404-409) is DTR toggling that is never called.
- LoadDataCheckTool.cpp is not part of this model. It is a UI mock-up with no data logic.
- Ports other than COM3..COM6 cannot occur, because the threads are created from the fixed `port_colors` table.
