/** The application object (`MyApp`) without its widgets: the per-port
    buffers, the log rows, the weight grid and the names of the files saved,
    updated in place by the handlers. Each handler is proved against the
    function that defines it in `Acquisition`, `Weights` or `Persistence`. */
module Monitor {
  import opened Wrappers
  import opened Text
  import opened Fields
  import opened Deque
  import opened Acquisition
  import opened Weights
  import opened Persistence
  import opened Reader

  class MyApp {
    /** The deque capacity, 300 in the application. */
    const cap: nat
    /** One reader per configured port, at 9600 baud. */
    const threads: seq<SerialThread>

    var dataX: map<Port, seq<int>>
    var dataY: map<Metric, map<Port, seq<real>>>
    var laserChanges: map<Port, seq<real>>
    var prevLaserValues: map<Port, Option<real>>
    var logging: seq<LogRow>
    var weightA: Grid
    /** The file names listed after each successful save. */
    var savedFiles: seq<string>

    /** The buffers and the log as one value. */
    function State(): Store
      reads this
    {
      Store(dataX, dataY, laserChanges, prevLaserValues, logging)
    }

    ghost predicate Valid()
      reads this
    {
      cap > 0 && Acquisition.Valid(State(), cap)
    }

    /** `__init__` and `startSerialThread`: zero weights, empty deques for
        every port, no previous laser value, no log row, and one reader
        thread per port. */
    constructor(capacity: nat)
      requires capacity > 0
      ensures Valid() && cap == capacity
      ensures State() == Init() && weightA == Zeros() && savedFiles == []
      ensures |threads| == 4
      ensures forall i :: 0 <= i < 4 ==>
        threads[i].port == PortName((i + 3) as Port) && threads[i].baudrate == 9600 &&
        fresh(threads[i]) && threads[i].State() == ReaderState(true, false, [])
      ensures DistinctThreads()
    {
      cap := capacity;
      var s := Init();
      dataX := s.dataX;
      dataY := s.dataY;
      laserChanges := s.laserChanges;
      prevLaserValues := s.prevLaserValues;
      logging := [];
      weightA := Zeros();
      savedFiles := [];
      var t3 := new SerialThread(PortName(3), 9600);
      var t4 := new SerialThread(PortName(4), 9600);
      var t5 := new SerialThread(PortName(5), 9600);
      var t6 := new SerialThread(PortName(6), 9600);
      threads := [t3, t4, t5, t6];
    }

    /** No reader thread is listed twice. */
    predicate DistinctThreads()
      reads this
    {
      forall i, j :: 0 <= i < j < |threads| ==> threads[i] != threads[j]
    }

    /** `stop`: every reader thread is paused; nothing else changes. */
    method StopThreads()
      requires DistinctThreads()
      modifies threads
      ensures forall i :: 0 <= i < |threads| ==> threads[i].State() == PauseState(old(threads[i].State()))
    {
      for k := 0 to |threads|
        invariant forall i :: 0 <= i < k ==> threads[i].State() == PauseState(old(threads[i].State()))
        invariant forall i :: k <= i < |threads| ==> threads[i].State() == old(threads[i].State())
      {
        threads[k].Pause();
      }
    }

    /** `restart`: every reader thread has its buffer flushed and is unpaused. */
    method RestartThreads()
      requires DistinctThreads()
      modifies threads
      ensures forall i :: 0 <= i < |threads| ==> threads[i].State() == ResumeState(old(threads[i].State()))
    {
      for k := 0 to |threads|
        invariant forall i :: 0 <= i < k ==> threads[i].State() == ResumeState(old(threads[i].State()))
        invariant forall i :: k <= i < |threads| ==> threads[i].State() == old(threads[i].State())
      {
        threads[k].Resume();
      }
    }

    /** `closeEvent`: every reader thread is stopped. */
    method CloseThreads()
      requires DistinctThreads()
      modifies threads
      ensures forall i :: 0 <= i < |threads| ==> threads[i].State() == StopState(old(threads[i].State()))
    {
      for k := 0 to |threads|
        invariant forall i :: 0 <= i < k ==> threads[i].State() == StopState(old(threads[i].State()))
        invariant forall i :: k <= i < |threads| ==> threads[i].State() == old(threads[i].State())
      {
        threads[k].Stop();
      }
    }

    /** `handle_serial_data(port, data)`. */
    method HandleSerialData(port: Port, data: string)
      requires Valid()
      modifies this`dataX, this`dataY, this`laserChanges, this`prevLaserValues, this`logging
      ensures Valid()
      ensures State() == Ingest(old(State()), cap, port, data, weightA)
    {
      var parsed := Split(data, ',');
      if |parsed| < 4 {
        return;
      }
      var sensor := seq(|parsed|, i requires 0 <= i < |parsed| => Coerce(parsed[i]));
      assert ParseLine(data) == Some(sensor);
      var row := LogRow(WeightText(weightA), PortName(port), data);
      ghost var s := State();
      AcceptedFields(s, cap, port, ToSample(sensor), row);
      Accept(port, sensor, row);
    }

    /** `data_received.connect(handle_serial_data)`: the reader thread of
        `port` runs for at most `fuel` passes, and every line it emits is
        handled, in the order emitted. */
    method Pump(port: Port, fuel: nat) returns (lines: seq<string>)
      requires Valid() && |threads| == 4 && threads[port as int - 3].port == PortName(port)
      modifies threads[port as int - 3]
      modifies this`dataX, this`dataY, this`laserChanges, this`prevLaserValues, this`logging
      ensures Valid()
      ensures var t := threads[port as int - 3];
        t.State() == Loop(old(t.State()), fuel, []).0 && lines == Loop(old(t.State()), fuel, []).1
      ensures State() == Replay(old(State()), cap, Arrivals(port, lines, weightA))
    {
      var t := threads[port as int - 3];
      lines := t.Run(fuel);
      Feed(port, lines);
    }

    /** The emitted lines reach `handle_serial_data` one by one, in order. */
    method Feed(port: Port, lines: seq<string>)
      requires Valid()
      modifies this`dataX, this`dataY, this`laserChanges, this`prevLaserValues, this`logging
      ensures Valid()
      ensures State() == Replay(old(State()), cap, Arrivals(port, lines, weightA))
    {
      ghost var s := State();
      for i := 0 to |lines|
        invariant Valid()
        invariant State() == Replay(s, cap, Arrivals(port, lines[..i], weightA))
      {
        ArrivalsStep(s, cap, port, lines, i, weightA);
        HandleSerialData(port, lines[i]);
      }
      assert lines[..|lines|] == lines;
    }

    /** The accepted branch of `handle_serial_data`: the port's six deques
        gain the sample, its previous laser value becomes the sample's, and
        the log gains `row`. */
    method Accept(port: Port, sensor: seq<real>, row: LogRow)
      requires WellFormed(State()) && Shaped(View(State(), port), cap) && |sensor| >= 4
      modifies this`dataX, this`dataY, this`laserChanges, this`prevLaserValues, this`logging
      ensures var v := Advance(View(old(State()), port), cap, ToSample(sensor));
        dataX == old(dataX)[port := v.xs] &&
        dataY == old(dataY)[Laser := old(dataY)[Laser][port := v.laser]][ImuX := old(dataY)[ImuX][port := v.imuX]]
          [ImuY := old(dataY)[ImuY][port := v.imuY]][ImuZ := old(dataY)[ImuZ][port := v.imuZ]] &&
        laserChanges == old(laserChanges)[port := v.changes] &&
        prevLaserValues == old(prevLaserValues)[port := v.prev] &&
        logging == old(logging) + [row]
    {
      var n := |sensor|;
      var xs := dataX[port];
      var x' := Push(xs, NextX(xs), cap);
      var laser' := Push(dataY[Laser][port], sensor[0], cap);
      var imuX' := Push(dataY[ImuX][port], sensor[n - 3], cap);
      var imuY' := Push(dataY[ImuY][port], sensor[n - 1], cap);
      var imuZ' := Push(dataY[ImuZ][port], sensor[n - 2], cap);
      var changes' := Push(laserChanges[port], LaserChange(prevLaserValues[port], sensor[0]), cap);
      var laser: map<Port, seq<real>> := dataY[Laser][port := laser'];
      var imuX: map<Port, seq<real>> := dataY[ImuX][port := imuX'];
      var imuY: map<Port, seq<real>> := dataY[ImuY][port := imuY'];
      var imuZ: map<Port, seq<real>> := dataY[ImuZ][port := imuZ'];
      dataX := dataX[port := x'];
      dataY := dataY[Laser := laser][ImuX := imuX][ImuY := imuY][ImuZ := imuZ];
      laserChanges := laserChanges[port := changes'];
      prevLaserValues := prevLaserValues[port := Some(sensor[0])];
      logging := logging + [row];
    }

    /** `weightP`: each selected cell, in selection order, gains 20. */
    method WeightP(selected: seq<Cell>)
      modifies this
      ensures weightA == Adjusted(old(weightA), selected, Plus)
      ensures State() == old(State()) && savedFiles == old(savedFiles)
    {
      for i := 0 to |selected|
        invariant weightA == Adjusted(old(weightA), selected[..i], Plus)
        invariant State() == old(State()) && savedFiles == old(savedFiles)
      {
        var index := Index(selected[i]);
        weightA := weightA[index := weightA[index] + 20];
        assert selected[..i + 1][..i] == selected[..i];
      }
      assert selected[..|selected|] == selected;
    }

    /** `weightM`: each selected cell, in selection order, becomes 0 when
        below 4 and loses 20 otherwise. */
    method WeightM(selected: seq<Cell>)
      modifies this
      ensures weightA == Adjusted(old(weightA), selected, Minus)
      ensures State() == old(State()) && savedFiles == old(savedFiles)
    {
      for i := 0 to |selected|
        invariant weightA == Adjusted(old(weightA), selected[..i], Minus)
        invariant State() == old(State()) && savedFiles == old(savedFiles)
      {
        var index := Index(selected[i]);
        if weightA[index] < 4 {
          weightA := weightA[index := 0];
        } else {
          weightA := weightA[index := weightA[index] - 20];
        }
        assert selected[..i + 1][..i] == selected[..i];
      }
      assert selected[..|selected|] == selected;
    }

    /** `weightZ`: all nine weights 0. */
    method WeightZ()
      modifies this
      ensures weightA == Zeros()
      ensures State() == old(State()) && savedFiles == old(savedFiles)
    {
      weightA := Zeros();
    }

    /** `onCellChanged(row, col)` with the text the cell now holds; returns
        the text the cell shows afterwards. */
    method OnCellChanged(cell: Cell, text: string) returns (shown: string)
      modifies this
      ensures (weightA, shown) == CellEdit(old(weightA), cell, text)
      ensures State() == old(State()) && savedFiles == old(savedFiles)
    {
      var index := Index(cell);
      if IsDigitString(text) {
        weightA := weightA[index := DigitsValue(text)];
        shown := text;
      } else {
        shown := IntToString(weightA[index]);
      }
    }

    /** The text `save` writes, one row after another; `times[i]` is the
        clock reading taken for row i. */
    method Render(times: seq<string>) returns (text: string)
      requires |times| == |logging|
      ensures text == FileText(logging, times)
    {
      var rows := logging;
      text := Header + "\n";
      assert text == FileText([], []);
      for row := 0 to |rows|
        invariant text == FileText(rows[..row], times[..row])
      {
        var done, stamps := rows[..row], times[..row];
        FileTextSnoc(done, stamps, rows[row], times[row]);
        assert rows[..row + 1] == done + [rows[row]];
        assert times[..row + 1] == stamps + [times[row]];
        text := text + RowLine(rows[row], times[row]) + "\n";
      }
      assert rows[..|rows|] == rows && times[..|times|] == times;
    }

    /** `save` / `auto_save`: the file `stamp.txt` gets the rendered text;
        when the write succeeds its name is listed, and when it fails
        nothing is listed. */
    method Save(stamp: string, times: seq<string>, writeOk: bool) returns (name: string, text: string)
      requires |times| == |logging|
      modifies this
      ensures State() == old(State()) && logging == old(logging) && weightA == old(weightA)
      ensures name == FileName(stamp) && text == FileText(logging, times)
      ensures savedFiles == old(savedFiles) + (if writeOk then [name] else [])
    {
      name := FileName(stamp);
      text := Render(times);
      if writeOk {
        savedFiles := savedFiles + [name];
      }
    }
  }
}
