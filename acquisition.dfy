/** Line ingestion, second half: the per-port buffers that `handle_serial_data`
    appends to (`data_x`, `data_y[metric]`, `laser_changes`,
    `prev_laser_values`) and the log row it adds, as a function on their
    values. The class `Monitor.MyApp` performs the same update in place. */
module Acquisition {
  import opened Wrappers
  import opened Text
  import opened Fields
  import opened Deque

  /** The configured serial ports COM3 .. COM6, the keys of `port_colors`,
      fixed at start-up; a port is identified by its number. */
  newtype Port = n: int | 3 <= n <= 6 witness 3

  /** The port's device name, "COM3" .. "COM6". */
  function PortName(p: Port): (name: string)
    ensures |name| == 4 && name[..3] == "COM" && IsDigit(name[3])
    ensures DigitValue(name[3]) == p as int
  {
    "COM" + [DigitChar(p as int)]
  }

  /** The four plotted series, the keys "Laser", "IMU[x]", "IMU[y]" and
      "IMU[z]" of `data_y`. */
  datatype Metric = Laser | ImuX | ImuY | ImuZ

  function Value(smp: Sample, m: Metric): real
  {
    match m
    case Laser => smp.laser
    case ImuX => smp.imuX
    case ImuY => smp.imuY
    case ImuZ => smp.imuZ
  }

  /** One row of the log table: the weight grid as text, the port name and
      the raw line as received. */
  datatype LogRow = LogRow(weight: string, port: string, data: string)

  /** Python's `str(list)` of the weight grid: "[0, 20, -16]". */
  function WeightText(ws: seq<int>): (t: string)
    ensures |t| >= 2 && t[0] == '[' && t[|t| - 1] == ']'
  {
    "[" + Items(ws) + "]"
  }

  function Items(ws: seq<int>): string
  {
    if ws == [] then ""
    else if |ws| == 1 then IntToString(ws[0])
    else IntToString(ws[0]) + ", " + Items(ws[1..])
  }

  /** The buffers of the application, keyed as in the source. */
  datatype Store = Store(
    dataX: map<Port, seq<int>>,
    dataY: map<Metric, map<Port, seq<real>>>,
    laserChanges: map<Port, seq<real>>,
    prevLaserValues: map<Port, Option<real>>,
    logging: seq<LogRow>)

  /** Every port has an entry in every dictionary. */
  predicate WellFormed(s: Store) {
    Laser in s.dataY && ImuX in s.dataY && ImuY in s.dataY && ImuZ in s.dataY &&
    forall p: Port ::
      p in s.dataX && p in s.laserChanges && p in s.prevLaserValues &&
      p in s.dataY[Laser] && p in s.dataY[ImuX] && p in s.dataY[ImuY] && p in s.dataY[ImuZ]
  }

  /** Everything one port has: its six deques and its previous laser value. */
  datatype PortSeries = PortSeries(
    xs: seq<int>,
    laser: seq<real>, imuX: seq<real>, imuY: seq<real>, imuZ: seq<real>,
    changes: seq<real>,
    prev: Option<real>)

  function View(s: Store, p: Port): PortSeries
    requires WellFormed(s)
  {
    PortSeries(s.dataX[p], s.dataY[Laser][p], s.dataY[ImuX][p], s.dataY[ImuY][p],
      s.dataY[ImuZ][p], s.laserChanges[p], s.prevLaserValues[p])
  }

  /** The shape the deques of one port keep: all six of one length, at most
      the capacity. */
  predicate Shaped(v: PortSeries, cap: nat) {
    |v.xs| <= cap &&
    |v.laser| == |v.xs| && |v.imuX| == |v.xs| && |v.imuY| == |v.xs| &&
    |v.imuZ| == |v.xs| && |v.changes| == |v.xs|
  }

  predicate Valid(s: Store, cap: nat) {
    WellFormed(s) && forall p: Port :: Shaped(View(s, p), cap)
  }

  function Each<V>(v: V): (m: map<Port, V>)
    ensures forall p: Port :: p in m && m[p] == v
  {
    map[3 := v, 4 := v, 5 := v, 6 := v]
  }

  /** A port before its first accepted sample. */
  const Fresh := PortSeries([], [], [], [], [], [], None)

  /** The buffers as `startSerialThread` creates them: empty deques, no
      previous laser value, no log row. */
  function Init(): (s: Store)
    ensures WellFormed(s)
    ensures forall p: Port :: View(s, p) == Fresh
    ensures s.logging == []
  {
    var empty := Each([]);
    var dataY := map[Laser := empty, ImuX := empty, ImuY := empty, ImuZ := empty];
    Store(Each([]), dataY, Each([]), Each(None), [])
  }

  /** The accepted-sample update of one port: the next sequence number (0 for
      an empty deque, one past the newest otherwise), the four readings, the
      laser change against the previous laser value, and the new previous value. */
  function Advance(v: PortSeries, cap: nat, smp: Sample): (r: PortSeries)
    requires Shaped(v, cap)
    ensures Shaped(r, cap)
    ensures r.prev == Some(smp.laser)
  {
    var next := NextX(v.xs);
    PortSeries(Push(v.xs, next, cap),
      Push(v.laser, smp.laser, cap), Push(v.imuX, smp.imuX, cap),
      Push(v.imuY, smp.imuY, cap), Push(v.imuZ, smp.imuZ, cap),
      Push(v.changes, LaserChange(v.prev, smp.laser), cap), Some(smp.laser))
  }

  /** The sequence number of a port's next sample: 0 while its deque is
      empty, one past the newest otherwise. */
  function NextX(xs: seq<int>): (x: int)
    ensures |xs| == 0 ==> x == 0
    ensures |xs| > 0 ==> x - 1 == xs[|xs| - 1]
  {
    if |xs| == 0 then 0 else xs[|xs| - 1] + 1
  }

  /** The laser change of a sample: 0 when the port has no previous laser
      value, the exact difference to it otherwise. */
  function LaserChange(prev: Option<real>, laser: real): (d: real)
    ensures prev.None? ==> d == 0.0
    ensures prev.Some? ==> prev.value + d == laser
  {
    if prev.Some? then laser - prev.value else 0.0
  }

  /** The newest value of a series, if any. */
  function Last(ls: seq<real>): Option<real>
  {
    if |ls| == 0 then None else Some(ls[|ls| - 1])
  }

  /** Replace one port's entries and keep every other port's. */
  function WithView(s: Store, p: Port, v: PortSeries): (r: Store)
    requires WellFormed(s)
    ensures WellFormed(r) && View(r, p) == v && r.logging == s.logging
    ensures forall q :: q != p ==> View(r, q) == View(s, q)
  {
    var laser: map<Port, seq<real>> := s.dataY[Laser][p := v.laser];
    var imuX: map<Port, seq<real>> := s.dataY[ImuX][p := v.imuX];
    var imuY: map<Port, seq<real>> := s.dataY[ImuY][p := v.imuY];
    var imuZ: map<Port, seq<real>> := s.dataY[ImuZ][p := v.imuZ];
    Store(s.dataX[p := v.xs],
      s.dataY[Laser := laser][ImuX := imuX][ImuY := imuY][ImuZ := imuZ],
      s.laserChanges[p := v.changes], s.prevLaserValues[p := v.prev], s.logging)
  }

  /** An accepted sample on `port`: that port advances and the log gains
      `row`; every other port is as it was. */
  function Accepted(s: Store, cap: nat, port: Port, smp: Sample, row: LogRow): (r: Store)
    requires Valid(s, cap)
    ensures Valid(r, cap)
    ensures View(r, port) == Advance(View(s, port), cap, smp)
    ensures forall q :: q != port ==> View(r, q) == View(s, q)
    ensures r.logging == s.logging + [row]
  {
    var v := Advance(View(s, port), cap, smp);
    var r := WithView(s, port, v).(logging := s.logging + [row]);
    assert forall q: Port :: View(r, q) == View(WithView(s, port, v), q);
    r
  }

  /** `Accepted`, field by field: the port's entry of every dictionary is
      replaced by its advanced deque, and the row is appended to the log. */
  lemma AcceptedFields(s: Store, cap: nat, port: Port, smp: Sample, row: LogRow)
    requires Valid(s, cap)
    ensures var v := Advance(View(s, port), cap, smp);
      Accepted(s, cap, port, smp, row) == Store(
        s.dataX[port := v.xs],
        s.dataY[Laser := s.dataY[Laser][port := v.laser]][ImuX := s.dataY[ImuX][port := v.imuX]]
          [ImuY := s.dataY[ImuY][port := v.imuY]][ImuZ := s.dataY[ImuZ][port := v.imuZ]],
        s.laserChanges[port := v.changes], s.prevLaserValues[port := v.prev], s.logging + [row])
  {
  }

  /** `handle_serial_data(port, data)` with the weight grid `weights` at that
      moment. A line of fewer than four comma fields changes nothing; an
      accepted one advances only its own port and appends exactly one log row. */
  function Ingest(s: Store, cap: nat, port: Port, data: string, weights: seq<int>): (r: Store)
    requires Valid(s, cap)
    ensures Valid(r, cap)
    ensures |Split(data, ',')| < 4 ==> r == s
    ensures |Split(data, ',')| >= 4 ==>
      r.logging == s.logging + [LogRow(WeightText(weights), PortName(port), data)]
    ensures forall q :: q != port ==> View(r, q) == View(s, q)
  {
    match ParseLine(data)
    case None => s
    case Some(vals) =>
      Accepted(s, cap, port, ToSample(vals), LogRow(WeightText(weights), PortName(port), data))
  }

  /** What an accepted line does to its own port, deque by deque: each
      gains the new value at its end (evicting its oldest when full), the
      sequence number is 0 or one past the newest, the laser change is 0 for
      the first sample and the exact difference to the previous laser value
      afterwards, and the previous laser value becomes this sample's. Which
      field feeds which deque is `LineToSample`. */
  lemma IngestAccepted(s: Store, cap: nat, port: Port, data: string, weights: seq<int>)
    requires Valid(s, cap) && |Split(data, ',')| >= 4
    ensures ParseLine(data).Some?
    ensures var smp := ToSample(ParseLine(data).value);
      var o := View(s, port); var n := View(Ingest(s, cap, port, data, weights), port);
      n.xs == Push(o.xs, NextX(o.xs), cap) &&
      n.laser == Push(o.laser, smp.laser, cap) &&
      n.imuX == Push(o.imuX, smp.imuX, cap) &&
      n.imuY == Push(o.imuY, smp.imuY, cap) &&
      n.imuZ == Push(o.imuZ, smp.imuZ, cap) &&
      n.changes == Push(o.changes, LaserChange(o.prev, smp.laser), cap) &&
      n.prev == Some(smp.laser)
  {
    var vals := ParseLine(data).value;
    var row := LogRow(WeightText(weights), PortName(port), data);
    assert Ingest(s, cap, port, data, weights) == Accepted(s, cap, port, ToSample(vals), row);
  }

  /** Positions 0 .. n-1: the sequence numbers of n samples. */
  function Range(n: nat): (r: seq<int>)
    ensures |r| == n
  {
    seq(n, i => i)
  }

  /** One metric of each sample, in order. */
  function Column(ss: seq<Sample>, m: Metric): (c: seq<real>)
    ensures |c| == |ss|
  {
    seq(|ss|, i requires 0 <= i < |ss| => Value(ss[i], m))
  }

  /** Frame-to-frame change of a series: 0 first, then each value minus the one before. */
  function Deltas(ls: seq<real>): (d: seq<real>)
    ensures |d| == |ls|
  {
    seq(|ls|, i requires 0 <= i < |ls| => if i == 0 then 0.0 else ls[i] - ls[i - 1])
  }

  /** Reference definition of one port after the accepted samples `ss`, in
      order: every deque is the window of its full history, and the previous
      laser value is the last sample's. */
  function Expected(ss: seq<Sample>, cap: nat): (v: PortSeries)
    ensures Shaped(v, cap)
    ensures |v.xs| == if |ss| <= cap then |ss| else cap
    ensures v.prev.None? <==> |ss| == 0
  {
    var ls := Column(ss, Laser);
    PortSeries(Window(Range(|ss|), cap),
      Window(ls, cap), Window(Column(ss, ImuX), cap),
      Window(Column(ss, ImuY), cap), Window(Column(ss, ImuZ), cap),
      Window(Deltas(ls), cap),
      Last(ls))
  }

  /** One more accepted sample moves the reference state exactly as the
      update does. */
  lemma {:induction false} AdvanceExpected(ss: seq<Sample>, cap: nat, x: Sample)
    requires cap > 0
    ensures Advance(Expected(ss, cap), cap, x) == Expected(ss + [x], cap)
  {
    XsStep(ss, x, cap);
    SeriesStep(ss, x, cap);
    ChangesStep(ss, x, cap);
    PrevStep(ss, x, cap);
  }

  lemma XsStep(ss: seq<Sample>, x: Sample, cap: nat)
    requires cap > 0
    ensures Advance(Expected(ss, cap), cap, x).xs == Expected(ss + [x], cap).xs
  {
    var n := |ss|;
    var v := Expected(ss, cap);
    AdvanceXs(v, cap, x);
    SequenceStep(n, cap);
  }

  lemma AdvanceXs(v: PortSeries, cap: nat, smp: Sample)
    requires Shaped(v, cap)
    ensures Advance(v, cap, smp).xs
      == Push(v.xs, NextX(v.xs), cap)
  {
  }

  lemma SeriesStep(ss: seq<Sample>, x: Sample, cap: nat)
    ensures var a := Advance(Expected(ss, cap), cap, x); var e := Expected(ss + [x], cap);
      a.laser == e.laser && a.imuX == e.imuX && a.imuY == e.imuY && a.imuZ == e.imuZ
  {
    ColumnStep(ss, x, Laser, cap);
    ColumnStep(ss, x, ImuX, cap);
    ColumnStep(ss, x, ImuY, cap);
    ColumnStep(ss, x, ImuZ, cap);
  }

  lemma ChangesStep(ss: seq<Sample>, x: Sample, cap: nat)
    ensures Advance(Expected(ss, cap), cap, x).changes == Expected(ss + [x], cap).changes
  {
    var v := Expected(ss, cap);
    var ss' := ss + [x];
    var ls := Column(ss, Laser);
    var y := x.laser;
    ExpectedLaser(ss, cap);
    ExpectedLaser(ss', cap);
    AdvanceChanges(v, cap, x);
    LaserSnoc(ss, x);
    DeltaWindowStep(ls, y, cap);
  }

  lemma PrevStep(ss: seq<Sample>, x: Sample, cap: nat)
    ensures Advance(Expected(ss, cap), cap, x).prev == Expected(ss + [x], cap).prev
  {
    var ss' := ss + [x];
    ExpectedLaser(ss', cap);
    LaserSnoc(ss, x);
  }

  lemma ExpectedLaser(ss: seq<Sample>, cap: nat)
    ensures var v := Expected(ss, cap); var ls := Column(ss, Laser);
      v.changes == Window(Deltas(ls), cap) && v.prev == Last(ls)
  {
  }

  lemma AdvanceChanges(v: PortSeries, cap: nat, smp: Sample)
    requires Shaped(v, cap)
    ensures Advance(v, cap, smp).changes == Push(v.changes, LaserChange(v.prev, smp.laser), cap)
  {
  }

  /** The sequence numbers of the reference are the last ones of 0, 1, 2, ...:
      consecutive, ending at the number of accepted samples minus one. */
  lemma ExpectedXs(ss: seq<Sample>, cap: nat)
    ensures var xs := Expected(ss, cap).xs;
      forall i :: 0 <= i < |xs| ==> xs[i] == |ss| - |xs| + i
  {
    WindowIsSuffix(Range(|ss|), cap);
  }

  /** Appending the next sequence number to the window of 0 .. n-1 gives
      the window of 0 .. n. */
  lemma SequenceStep(n: nat, cap: nat)
    requires cap > 0
    ensures Push(Window(Range(n), cap), NextX(Window(Range(n), cap)), cap) == Window(Range(n + 1), cap)
  {
    var r := Range(n);
    NextOfWindow(n, cap);
    PushWindow(r, n, cap);
    assert r + [n] == Range(n + 1);
  }

  /** The next sequence number taken from the window of 0 .. n-1 is n. */
  lemma NextOfWindow(n: nat, cap: nat)
    requires cap > 0
    ensures NextX(Window(Range(n), cap)) == n
  {
    var r := Range(n);
    WindowIsSuffix(r, cap);
  }

  lemma ColumnStep(ss: seq<Sample>, x: Sample, m: Metric, cap: nat)
    ensures Push(Window(Column(ss, m), cap), Value(x, m), cap) == Window(Column(ss + [x], m), cap)
  {
    ColumnSnoc(ss, x, m);
    PushWindow(Column(ss, m), Value(x, m), cap);
  }

  lemma DeltaWindowStep(ls: seq<real>, y: real, cap: nat)
    ensures Push(Window(Deltas(ls), cap), LaserChange(Last(ls), y), cap) == Window(Deltas(ls + [y]), cap)
  {
    var c := LaserChange(Last(ls), y);
    var d := Deltas(ls);
    DeltasSnoc(ls, y);
    PushWindow(d, c, cap);
  }

  lemma LaserSnoc(ss: seq<Sample>, x: Sample)
    ensures Column(ss + [x], Laser) == Column(ss, Laser) + [x.laser]
  {
    ColumnSnoc(ss, x, Laser);
  }

  lemma ColumnSnoc(ss: seq<Sample>, x: Sample, m: Metric)
    ensures Column(ss + [x], m) == Column(ss, m) + [Value(x, m)]
  {
  }

  lemma DeltasSnoc(ls: seq<real>, y: real)
    ensures Deltas(ls + [y]) == Deltas(ls) + [LaserChange(Last(ls), y)]
  {
  }

  /** Lines as they reach `handle_serial_data`, each with the weight grid at
      that moment. */
  datatype Event = Event(port: Port, data: string, weights: seq<int>)

  /** The lines one reader thread hands over, in order, all under the same
      weight grid. */
  function Arrivals(port: Port, lines: seq<string>, weights: seq<int>): (evs: seq<Event>)
    ensures |evs| == |lines|
    ensures forall i :: 0 <= i < |evs| ==> evs[i] == Event(port, lines[i], weights)
  {
    seq(|lines|, i requires 0 <= i < |lines| => Event(port, lines[i], weights))
  }

  /** Handing over one more line is one more `Ingest`. */
  lemma ArrivalsStep(s: Store, cap: nat, port: Port, lines: seq<string>, i: nat, weights: seq<int>)
    requires Valid(s, cap) && i < |lines|
    ensures Replay(s, cap, Arrivals(port, lines[..i + 1], weights))
      == Ingest(Replay(s, cap, Arrivals(port, lines[..i], weights)), cap, port, lines[i], weights)
  {
    var next := Arrivals(port, lines[..i + 1], weights);
    assert next[..i] == Arrivals(port, lines[..i], weights);
  }

  function Replay(s: Store, cap: nat, evs: seq<Event>): (r: Store)
    requires Valid(s, cap)
    ensures Valid(r, cap)
    decreases |evs|
  {
    if evs == [] then s
    else
      var e := evs[|evs| - 1];
      Ingest(Replay(s, cap, evs[..|evs| - 1]), cap, e.port, e.data, e.weights)
  }

  /** The samples of the accepted lines of port `p`, in arrival order. */
  function AcceptedOn(evs: seq<Event>, p: Port): seq<Sample>
    decreases |evs|
  {
    if evs == [] then []
    else
      var e := evs[|evs| - 1];
      var earlier := AcceptedOn(evs[..|evs| - 1], p);
      match ParseLine(e.data)
      case Some(vals) => if e.port == p then earlier + [ToSample(vals)] else earlier
      case None => earlier
  }

  /** The log rows of the accepted lines of all ports, in arrival order. */
  function LogOf(evs: seq<Event>): seq<LogRow>
    decreases |evs|
  {
    if evs == [] then []
    else
      var e := evs[|evs| - 1];
      var earlier := LogOf(evs[..|evs| - 1]);
      if ParseLine(e.data).Some? then earlier + [LogRow(WeightText(e.weights), PortName(e.port), e.data)]
      else earlier
  }

  /** From the start-up state, any sequence of lines leaves each port exactly
      as the reference says: sequence numbers 0, 1, 2, ... over accepted lines
      only, every deque the last min(accepted, cap) values in order, the laser
      changes exact differences; and the log holds one row per accepted line
      of any port, in arrival order. */
  lemma {:induction false} ReplayFromInit(cap: nat, evs: seq<Event>)
    requires cap > 0
    ensures forall p: Port :: View(Replay(Init(), cap, evs), p) == Expected(AcceptedOn(evs, p), cap)
    ensures Replay(Init(), cap, evs).logging == LogOf(evs)
    decreases |evs|
  {
    if evs == [] {
      forall p: Port ensures View(Init(), p) == Expected([], cap) {
      }
    } else {
      var e := evs[|evs| - 1];
      var pre := evs[..|evs| - 1];
      ReplayFromInit(cap, pre);
      var s := Replay(Init(), cap, pre);
      match ParseLine(e.data)
      case None =>
      case Some(vals) =>
        AdvanceExpected(AcceptedOn(pre, e.port), cap, ToSample(vals));
    }
  }
}
