/** The serial reader thread: its two flags, `is_running` and `is_paused`,
    and the device's input buffer, abstracted as a queue of lines already
    decoded and stripped. The functions are the reference; the class
    `SerialThread` changes its fields as the thread does. */
module Reader {
  import opened Wrappers

  /** The flags and the lines waiting in the input buffer, oldest first. */
  datatype ReaderState = ReaderState(running: bool, paused: bool, input: seq<string>)

  /** One pass of the `while self.is_running` body: a paused thread sleeps
      and reads nothing; otherwise a waiting line is read and emitted. */
  function LoopBody(r: ReaderState): (res: (ReaderState, Option<string>))
    ensures res.0.running == r.running && res.0.paused == r.paused
    ensures r.paused ==> res == (r, None)
    ensures !r.paused && |r.input| > 0 ==> res.1 == Some(r.input[0]) && res.0.input == r.input[1..]
    ensures !r.paused && |r.input| == 0 ==> res == (r, None)
  {
    if r.paused then (r, None)
    else if |r.input| > 0 then (r.(input := r.input[1..]), Some(r.input[0]))
    else (r, None)
  }

  /** The lines an optional line contributes. */
  function Emitted(e: Option<string>): seq<string>
  {
    if e.Some? then [e.value] else []
  }

  /** `run` for at most `fuel` passes of its loop, with the flags as they
      are: the final state, and `acc` followed by the lines emitted, in
      order. The real loop has no bound; `fuel` stands for the time until
      another thread changes a flag. */
  function Loop(r: ReaderState, fuel: nat, acc: seq<string>): (res: (ReaderState, seq<string>))
    ensures res.0.running == r.running && res.0.paused == r.paused
    ensures |acc| <= |res.1| && res.1[..|acc|] == acc
    decreases fuel
  {
    if !r.running || fuel == 0 then (r, acc)
    else
      var step := LoopBody(r);
      Loop(step.0, fuel - 1, acc + Emitted(step.1))
  }

  /** The loop loses, repeats and reorders nothing: what it emits followed
      by what is still waiting is what was waiting. It never touches a flag. */
  lemma {:induction false} LoopConserves(r: ReaderState, fuel: nat, acc: seq<string>)
    ensures Loop(r, fuel, acc).1 + Loop(r, fuel, acc).0.input == acc + r.input
    ensures Loop(r, fuel, acc).0.running == r.running && Loop(r, fuel, acc).0.paused == r.paused
    decreases fuel
  {
    if r.running && fuel > 0 {
      var step := LoopBody(r);
      var acc' := acc + Emitted(step.1);
      LoopConserves(step.0, fuel - 1, acc');
      assert acc' + step.0.input == acc + r.input by {
        if step.1.Some? {
          assert r.input == [step.1.value] + step.0.input;
        }
      }
    }
  }

  /** A paused or stopped thread reads nothing; a running one that is not
      paused reads one waiting line per pass. */
  lemma {:induction false} LoopCount(r: ReaderState, fuel: nat, acc: seq<string>)
    ensures r.paused || !r.running ==> Loop(r, fuel, acc) == (r, acc)
    ensures r.running && !r.paused ==>
      |Loop(r, fuel, acc).1| == |acc| + if fuel <= |r.input| then fuel else |r.input|
    decreases fuel
  {
    if r.running && fuel > 0 {
      var step := LoopBody(r);
      if r.paused {
        assert acc + Emitted(step.1) == acc;
      }
      LoopCount(step.0, fuel - 1, acc + Emitted(step.1));
    }
  }

  /** `pause`. */
  function PauseState(r: ReaderState): (s: ReaderState)
    ensures s.paused && s.running == r.running && s.input == r.input
    ensures LoopBody(s) == (s, None)
  {
    r.(paused := true)
  }

  /** `resume`: the input buffer is flushed, then the thread is unpaused. */
  function ResumeState(r: ReaderState): (s: ReaderState)
    ensures !s.paused && s.input == [] && s.running == r.running
    ensures LoopBody(s) == (s, None)
  {
    r.(input := [], paused := false)
  }

  /** `stop`. */
  function StopState(r: ReaderState): (s: ReaderState)
    ensures !s.running && s.paused == r.paused && s.input == r.input
  {
    r.(running := false)
  }

  /** Lines arriving at the device. */
  function Deliver(r: ReaderState, lines: seq<string>): (s: ReaderState)
    ensures s.running == r.running && s.paused == r.paused
    ensures |s.input| == |r.input| + |lines|
    ensures s.input[..|r.input|] == r.input && s.input[|r.input|..] == lines
  {
    r.(input := r.input + lines)
  }

  /** What arrives while the thread is paused is never emitted: after
      `resume`, the loop emits only lines that arrived after it, in order. */
  lemma ResumeDiscardsStale(r: ReaderState, stale: seq<string>, later: seq<string>, fuel: nat)
    ensures var out := Loop(Deliver(ResumeState(Deliver(PauseState(r), stale)), later), fuel, []).1;
      |out| <= |later| && out == later[..|out|]
  {
    var s := Deliver(ResumeState(Deliver(PauseState(r), stale)), later);
    assert s.input == later;
    LoopConserves(s, fuel, []);
  }

  /** After `stop` the loop ends at once, whatever the other flag and the
      buffer hold; stopping twice is stopping once. */
  lemma StopEndsRun(r: ReaderState, fuel: nat)
    ensures Loop(StopState(r), fuel, []) == (StopState(r), [])
    ensures StopState(StopState(r)) == StopState(r)
  {
  }

  /** A paused thread consumes nothing however long it runs, and `resume`
      leaves it unpaused with an empty buffer. */
  lemma PauseHolds(r: ReaderState, fuel: nat)
    ensures Loop(PauseState(r), fuel, []) == (PauseState(r), [])
    ensures ResumeState(PauseState(r)).input == [] && !ResumeState(PauseState(r)).paused
  {
    LoopCount(PauseState(r), fuel, []);
  }

  /** The thread object: the port it reads, the flags, and the device's
      waiting lines. */
  class SerialThread {
    const port: string
    const baudrate: int
    var isRunning: bool
    var isPaused: bool
    var input: seq<string>

    function State(): ReaderState
      reads this
    {
      ReaderState(isRunning, isPaused, input)
    }

    /** `SerialThread(port, baudrate)`: running, not paused, nothing waiting. */
    constructor(port: string, baudrate: int)
      ensures this.port == port && this.baudrate == baudrate
      ensures State() == ReaderState(true, false, [])
    {
      this.port := port;
      this.baudrate := baudrate;
      isRunning := true;
      isPaused := false;
      input := [];
    }

    /** Lines arrive at the device. */
    method Receive(lines: seq<string>)
      modifies this
      ensures State() == Deliver(old(State()), lines)
    {
      input := input + lines;
    }

    /** `run`, for at most `fuel` passes of its loop. */
    method Run(fuel: nat) returns (out: seq<string>)
      modifies this
      ensures State() == Loop(old(State()), fuel, []).0 && out == Loop(old(State()), fuel, []).1
      ensures out + input == old(input)
    {
      ghost var start := State();
      var n := fuel;
      out := [];
      while isRunning && n > 0
        invariant isRunning == start.running && isPaused == start.paused
        invariant Loop(State(), n, out) == Loop(start, fuel, [])
        decreases n
      {
        ghost var step := LoopBody(State());
        if isPaused {
          // sleeps 100 ms and tries again
          assert out + Emitted(step.1) == out;
        } else if |input| > 0 {
          var line := input[0];
          input := input[1..];
          out := out + [line];
        } else {
          assert out + Emitted(step.1) == out;
        }
        n := n - 1;
      }
      LoopConserves(start, fuel, []);
    }

    method Pause()
      modifies this
      ensures State() == PauseState(old(State()))
    {
      isPaused := true;
    }

    /** `resume`: `flushInput()`, then unpause. */
    method Resume()
      modifies this
      ensures State() == ResumeState(old(State()))
    {
      input := [];
      isPaused := false;
    }

    method Stop()
      modifies this
      ensures State() == StopState(old(State()))
    {
      isRunning := false;
    }
  }
}
