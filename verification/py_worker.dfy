/**
 * The Python ingestion worker: until SIGINT or SIGTERM sets the `shutdown`
 * event, it calls the ingest's `main` in-process, sleeps min(60, interval)
 * seconds when that raised, and then waits on the event for whatever is left
 * of the interval, a wait that a signal ends early.
 *
 * Time is an integer number of milliseconds (`time.time()`). As in the Node
 * worker, each cycle's environment is an input and a finite sequence of them
 * drives the loop. Unlike the Node worker the interval is any integer: a
 * negative one makes the backoff `time.sleep` raise inside the `except`
 * clause, and that exception leaves `run_loop`.
 */
module PyWorker {
  import opened Base

  /** How `ingest.main()` ended: it returned, or it raised an `Exception`. */
  datatype IngestResult = Returned | Raised

  /**
   * The environment of one cycle. `signalBeforeCheck`: a signal arrives while
   * `ingest.main()` runs or during the backoff sleep (which it does not cut
   * short). `signalAfterCheck`: the first signal after the remaining-wait
   * check arrives that many milliseconds after it, or at the end of the wait
   * when the wait is shorter.
   */
  datatype Cycle = Cycle(result: IngestResult, runMs: nat, signalBeforeCheck: bool, signalAfterCheck: Option<nat>)

  /** One call of `ingest.main()`: when it started and ended, and whether it raised. */
  datatype Run = Run(start: int, end: int, failed: bool)

  /** The event, the clock, the calls so far, and whether an exception has left `run_loop`. */
  datatype LoopState = LoopState(now: int, shutdown: bool, runs: seq<Run>, escaped: bool)

  /** `min(60, interval)`, in seconds. */
  function BackoffSeconds(interval: int): (sec: int)
    ensures sec <= 60 && sec <= interval
    ensures sec == 60 || sec == interval
  {
    Min(60, interval)
  }

  /** `time.sleep` refuses a negative duration with a `ValueError`. */
  predicate SleepRaises(seconds: int)
  {
    seconds < 0
  }

  /** How long `shutdown.wait(timeout=remaining)` blocks: until the timeout, or until a signal sets the event. */
  function WaitMs(remaining: nat, signal: Option<nat>): (ms: nat)
    ensures ms <= remaining
    ensures signal.None? ==> ms == remaining
    ensures signal.Some? ==> ms == Min(signal.value, remaining)
  {
    match signal
    case None => remaining
    case Some(t) => Min(t, remaining)
  }

  /** Time from a call's start to the remaining-wait check: the call plus any backoff. */
  function CycleMs(interval: int, run: Run): int
  {
    run.end - run.start + if run.failed then BackoffSeconds(interval) * 1000 else 0
  }

  predicate Signalled(c: Cycle)
  {
    c.signalBeforeCheck || c.signalAfterCheck.Some?
  }

  /** One iteration of the `while not shutdown.is_set()` body. */
  function Step(interval: int, s: LoopState, c: Cycle): LoopState
  {
    var start := s.now;
    var exited := start + c.runMs;
    var failed := c.result.Raised?;
    var run := Run(start, exited, failed);
    var flag := s.shutdown || c.signalBeforeCheck;
    if failed && SleepRaises(BackoffSeconds(interval)) then
      LoopState(exited, flag, s.runs + [run], true)
    else
      var afterBackoff := if failed then exited + BackoffSeconds(interval) * 1000 else exited;
      var remaining := interval * 1000 - (afterBackoff - start);
      var waited := if remaining > 0 && !flag then WaitMs(remaining, c.signalAfterCheck) else 0;
      LoopState(afterBackoff + waited, flag || c.signalAfterCheck.Some?, s.runs + [run], false)
  }

  /** `run_loop`: a cycle starts only while the event is clear and nothing has escaped. */
  function Loop(interval: int, s: LoopState, cycles: seq<Cycle>): LoopState
    decreases |cycles|
  {
    if s.shutdown || s.escaped || cycles == [] then s
    else Loop(interval, Step(interval, s, cycles[0]), cycles[1..])
  }

  /**
   * The timing of one cycle: a raising call is followed by the whole
   * backoff, a signal before the check skips the wait, a signal during the
   * wait ends it at once, and otherwise the cycle lasts
   * max(interval, call + backoff).
   */
  lemma StepTiming(interval: int, s: LoopState, c: Cycle)
    requires interval >= 0
    ensures var r := Step(interval, s, c); var run := r.runs[|r.runs| - 1];
      && run == Run(s.now, s.now + c.runMs, c.result.Raised?)
      && !r.escaped
      && (c.result.Raised? ==> r.now >= run.end + BackoffSeconds(interval) * 1000)
      && (s.shutdown || c.signalBeforeCheck ==> r.now == s.now + CycleMs(interval, run))
      && (!s.shutdown && !c.signalBeforeCheck && c.signalAfterCheck.None? ==>
            r.now == s.now + Max(interval * 1000, CycleMs(interval, run)))
      && (!s.shutdown && !c.signalBeforeCheck && c.signalAfterCheck.Some? ==>
            r.now == s.now + CycleMs(interval, run) + Min(c.signalAfterCheck.value, Max(0, interval * 1000 - CycleMs(interval, run))))
  {
  }

  /** A signal during the remaining wait ends the wait when it arrives, and no further call starts. */
  lemma SignalEndsWaitEarly(interval: int, s: LoopState, c: Cycle, rest: seq<Cycle>)
    requires !s.shutdown && !s.escaped && c.result == Returned && !c.signalBeforeCheck
    requires c.signalAfterCheck.Some? && c.signalAfterCheck.value < interval * 1000 - c.runMs
    ensures Step(interval, s, c).now == s.now + c.runMs + c.signalAfterCheck.value
    ensures Loop(interval, s, [c] + rest) == Step(interval, s, c)
  {
    assert ([c] + rest)[1..] == rest;
  }

  /**
   * With a 120 s interval a call that raises at once is followed by the 60 s
   * backoff and then the 60 s still left, so the next call starts 120 s later.
   */
  lemma LongIntervalFailureWaitsInterval(s: LoopState, c: Cycle)
    requires c.result == Raised && c.runMs == 0
    requires !s.shutdown && !c.signalBeforeCheck && c.signalAfterCheck.None?
    ensures BackoffSeconds(120) == 60
    ensures Step(120, s, c).now == s.now + 120000
  {
  }

  /** Equal spacing of the calls so far, and of the clock after the last one while the loop goes on. */
  ghost predicate Spaced(interval: int, s: LoopState)
  {
    && (forall k :: 0 <= k < |s.runs| ==> s.runs[k].start <= s.runs[k].end)
    && (forall k :: 0 <= k < |s.runs| - 1 ==>
          s.runs[k + 1].start == s.runs[k].start + Max(interval * 1000, CycleMs(interval, s.runs[k])))
    && (|s.runs| > 0 && !s.shutdown && !s.escaped ==>
          s.now == s.runs[|s.runs| - 1].start + Max(interval * 1000, CycleMs(interval, s.runs[|s.runs| - 1])))
  }

  /** One cycle keeps the spacing. */
  lemma StepSpaced(interval: int, s: LoopState, c: Cycle)
    requires interval >= 0 && Spaced(interval, s) && !s.shutdown && !s.escaped
    ensures Spaced(interval, Step(interval, s, c))
  {
    var next := Step(interval, s, c);
    var run := Run(s.now, s.now + c.runMs, c.result.Raised?);
    assert next.runs == s.runs + [run];
    assert !next.shutdown && !next.escaped ==> next.now == s.now + Max(interval * 1000, CycleMs(interval, run));
    if |s.runs| > 0 {
      assert next.runs[|s.runs|].start == s.now;
    }
  }

  /** What the spacing means for two consecutive calls. */
  lemma SpacedGaps(interval: int, s: LoopState)
    requires interval >= 0 && Spaced(interval, s)
    ensures forall k :: 0 <= k < |s.runs| - 1 ==>
        && s.runs[k].end <= s.runs[k + 1].start
        && s.runs[k + 1].start - s.runs[k].start >= interval * 1000
        && (s.runs[k].failed ==> s.runs[k + 1].start - s.runs[k].end >= BackoffSeconds(interval) * 1000)
  {
  }

  /** The loop keeps the spacing. */
  lemma {:induction false} LoopSpaced(interval: int, s: LoopState, cycles: seq<Cycle>)
    requires interval >= 0 && Spaced(interval, s)
    ensures Spaced(interval, Loop(interval, s, cycles))
    decreases |cycles|
  {
    if !s.shutdown && !s.escaped && cycles != [] {
      StepSpaced(interval, s, cycles[0]);
      LoopSpaced(interval, Step(interval, s, cycles[0]), cycles[1..]);
    }
  }

  /**
   * From a fresh start, consecutive calls start max(interval, call + backoff)
   * apart, so they never overlap, are at least the interval apart, and a
   * raising call is followed by at least the backoff.
   */
  lemma LoopGaps(interval: int, now: int, cycles: seq<Cycle>)
    requires interval >= 0
    ensures var runs := Loop(interval, LoopState(now, false, [], false), cycles).runs;
      forall k :: 0 <= k < |runs| - 1 ==>
        && runs[k + 1].start == runs[k].start + Max(interval * 1000, CycleMs(interval, runs[k]))
        && runs[k].end <= runs[k + 1].start
        && runs[k + 1].start - runs[k].start >= interval * 1000
        && (runs[k].failed ==> runs[k + 1].start - runs[k].end >= BackoffSeconds(interval) * 1000)
  {
    var s := LoopState(now, false, [], false);
    LoopSpaced(interval, s, cycles);
    SpacedGaps(interval, Loop(interval, s, cycles));
  }

  /** The loop makes one call per cycle, in order, and each call is recorded with its duration and outcome. */
  lemma {:induction false} LoopRuns(interval: int, s: LoopState, cycles: seq<Cycle>)
    requires !s.escaped
    ensures var r := Loop(interval, s, cycles); var n := |r.runs| - |s.runs|;
      && |s.runs| <= |r.runs| <= |s.runs| + |cycles|
      && r.runs[..|s.runs|] == s.runs
      && (s.shutdown ==> r == s)
      && (forall k :: 0 <= k < n ==>
            r.runs[|s.runs| + k].end - r.runs[|s.runs| + k].start == cycles[k].runMs &&
            r.runs[|s.runs| + k].failed == cycles[k].result.Raised?)
      && (!s.shutdown && cycles != [] ==> n > 0)
    decreases |cycles|
  {
    if !s.shutdown && cycles != [] {
      var next := Step(interval, s, cycles[0]);
      var r := Loop(interval, s, cycles);
      if next.escaped {
        assert r == next;
      } else {
        LoopRuns(interval, next, cycles[1..]);
        if next.shutdown || cycles[1..] == [] {
          assert r == next;
        }
        assert r.runs[..|next.runs|] == next.runs;
        assert r.runs[..|s.runs|] == next.runs[..|s.runs|];
        forall k | 1 <= k < |r.runs| - |s.runs|
          ensures r.runs[|s.runs| + k] == r.runs[|next.runs| + (k - 1)]
          ensures cycles[k] == cycles[1..][k - 1]
        {
        }
      }
    }
  }

  /**
   * The loop stops at the first cycle in which a signal arrives or an
   * exception escapes. An exception escapes only when the interval is
   * negative and the call raised; any other early stop is a shutdown.
   */
  lemma {:induction false} LoopStops(interval: int, s: LoopState, cycles: seq<Cycle>)
    requires !s.escaped
    ensures var r := Loop(interval, s, cycles); var n := |r.runs| - |s.runs|;
      && n <= |cycles|
      && (forall k :: 0 <= k < n - 1 ==> !Signalled(cycles[k]) && (cycles[k].result.Raised? ==> interval >= 0))
      && (n < |cycles| ==> r.shutdown || r.escaped)
      && (r.escaped <==> (!s.shutdown && n > 0 && interval < 0 && cycles[n - 1].result.Raised?))
      && (!s.shutdown && n > 0 && !r.escaped ==> (r.shutdown <==> Signalled(cycles[n - 1])))
      && (s.shutdown ==> r.shutdown)
    decreases |cycles|
  {
    LoopRuns(interval, s, cycles);
    if !s.shutdown && cycles != [] {
      var next := Step(interval, s, cycles[0]);
      var r := Loop(interval, s, cycles);
      if next.escaped {
        assert r == next;
      } else {
        LoopStops(interval, next, cycles[1..]);
        LoopRuns(interval, next, cycles[1..]);
        if next.shutdown || cycles[1..] == [] {
          assert r == next;
        }
        forall k | 1 <= k < |r.runs| - |s.runs|
          ensures cycles[k] == cycles[1..][k - 1]
        {
        }
      }
    }
  }

  /** With a non-negative interval no exception leaves `run_loop`: it returns only on shutdown or when the cycles run out. */
  lemma {:induction false} ExceptionsContained(interval: int, s: LoopState, cycles: seq<Cycle>)
    requires interval >= 0 && !s.escaped
    ensures !Loop(interval, s, cycles).escaped
    ensures var r := Loop(interval, s, cycles);
      r.shutdown || |r.runs| == |s.runs| + |cycles|
    decreases |cycles|
  {
    if !s.shutdown && cycles != [] {
      ExceptionsContained(interval, Step(interval, s, cycles[0]), cycles[1..]);
    }
  }

  /** With a negative interval the first call that raises takes the process down, whatever follows. */
  lemma NegativeIntervalFirstFailureEscapes(interval: int, s: LoopState, c: Cycle, rest: seq<Cycle>)
    requires interval < 0 && !s.shutdown && !s.escaped && c.result == Raised
    ensures Loop(interval, s, [c] + rest).escaped
    ensures Loop(interval, s, [c] + rest).runs == s.runs + [Run(s.now, s.now + c.runMs, true)]
    ensures ExitStatus(Loop(interval, s, [c] + rest)) == 1
  {
    assert ([c] + rest)[1..] == rest;
  }

  /** The process's exit status once `run_loop` is left: 1 for an uncaught exception, 0 after a normal return. */
  function ExitStatus(s: LoopState): (status: int)
    ensures status == 0 <==> !s.escaped
    ensures s.escaped ==> status == 1
  {
    if s.escaped then 1 else 0
  }

  /**
   * The worker process exits with a non-zero status exactly when the loop's
   * last call raised under a negative interval; every other way out of
   * `run_loop` returns normally.
   */
  lemma LoopExitStatus(interval: int, s: LoopState, cycles: seq<Cycle>)
    requires !s.escaped
    ensures var r := Loop(interval, s, cycles); var n := |r.runs| - |s.runs|;
      && 0 <= n <= |cycles|
      && (ExitStatus(r) != 0 <==> (!s.shutdown && n > 0 && interval < 0 && cycles[n - 1].result.Raised?))
  {
    LoopRuns(interval, s, cycles);
    LoopStops(interval, s, cycles);
  }

  /** The module state of the worker: the `shutdown` event and the clock. */
  class Worker {
    const interval: int
    var shutdown: bool
    var now: int
    /** The calls of `ingest.main()` so far; an observation, not state of the program. */
    ghost var runs: seq<Run>

    ghost function State(escaped: bool): LoopState
      reads this
    {
      LoopState(now, shutdown, runs, escaped)
    }

    constructor (interval: int, now: int)
      ensures this.interval == interval && State(false) == LoopState(now, false, [], false)
    {
      this.interval := interval;
      this.now := now;
      shutdown := false;
      runs := [];
    }

    /** `handle_signal`: sets the event and changes nothing else. */
    method HandleSignal()
      modifies this
      ensures shutdown && now == old(now) && runs == old(runs)
    {
      shutdown := true;
    }

    /** `time.sleep(seconds)`: raises for a negative duration, otherwise sleeps it out whatever signals arrive. */
    method Sleep(seconds: int) returns (raised: bool)
      modifies this
      ensures raised == SleepRaises(seconds)
      ensures now == old(now) + if raised then 0 else seconds * 1000
      ensures shutdown == old(shutdown) && runs == old(runs)
    {
      raised := seconds < 0;
      if !raised {
        now := now + seconds * 1000;
      }
    }

    /** `shutdown.wait(timeout=remaining)`: blocks until the timeout or until a signal sets the event. */
    method Wait(remaining: nat, signal: Option<nat>)
      modifies this
      ensures now == old(now) + WaitMs(remaining, signal) && runs == old(runs)
      ensures shutdown == (old(shutdown) || signal.Some?)
    {
      now := now + WaitMs(remaining, signal);
      if signal.Some? {
        HandleSignal();
      }
    }

    /** `ingest.main()`: runs for `c.runMs` and returns or raises. */
    method Ingest(c: Cycle) returns (result: IngestResult)
      modifies this
      ensures result == c.result && now == old(now) + c.runMs && shutdown == old(shutdown)
      ensures runs == old(runs) + [Run(old(now), now, result.Raised?)]
    {
      result := c.result;
      runs := runs + [Run(now, now + c.runMs, result.Raised?)];
      now := now + c.runMs;
    }

    /** `run_loop`, over the given cycle inputs; `escaped` tells whether an exception left it. */
    method RunLoop(cycles: seq<Cycle>) returns (escaped: bool)
      modifies this
      ensures State(escaped) == Loop(interval, old(State(false)), cycles)
    {
      escaped := false;
      var i := 0;
      while !shutdown && i < |cycles|
        invariant 0 <= i <= |cycles|
        invariant Loop(interval, old(State(false)), cycles) == Loop(interval, State(escaped), cycles[i..])
        invariant !escaped
        decreases |cycles| - i
      {
        var c := cycles[i];
        var start := now;
        var result := Ingest(c);
        if c.signalBeforeCheck {
          HandleSignal();
        }
        if result == Raised {
          var raised := Sleep(BackoffSeconds(interval));
          if raised {
            escaped := true;
            break;
          }
        }
        var remaining := interval * 1000 - (now - start);
        if remaining > 0 && !shutdown {
          Wait(remaining, c.signalAfterCheck);
        } else if c.signalAfterCheck.Some? {
          HandleSignal();
        }
        assert cycles[i..][1..] == cycles[i + 1..];
        i := i + 1;
      }
    }
  }
}
