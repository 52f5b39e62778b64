/**
 * The Node ingestion worker: until a SIGINT or SIGTERM sets `shuttingDown`,
 * it runs the ingest script as a child process, waits for it to exit, backs
 * off for min(60 s, interval) when the run failed, and then sleeps for
 * whatever is left of the interval unless shutdown was requested meanwhile.
 *
 * Time is an integer number of milliseconds (`Date.now()`). The environment
 * of each cycle is an input: how the ingest ended, how long it ran, and
 * whether a signal arrived before or after the loop's remaining-sleep check.
 * A finite sequence of such inputs drives the loop, so the model covers
 * every finite prefix of the worker's run.
 */
module NodeWorker {
  import opened Base

  /** `INTERVAL_SEC`: a positive whole number of seconds. */
  type Seconds = n: nat | n > 0 witness 1

  /** What `await runOnce()` gives: the exit code (None for `null`, a child killed by a signal), or a thrown error. */
  datatype RunResult = Exited(code: Option<int>) | Threw

  /**
   * The environment of one cycle. `signalBeforeCheck`: a signal arrives while
   * the ingest runs or during the backoff, so the remaining-sleep check sees
   * it. `signalAfterCheck`: one arrives after that check, during the
   * remaining sleep or before the next loop test.
   */
  datatype Cycle = Cycle(result: RunResult, runMs: nat, signalBeforeCheck: bool, signalAfterCheck: bool)

  /** One ingest invocation: when the child was started, when it exited, and whether the cycle failed. */
  datatype Run = Run(start: int, end: int, failed: bool)

  /** The flag, the clock and the invocations performed so far. */
  datatype WorkerState = WorkerState(now: int, shuttingDown: bool, runs: seq<Run>)

  /** `Math.min(60000, INTERVAL_SEC * 1000)`. */
  function BackoffMs(interval: Seconds): (ms: nat)
    ensures 0 < ms <= 60000 && ms <= interval * 1000
    ensures ms == 60000 || ms == interval * 1000
  {
    Min(60000, interval * 1000)
  }

  /** The longest delay `setTimeout` honours: 2^31 - 1 ms. */
  const MaxTimerDelay: int := 0x7FFF_FFFF

  /** How long `setTimeout(r, ms)` waits: a delay above the maximum, or below 1 ms, is replaced by 1 ms. */
  function TimerDelay(ms: int): (d: nat)
    ensures d >= 1
    ensures 1 <= ms <= MaxTimerDelay ==> d == ms
    ensures ms > MaxTimerDelay ==> d == 1
  {
    if 1 <= ms <= MaxTimerDelay then ms else 1
  }

  /** `code !== 0` (a `null` code included) or a caught error. */
  predicate Failed(r: RunResult)
  {
    r.Threw? || r.code != Some(0)
  }

  /** Time from a run's start to the remaining-sleep check: the run plus any backoff. */
  function CycleMs(interval: Seconds, run: Run): int
  {
    run.end - run.start + if run.failed then BackoffMs(interval) else 0
  }

  /** The remaining sleep after a cycle of `cycleMs` milliseconds, skipped when nothing remains. */
  function RemainingSleepMs(interval: Seconds, cycleMs: int): nat
  {
    var remaining := interval * 1000 - cycleMs;
    if remaining > 0 then TimerDelay(remaining) else 0
  }

  /** When the remaining sleep fits a timer, a cycle and its sleep together last max(interval, cycle). */
  lemma SleepCompletesInterval(interval: Seconds, cycleMs: int)
    requires interval * 1000 - cycleMs <= MaxTimerDelay
    ensures cycleMs + RemainingSleepMs(interval, cycleMs) == Max(interval * 1000, cycleMs)
  {
  }

  /** When the next run starts after `run`, unless a signal skipped the remaining sleep. */
  function NextStart(interval: Seconds, run: Run): int
  {
    run.start + CycleMs(interval, run) + RemainingSleepMs(interval, CycleMs(interval, run))
  }

  predicate Signalled(c: Cycle)
  {
    c.signalBeforeCheck || c.signalAfterCheck
  }

  /** One iteration of the `while (!shuttingDown)` body. */
  function Step(interval: Seconds, s: WorkerState, c: Cycle): WorkerState
  {
    var start := s.now;
    var exited := start + c.runMs;
    var failed := Failed(c.result);
    var afterBackoff := if failed then exited + TimerDelay(BackoffMs(interval)) else exited;
    var flag := s.shuttingDown || c.signalBeforeCheck;
    var remaining := interval * 1000 - (afterBackoff - start);
    var afterSleep := if remaining > 0 && !flag then afterBackoff + TimerDelay(remaining) else afterBackoff;
    WorkerState(afterSleep, flag || c.signalAfterCheck, s.runs + [Run(start, exited, failed)])
  }

  /** The loop: a cycle starts only while `shuttingDown` is false. */
  function Loop(interval: Seconds, s: WorkerState, cycles: seq<Cycle>): WorkerState
    decreases |cycles|
  {
    if s.shuttingDown || cycles == [] then s
    else Loop(interval, Step(interval, s, cycles[0]), cycles[1..])
  }

  /**
   * The timing of one cycle: a failure always waits out the backoff, a
   * signal seen at the check skips only the remaining sleep, and otherwise
   * the cycle lasts max(interval, run + backoff) as long as the remaining
   * sleep fits a timer.
   */
  lemma StepTiming(interval: Seconds, s: WorkerState, c: Cycle)
    ensures var r := Step(interval, s, c); var run := r.runs[|r.runs| - 1];
      && run == Run(s.now, s.now + c.runMs, Failed(c.result))
      && (Failed(c.result) ==> r.now >= run.end + BackoffMs(interval))
      && (!Failed(c.result) ==> r.now >= run.end)
      && (s.shuttingDown || c.signalBeforeCheck ==> r.now == s.now + CycleMs(interval, run))
      && (!s.shuttingDown && !c.signalBeforeCheck ==> r.now == NextStart(interval, run))
      && (!s.shuttingDown && !c.signalBeforeCheck && interval * 1000 - CycleMs(interval, run) <= MaxTimerDelay ==>
            r.now == s.now + Max(interval * 1000, CycleMs(interval, run)))
  {
    var run := Run(s.now, s.now + c.runMs, Failed(c.result));
    if interval * 1000 - CycleMs(interval, run) <= MaxTimerDelay {
      SleepCompletesInterval(interval, CycleMs(interval, run));
    }
  }

  /** A successful run shorter than the interval is followed by a sleep of exactly the rest of the interval. */
  lemma SuccessSleepsRest(interval: Seconds, s: WorkerState, c: Cycle)
    requires c.result == Exited(Some(0)) && c.runMs < interval * 1000
    requires interval * 1000 - c.runMs <= MaxTimerDelay
    requires !s.shuttingDown && !c.signalBeforeCheck
    ensures Step(interval, s, c).now == s.now + interval * 1000
    ensures Step(interval, s, c).now - (s.now + c.runMs) == interval * 1000 - c.runMs
  {
  }

  /**
   * With a 120 s interval an immediate failure backs off 60 s and then sleeps
   * the 60 s still left, so the next start is 120 s later, not 60 s.
   */
  lemma LongIntervalFailureWaitsInterval(s: WorkerState, c: Cycle)
    requires Failed(c.result) && c.runMs == 0
    requires !s.shuttingDown && !c.signalBeforeCheck
    ensures BackoffMs(120) == 60000
    ensures Step(120, s, c).now == s.now + 120000
  {
  }

  /**
   * An interval above 2147483 s overflows the timer: a quick successful run
   * is followed by a 1 ms sleep instead of the rest of the interval.
   */
  lemma OversizedIntervalSleepsOneMs(interval: Seconds, s: WorkerState, c: Cycle)
    requires interval * 1000 > MaxTimerDelay
    requires c.result == Exited(Some(0)) && c.runMs == 0
    requires !s.shuttingDown && !c.signalBeforeCheck
    ensures Step(interval, s, c).now == s.now + 1
  {
  }

  /** Equal spacing of the runs so far, and of the clock after the last one unless shutdown was requested. */
  ghost predicate Spaced(interval: Seconds, s: WorkerState)
  {
    && (forall k :: 0 <= k < |s.runs| ==> s.runs[k].start <= s.runs[k].end)
    && (forall k :: 0 <= k < |s.runs| - 1 ==>
          s.runs[k + 1].start == NextStart(interval, s.runs[k]))
    && (|s.runs| > 0 && !s.shuttingDown ==>
          s.now == NextStart(interval, s.runs[|s.runs| - 1]))
  }

  /** One cycle keeps the spacing. */
  lemma StepSpaced(interval: Seconds, s: WorkerState, c: Cycle)
    requires Spaced(interval, s) && !s.shuttingDown
    ensures Spaced(interval, Step(interval, s, c))
  {
    var next := Step(interval, s, c);
    if |s.runs| > 0 {
      assert next.runs[|s.runs|].start == s.now;
    }
  }

  /**
   * What the spacing means for two consecutive invocations: they never
   * overlap, a failed run is followed by at least the backoff, and when the
   * interval fits a timer they start max(interval, run + backoff) apart.
   */
  lemma SpacedGaps(interval: Seconds, s: WorkerState)
    requires Spaced(interval, s)
    ensures forall k :: 0 <= k < |s.runs| - 1 ==> s.runs[k].end <= s.runs[k + 1].start
    ensures forall k :: 0 <= k < |s.runs| - 1 ==>
        s.runs[k].failed ==> s.runs[k + 1].start - s.runs[k].end >= BackoffMs(interval)
    ensures forall k :: 0 <= k < |s.runs| - 1 ==>
        interval * 1000 <= MaxTimerDelay ==>
          s.runs[k + 1].start - s.runs[k].start == Max(interval * 1000, CycleMs(interval, s.runs[k])) &&
          s.runs[k + 1].start - s.runs[k].start >= interval * 1000
  {
    forall k | 0 <= k < |s.runs| - 1
      ensures && s.runs[k].end <= s.runs[k + 1].start
              && (s.runs[k].failed ==> s.runs[k + 1].start - s.runs[k].end >= BackoffMs(interval))
              && (interval * 1000 <= MaxTimerDelay ==>
                    s.runs[k + 1].start - s.runs[k].start == Max(interval * 1000, CycleMs(interval, s.runs[k])) &&
                    s.runs[k + 1].start - s.runs[k].start >= interval * 1000)
    {
      var cycle := CycleMs(interval, s.runs[k]);
      assert s.runs[k + 1].start == s.runs[k].end + (if s.runs[k].failed then BackoffMs(interval) else 0)
                                    + RemainingSleepMs(interval, cycle);
      if interval * 1000 <= MaxTimerDelay {
        SleepCompletesInterval(interval, cycle);
      }
    }
  }

  /** The loop keeps the spacing. */
  lemma {:induction false} LoopSpaced(interval: Seconds, s: WorkerState, cycles: seq<Cycle>)
    requires Spaced(interval, s)
    ensures Spaced(interval, Loop(interval, s, cycles))
    decreases |cycles|
  {
    if !s.shuttingDown && cycles != [] {
      StepSpaced(interval, s, cycles[0]);
      LoopSpaced(interval, Step(interval, s, cycles[0]), cycles[1..]);
    }
  }

  /**
   * From a fresh start, consecutive invocations never overlap, a failed run
   * is followed by at least the backoff, and, when the interval fits a timer
   * (at most 2147483 s), they start max(interval, run + backoff) apart.
   */
  lemma LoopGaps(interval: Seconds, now: int, cycles: seq<Cycle>)
    ensures var runs := Loop(interval, WorkerState(now, false, []), cycles).runs;
      forall k :: 0 <= k < |runs| - 1 ==>
        && runs[k + 1].start == NextStart(interval, runs[k])
        && runs[k].end <= runs[k + 1].start
        && (runs[k].failed ==> runs[k + 1].start - runs[k].end >= BackoffMs(interval))
        && (interval * 1000 <= MaxTimerDelay ==>
              runs[k + 1].start - runs[k].start == Max(interval * 1000, CycleMs(interval, runs[k])) &&
              runs[k + 1].start - runs[k].start >= interval * 1000)
  {
    var s := WorkerState(now, false, []);
    LoopSpaced(interval, s, cycles);
    SpacedGaps(interval, Loop(interval, s, cycles));
  }

  /**
   * The loop consumes the cycles in order, one invocation each, and stops
   * at the first cycle in which a signal arrives: no invocation starts after
   * a signal, the in-flight one completes, the loop stops early only on
   * shutdown, and the flag is never reset.
   */
  lemma {:induction false} LoopRuns(interval: Seconds, s: WorkerState, cycles: seq<Cycle>)
    ensures var r := Loop(interval, s, cycles); var n := |r.runs| - |s.runs|;
      && |s.runs| <= |r.runs| <= |s.runs| + |cycles|
      && r.runs[..|s.runs|] == s.runs
      && (s.shuttingDown ==> r == s)
      && (forall k :: 0 <= k < n ==>
            r.runs[|s.runs| + k].end - r.runs[|s.runs| + k].start == cycles[k].runMs &&
            r.runs[|s.runs| + k].failed == Failed(cycles[k].result))
      && (forall k :: 0 <= k < n - 1 ==> !Signalled(cycles[k]))
      && (!s.shuttingDown && cycles != [] ==> n > 0)
      && (n < |cycles| ==> r.shuttingDown)
      && (!s.shuttingDown && n > 0 ==> (r.shuttingDown <==> Signalled(cycles[n - 1])))
      && (s.shuttingDown ==> r.shuttingDown)
    decreases |cycles|
  {
    if !s.shuttingDown && cycles != [] {
      var next := Step(interval, s, cycles[0]);
      LoopRuns(interval, next, cycles[1..]);
      var r := Loop(interval, s, cycles);
      if next.shuttingDown || cycles[1..] == [] {
        assert r == next;
      }
      assert r.runs[..|next.runs|] == next.runs;
      assert r.runs[..|s.runs|] == next.runs[..|s.runs|];
      forall k | 1 <= k < |r.runs| - |s.runs|
        ensures r.runs[|s.runs| + k] == r.runs[|next.runs| + (k - 1)]
        ensures cycles[k] == cycles[1..][k - 1]
      {
      }
    }
  }

  /** The module state of the worker process. */
  class Worker {
    const interval: Seconds
    var shuttingDown: bool
    var now: int
    /** The invocations performed so far; an observation, not state of the program. */
    ghost var runs: seq<Run>

    ghost function State(): WorkerState
      reads this
    {
      WorkerState(now, shuttingDown, runs)
    }

    constructor (interval: Seconds, now: int)
      ensures this.interval == interval && State() == WorkerState(now, false, [])
    {
      this.interval := interval;
      this.now := now;
      shuttingDown := false;
      runs := [];
    }

    /** `onSignal`: the SIGINT and SIGTERM handler only ever sets the flag. */
    method OnSignal()
      modifies this
      ensures shuttingDown && now == old(now) && runs == old(runs)
    {
      shuttingDown := true;
    }

    /**
     * `await sleep(ms)`: the timer waits TimerDelay(ms), so a delay above
     * 2^31 - 1 ms lasts 1 ms. Signals are delivered only by the loop's
     * caller, so the flag is unchanged.
     */
    method Sleep(ms: int)
      modifies this
      ensures now == old(now) + TimerDelay(ms) && shuttingDown == old(shuttingDown) && runs == old(runs)
    {
      now := now + TimerDelay(ms);
    }

    /** `await runOnce()`: the child runs for `c.runMs` and the promise settles on its exit. */
    method RunOnce(c: Cycle) returns (result: RunResult)
      modifies this
      ensures result == c.result && now == old(now) + c.runMs && shuttingDown == old(shuttingDown)
      ensures runs == old(runs) + [Run(old(now), now, Failed(result))]
    {
      result := c.result;
      runs := runs + [Run(now, now + c.runMs, Failed(result))];
      now := now + c.runMs;
    }

    /** `main`: the loop, over the given cycle inputs. */
    method MainLoop(cycles: seq<Cycle>)
      modifies this
      ensures State() == Loop(interval, old(State()), cycles)
    {
      var i := 0;
      while !shuttingDown && i < |cycles|
        invariant 0 <= i <= |cycles|
        invariant Loop(interval, old(State()), cycles) == Loop(interval, State(), cycles[i..])
        decreases |cycles| - i
      {
        var c := cycles[i];
        var start := now;
        var result := RunOnce(c);
        match result {
          case Exited(code) =>
            if code != Some(0) {
              Sleep(BackoffMs(interval));
            }
          case Threw =>
            Sleep(BackoffMs(interval));
        }
        if c.signalBeforeCheck {
          OnSignal();
        }
        var elapsed := now - start;
        var remaining := interval * 1000 - elapsed;
        if remaining > 0 && !shuttingDown {
          Sleep(remaining);
        }
        if c.signalAfterCheck {
          OnSignal();
        }
        assert cycles[i..][1..] == cycles[i + 1..];
        i := i + 1;
      }
    }
  }
}
