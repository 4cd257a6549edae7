/**
 * The reusable timers of TimePatterns: accumulators that add each frame's
 * delta and fire (resetting to zero) once a threshold is reached, a frame
 * counter that fires every frameInterval-th frame, and an event timer whose
 * start and stop guard a single running coroutine.
 */
module TimePatterns {
  import opened Wrappers

  /** The accumulator after one tick, and whether the tick fired. */
  datatype TickResult = TickResult(elapsed: real, fired: bool)

  /**
   * One tick of an accumulator (Timer.Tick, TimerSO.Tick,
   * TimeAccumulatorTimer.Update): the delta is added; reaching the threshold
   * fires and resets to exactly zero, dropping any overshoot.
   */
  function TickStep(elapsed: real, threshold: real, delta: real): (r: TickResult)
    ensures r.fired <==> elapsed + delta >= threshold
    ensures r.fired ==> r.elapsed == 0.0
    ensures !r.fired ==> r.elapsed == elapsed + delta
    ensures r.elapsed == 0.0 || r.elapsed < threshold
  {
    var e := elapsed + delta;
    if e >= threshold then TickResult(0.0, true) else TickResult(e, false)
  }

  /** With a threshold of zero or less, a tick with a non-negative delta from a non-negative accumulator always fires. */
  lemma NonPositiveThresholdAlwaysFires(elapsed: real, threshold: real, delta: real)
    requires threshold <= 0.0 && elapsed >= 0.0 && delta >= 0.0
    ensures TickStep(elapsed, threshold, delta) == TickResult(0.0, true)
  {
  }

  function SumOf(ds: seq<real>): real {
    if ds == [] then 0.0 else SumOf(ds[..|ds| - 1]) + ds[|ds| - 1]
  }

  /** The accumulator after ticking with each delta of ds in turn. */
  function RunElapsed(elapsed: real, threshold: real, ds: seq<real>): real {
    if ds == [] then elapsed
    else TickStep(RunElapsed(elapsed, threshold, ds[..|ds| - 1]), threshold, ds[|ds| - 1]).elapsed
  }

  /** Whether tick k of the run fires. */
  predicate FiresAt(elapsed: real, threshold: real, ds: seq<real>, k: nat)
    requires k < |ds|
  {
    TickStep(RunElapsed(elapsed, threshold, ds[..k]), threshold, ds[k]).fired
  }

  /**
   * Until the first firing tick the accumulator is the start value plus the
   * sum of the deltas, and tick k is the first to fire exactly when that
   * running total reaches the threshold.
   */
  lemma {:induction false} AccumulatesUntilFire(elapsed: real, threshold: real, ds: seq<real>)
    requires forall k :: 0 <= k < |ds| ==> !FiresAt(elapsed, threshold, ds, k)
    ensures RunElapsed(elapsed, threshold, ds) == elapsed + SumOf(ds)
  {
    if ds != [] {
      var n := |ds| - 1;
      var init := ds[..n];
      forall k | 0 <= k < |init| ensures !FiresAt(elapsed, threshold, init, k) {
        assert init[..k] == ds[..k] && init[k] == ds[k];
        assert !FiresAt(elapsed, threshold, ds, k);
      }
      AccumulatesUntilFire(elapsed, threshold, init);
      assert ds[..n] == init;
      assert !FiresAt(elapsed, threshold, ds, n);
    }
  }

  /** The first tick that fires is the first at which the start value plus the deltas so far reaches the threshold. */
  lemma FirstFire(elapsed: real, threshold: real, ds: seq<real>, k: nat)
    requires k < |ds|
    requires forall j :: 0 <= j < k ==> !FiresAt(elapsed, threshold, ds, j)
    ensures FiresAt(elapsed, threshold, ds, k) <==> elapsed + SumOf(ds[..k + 1]) >= threshold
  {
    var pre := ds[..k];
    forall j | 0 <= j < |pre| ensures !FiresAt(elapsed, threshold, pre, j) {
      assert pre[..j] == ds[..j] && pre[j] == ds[j];
      assert !FiresAt(elapsed, threshold, ds, j);
    }
    AccumulatesUntilFire(elapsed, threshold, pre);
    assert ds[..k + 1][..k] == pre;
  }

  /** One Update of FrameBasedTimer: count the frame; reaching the interval fires and resets the count. */
  function FrameStep(frameCount: int, frameInterval: int): (r: (int, bool))
    ensures r.1 <==> frameCount + 1 >= frameInterval
    ensures r.0 == if r.1 then 0 else frameCount + 1
  {
    if frameCount + 1 >= frameInterval then (0, true) else (frameCount + 1, false)
  }

  /** The frame count after n Updates from zero. */
  function FramesRun(frameInterval: int, n: nat): int {
    if n == 0 then 0 else FrameStep(FramesRun(frameInterval, n - 1), frameInterval).0
  }

  /** Whether Update number n (counting from 1) fires. */
  predicate FrameFires(frameInterval: int, n: nat)
    requires n >= 1
  {
    FrameStep(FramesRun(frameInterval, n - 1), frameInterval).1
  }

  /** With frameInterval >= 1 the count stays in [0, frameInterval), and an Update fires exactly when it brings the count back to zero. */
  lemma {:induction false} FrameCountBounded(frameInterval: int, n: nat)
    requires frameInterval >= 1
    ensures 0 <= FramesRun(frameInterval, n) < frameInterval
    ensures n >= 1 ==> (FrameFires(frameInterval, n) <==> FramesRun(frameInterval, n) == 0)
  {
    if n > 0 {
      FrameCountBounded(frameInterval, n - 1);
    }
  }

  /** The first frameInterval - 1 Updates only count, and Update number frameInterval fires. */
  lemma {:induction false} FirstFrameFire(frameInterval: int, n: nat)
    requires frameInterval >= 1 && n <= frameInterval
    ensures n < frameInterval ==> FramesRun(frameInterval, n) == n
    ensures 1 <= n < frameInterval ==> !FrameFires(frameInterval, n)
    ensures n == frameInterval ==> FrameFires(frameInterval, n) && FramesRun(frameInterval, n) == 0
  {
    if n > 0 {
      FirstFrameFire(frameInterval, n - 1);
    }
  }

  /** The timer repeats with period frameInterval: Update n + frameInterval behaves as Update n. */
  lemma {:induction false} FrameTimerPeriodic(frameInterval: int, n: nat)
    requires frameInterval >= 1
    ensures FramesRun(frameInterval, n + frameInterval) == FramesRun(frameInterval, n)
    ensures n >= 1 ==> FrameFires(frameInterval, n + frameInterval) == FrameFires(frameInterval, n)
  {
    if n == 0 {
      FirstFrameFire(frameInterval, frameInterval);
    } else {
      FrameTimerPeriodic(frameInterval, n - 1);
      assert n - 1 + frameInterval == n + frameInterval - 1;
    }
  }

  /** With frameInterval <= 1 every Update fires. */
  lemma EveryFrameFires(frameInterval: int, n: nat)
    requires frameInterval <= 1 && n >= 1
    ensures FramesRun(frameInterval, n) == 0 && FrameFires(frameInterval, n)
  {
    if n > 1 {
      EveryFrameFires(frameInterval, n - 1);
    }
  }

  /** Timer: a reusable accumulator ticked by its owner. */
  class Timer {
    var elapsed: real
    const duration: real

    constructor (duration: real)
      ensures elapsed == 0.0 && this.duration == duration
    {
      elapsed := 0.0;
      this.duration := duration;
    }

    /** Tick: true when the tick reaches the duration. */
    method Tick(deltaTime: real) returns (fired: bool)
      modifies this`elapsed
      ensures TickResult(elapsed, fired) == TickStep(old(elapsed), duration, deltaTime)
      ensures elapsed == 0.0 || elapsed < duration
    {
      elapsed := elapsed + deltaTime;
      if elapsed >= duration {
        elapsed := 0.0;
        return true;
      }
      return false;
    }

    method Reset()
      modifies this`elapsed
      ensures elapsed == 0.0
    {
      elapsed := 0.0;
    }
  }

  /** TimerSO: the same accumulator as an asset, with an editable interval. */
  class TimerSO {
    var interval: real
    var elapsed: real

    constructor ()
      ensures interval == 1.0 && elapsed == 0.0
    {
      interval := 1.0;
      elapsed := 0.0;
    }

    method Tick(deltaTime: real) returns (fired: bool)
      modifies this`elapsed
      ensures TickResult(elapsed, fired) == TickStep(old(elapsed), interval, deltaTime)
      ensures elapsed == 0.0 || elapsed < interval
    {
      elapsed := elapsed + deltaTime;
      if elapsed >= interval {
        elapsed := 0.0;
        return true;
      }
      return false;
    }

    method Reset()
      modifies this`elapsed
      ensures elapsed == 0.0
    {
      elapsed := 0.0;
    }
  }

  /** TimeAccumulatorTimer: the accumulator driven by Update with the frame's delta; the trigger is its log line. */
  class TimeAccumulatorTimer {
    var interval: real
    var timer: real

    constructor ()
      ensures interval == 1.0 && timer == 0.0
    {
      interval := 1.0;
      timer := 0.0;
    }

    method Update(deltaTime: real) returns (triggered: bool)
      modifies this`timer
      ensures TickResult(timer, triggered) == TickStep(old(timer), interval, deltaTime)
    {
      timer := timer + deltaTime;
      triggered := false;
      if timer >= interval {
        triggered := true;
        timer := 0.0;
      }
    }
  }

  /** FrameBasedTimer: fires every frameInterval-th Update. */
  class FrameBasedTimer {
    var frameInterval: int
    var frameCount: int

    constructor ()
      ensures frameInterval == 30 && frameCount == 0
    {
      frameInterval := 30;
      frameCount := 0;
    }

    method Update() returns (triggered: bool)
      modifies this`frameCount
      ensures (frameCount, triggered) == FrameStep(old(frameCount), frameInterval)
      ensures frameInterval >= 1 && 0 <= old(frameCount) ==> 0 <= frameCount < frameInterval
    {
      frameCount := frameCount + 1;
      triggered := false;
      if frameCount >= frameInterval {
        triggered := true;
        frameCount := 0;
      }
    }
  }

  /**
   * EventTimer: StartTimer starts the timer coroutine only when none is
   * held; StopTimer stops the held one and forgets it. The coroutine's
   * handle is supplied by the caller (StartCoroutine's result).
   */
  class EventTimer {
    var timerRoutine: Option<nat>
    /** The coroutines started and stopped, in order. */
    var started: seq<nat>
    var stopped: seq<nat>

    constructor ()
      ensures timerRoutine == None && started == [] && stopped == []
    {
      timerRoutine := None;
      started := [];
      stopped := [];
    }

    method StartTimer(newRoutine: nat)
      modifies this`timerRoutine, this`started
      ensures old(timerRoutine).Some? ==> timerRoutine == old(timerRoutine) && started == old(started)
      ensures old(timerRoutine).None? ==> timerRoutine == Some(newRoutine) && started == old(started) + [newRoutine]
    {
      if timerRoutine.None? {
        timerRoutine := Some(newRoutine);
        started := started + [newRoutine];
      }
    }

    method StopTimer()
      modifies this`timerRoutine, this`stopped
      ensures timerRoutine == None
      ensures old(timerRoutine).Some? ==> stopped == old(stopped) + [old(timerRoutine).value]
      ensures old(timerRoutine).None? ==> stopped == old(stopped)
    {
      if timerRoutine.Some? {
        stopped := stopped + [timerRoutine.value];
        timerRoutine := None;
      }
    }
  }
}
