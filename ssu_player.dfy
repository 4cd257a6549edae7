/**
 * SSUPlayer: the sequencer that drives a list of SSUAnimators against a
 * renderer's MaterialPropertyBlock. The PlayAnimations coroutine is an
 * explicit phase (Idle, waiting out the initial delay, running one loop
 * iteration per frame, waiting between plays) that `Resume` advances once
 * per frame, after the MonoBehaviour `Update` has advanced the play time.
 */
module SSUPlayer {
  import opened Wrappers
  import opened SSUValues
  import opened SSUAnimator

  datatype PlayerStartMode = Disabled | OnEnable | OnStart
  datatype PlayerPlayOrder = Ascending | Descending
  datatype PlayerPlayMode = OneTime | BackAndForth | Looped

  /** A typed entry of a MaterialPropertyBlock. */
  datatype BlockValue =
    | BlockFloat(f: real)
    | BlockColor(c: Vec4)
    | BlockVector(v: Vec4)
    | BlockInt(i: int)
    | BlockTexture(tex: TexRef)

  /** A MaterialPropertyBlock: property name to its typed value. */
  type Block = map<string, BlockValue>

  /** Where the PlayAnimations coroutine is suspended, if it is running at all. */
  datatype Phase =
    | Idle                      // no coroutine
    | Delaying(remaining: real) // waiting out InitialDelay
    | Running                   // resumes the play loop next frame
    | Pausing(remaining: real)  // waiting out DelayBetweenPlays

  /** Renderer.SetPropertyBlock on a missing renderer: a NullReferenceException. */
  datatype PlayerError = NullRenderer

  /** The per-frame state of one animator. */
  datatype AnimState = AnimState(active: bool, currentTime: real)

  /** The setter ExecuteAnimator picks for an evaluated value; none for null or an unknown type. */
  function BlockValueOf(b: Boxed): Option<BlockValue> {
    match b
    case BFloat(f) => Some(BlockFloat(f))
    case BColor(c) => Some(BlockColor(c))
    case BVector(v) => Some(BlockVector(v))
    case BInt(i) => Some(BlockInt(i))
    case BTexture(t) => Some(BlockTexture(t))
    case BNull => None
    case BOther => None
  }

  /** CanPlay, by play mode. */
  predicate CanPlayFor(mode: PlayerPlayMode, forever: bool, playsLeft: int) {
    match mode
    case OneTime => playsLeft > 0
    case BackAndForth => forever || playsLeft > 0
    case Looped => forever || playsLeft < 0
  }

  /** The plays-left count Init sets; PlayForever leaves the previous one. */
  function InitialPlaysLeft(mode: PlayerPlayMode, forever: bool, numberOfPlays: int, previous: int): int {
    if forever then previous else if mode == OneTime then 1 else numberOfPlays
  }

  /** The bookkeeping at the end of a cycle: (plays left, reverse direction). */
  function CycleEnd(mode: PlayerPlayMode, forever: bool, playsLeft: int, reverse: bool): (int, bool) {
    if !forever && playsLeft > 0 then
      (playsLeft - 1, if mode == BackAndForth then !reverse else reverse)
    else
      (playsLeft, reverse)
  }

  /** Whether the animator is complete at a stored normalised time (IsComplete). */
  predicate CompleteAt(c: AnimatorConfig, storedTime: real) {
    c.GetT(storedTime) >= 1.0
  }

  /** ExecuteAnimator evaluates: a property name is set, the animator is active, not complete and valid. */
  predicate Evaluates(c: AnimatorConfig, s: AnimState) {
    |c.PropertyName| > 0 && s.active && !CompleteAt(c, s.currentTime) && c.HasValidValues()
  }

  /** The block entry ExecuteAnimator writes for the animator, if any. */
  function ExecWrite(c: AnimatorConfig, s: AnimState, time: real): Option<BlockValue> {
    if Evaluates(c, s) then BlockValueOf(c.Interpolate(c.GetT(time))) else None
  }

  /** The block after ExecuteAnimator. */
  function WriteInto(b: Block, c: AnimatorConfig, s: AnimState, time: real): Block {
    match ExecWrite(c, s, time)
    case Some(v) => b[c.PropertyName := v]
    case None => b
  }

  /** An animator's state after ExecuteAnimator and the completion check of the play loop. */
  function StepState(c: AnimatorConfig, s: AnimState, time: real): (r: AnimState)
    ensures r.active <==> s.active && !CompleteAt(c, r.currentTime)
    ensures Evaluates(c, s) ==> r.currentTime == c.GetT(time)
    ensures !Evaluates(c, s) ==> r.currentTime == s.currentTime
  {
    var t := if Evaluates(c, s) then c.GetT(time) else s.currentTime;
    AnimState(s.active && !CompleteAt(c, t), t)
  }

  /** The order of the animator indices in a play loop iteration. */
  function Order(n: nat, reverse: bool): (o: seq<nat>)
    ensures |o| == n
    ensures forall j :: 0 <= j < n ==> o[j] < n
  {
    seq(n, j requires 0 <= j < n => if reverse then n - 1 - j else j)
  }

  /** The block built by one play loop iteration over the animators taken in `order`. */
  function ApplyWrites(cfgs: seq<AnimatorConfig>, start: seq<AnimState>, order: seq<nat>, time: real): Block
    requires |cfgs| == |start|
    requires forall j :: 0 <= j < |order| ==> order[j] < |start|
  {
    if order == [] then map[]
    else
      var k := order[|order| - 1];
      var b := ApplyWrites(cfgs, start, order[..|order| - 1], time);
      if start[k].active then WriteInto(b, cfgs[k], start[k], time) else b
  }

  /** The animator states after the evaluation part of one play loop iteration. */
  function TickStates(cfgs: seq<AnimatorConfig>, start: seq<AnimState>, time: real): (r: seq<AnimState>)
    requires |cfgs| == |start|
    ensures |r| == |start|
    ensures forall i :: 0 <= i < |start| ==>
              r[i] == if start[i].active then StepState(cfgs[i], start[i], time) else start[i]
  {
    seq(|start|, i requires 0 <= i < |start| =>
      if start[i].active then StepState(cfgs[i], start[i], time) else start[i])
  }

  predicate AllInactive(states: seq<AnimState>) {
    forall i :: 0 <= i < |states| ==> !states[i].active
  }

  /** ResetAnimators: every animator active again, stored times kept. */
  function Reactivated(states: seq<AnimState>): (r: seq<AnimState>)
    ensures |r| == |states|
    ensures forall i :: 0 <= i < |states| ==> r[i] == AnimState(true, states[i].currentTime)
  {
    seq(|states|, i requires 0 <= i < |states| => AnimState(true, states[i].currentTime))
  }

  /** What the end of a play loop iteration looks at and changes: the animators, the plays left and the direction. */
  datatype CycleState = CycleState(states: seq<AnimState>, playsLeft: int, reverse: bool)

  /**
   * The end of a play loop iteration: when every animator is inactive the
   * cycle is over, so the plays left and the direction are updated and every
   * animator is reactivated; otherwise nothing changes.
   */
  function EndOfIteration(mode: PlayerPlayMode, forever: bool, cs: CycleState): CycleState {
    if AllInactive(cs.states) then
      var (p, r) := CycleEnd(mode, forever, cs.playsLeft, cs.reverse);
      CycleState(Reactivated(cs.states), p, r)
    else cs
  }

  /** Of n animators, animator i has been visited after j steps of a pass in the given direction. */
  predicate Visited(i: nat, j: nat, n: nat, reverse: bool) {
    if reverse then i >= n - j else i < j
  }

  /** The animator states part way through a pass: visited animators ticked, the others as at the start. */
  function PartlyTicked(start: seq<AnimState>, ticked: seq<AnimState>, j: nat, reverse: bool): (r: seq<AnimState>)
    requires |start| == |ticked|
    ensures |r| == |start|
  {
    seq(|start|, i requires 0 <= i < |start| => if Visited(i, j, |start|, reverse) then ticked[i] else start[i])
  }

  /** Step j of a pass visits exactly one more animator: the j-th from the front, or from the back. */
  lemma PartlyTickedStep(start: seq<AnimState>, ticked: seq<AnimState>, j: nat, reverse: bool)
    requires |start| == |ticked| && j < |start|
    ensures var k := if reverse then |start| - 1 - j else j;
            PartlyTicked(start, ticked, j + 1, reverse) == PartlyTicked(start, ticked, j, reverse)[k := ticked[k]]
  {
    var n := |start|;
    var k := if reverse then n - 1 - j else j;
    var a := PartlyTicked(start, ticked, j + 1, reverse);
    var b := PartlyTicked(start, ticked, j, reverse)[k := ticked[k]];
    forall i | 0 <= i < n
      ensures a[i] == b[i]
    {
      if reverse {
        assert Visited(i, j + 1, n, reverse) <==> i >= n - 1 - j;
        assert Visited(i, j, n, reverse) <==> i >= n - j;
      }
    }
  }

  /** At the end of a pass every animator has been visited. */
  lemma PartlyTickedDone(start: seq<AnimState>, ticked: seq<AnimState>, reverse: bool)
    requires |start| == |ticked|
    ensures PartlyTicked(start, ticked, |start|, reverse) == ticked
  {
    var r := PartlyTicked(start, ticked, |start|, reverse);
    forall i | 0 <= i < |start| ensures r[i] == ticked[i] {
      assert Visited(i, |start|, |start|, reverse);
    }
  }

  /** The block fold extended by one more animator. */
  lemma ApplyWritesStep(cfgs: seq<AnimatorConfig>, start: seq<AnimState>, order: seq<nat>, j: nat, time: real)
    requires |cfgs| == |start| && j < |order|
    requires forall m :: 0 <= m < |order| ==> order[m] < |start|
    ensures var k := order[j];
            var b := ApplyWrites(cfgs, start, order[..j], time);
            ApplyWrites(cfgs, start, order[..j + 1], time) ==
              if start[k].active then WriteInto(b, cfgs[k], start[k], time) else b
  {
    assert order[..j + 1][..j] == order[..j];
  }

  /** The pass visits every animator exactly once, in declared order or in its exact reverse. */
  lemma OrderVisitsEachOnce(n: nat, reverse: bool)
    ensures forall i :: 0 <= i < n ==> i in Order(n, reverse)
    ensures forall j1, j2 :: 0 <= j1 < j2 < n ==> Order(n, reverse)[j1] != Order(n, reverse)[j2]
    ensures forall j :: 0 <= j < n ==> Order(n, true)[j] == Order(n, false)[n - 1 - j]
  {
    var o := Order(n, reverse);
    forall i | 0 <= i < n ensures i in o {
      var j := if reverse then n - 1 - i else i;
      assert o[j] == i;
    }
  }

  /** The block a pass builds only holds the properties of animators that were active at its start. */
  lemma {:induction false} ApplyWritesKeys(cfgs: seq<AnimatorConfig>, start: seq<AnimState>, order: seq<nat>, time: real)
    requires |cfgs| == |start|
    requires forall j :: 0 <= j < |order| ==> order[j] < |start|
    ensures forall name :: name in ApplyWrites(cfgs, start, order, time) ==>
              exists j :: 0 <= j < |order| && start[order[j]].active && Evaluates(cfgs[order[j]], start[order[j]])
                          && cfgs[order[j]].PropertyName == name
  {
    if order != [] {
      var m := |order| - 1;
      var k := order[m];
      ApplyWritesKeys(cfgs, start, order[..m], time);
      forall name | name in ApplyWrites(cfgs, start, order, time)
        ensures exists j :: 0 <= j < |order| && start[order[j]].active && Evaluates(cfgs[order[j]], start[order[j]])
                            && cfgs[order[j]].PropertyName == name
      {
        if name in ApplyWrites(cfgs, start, order[..m], time) {
          var j :| 0 <= j < m && start[order[..m][j]].active && Evaluates(cfgs[order[..m][j]], start[order[..m][j]])
                   && cfgs[order[..m][j]].PropertyName == name;
          assert order[..m][j] == order[j];
        } else {
          assert start[k].active && ExecWrite(cfgs[k], start[k], time).Some? && name == cfgs[k].PropertyName;
          assert order[m] == k;
        }
      }
    }
  }

  /** Animator k writes an entry in this iteration: it is active at the tick start and ExecuteAnimator writes for it. */
  predicate Writes(cfgs: seq<AnimatorConfig>, start: seq<AnimState>, k: nat, time: real)
    requires |cfgs| == |start| && k < |start|
  {
    start[k].active && ExecWrite(cfgs[k], start[k], time).Some?
  }

  /** No animator visited after step j writes the property the j-th one writes. */
  predicate LastWriter(cfgs: seq<AnimatorConfig>, start: seq<AnimState>, order: seq<nat>, time: real, j: nat)
    requires |cfgs| == |start| && j < |order|
    requires forall m :: 0 <= m < |order| ==> order[m] < |start|
  {
    forall j2 :: j < j2 < |order| && Writes(cfgs, start, order[j2], time) ==>
      cfgs[order[j2]].PropertyName != cfgs[order[j]].PropertyName
  }

  /** The property of a writing animator reaches the block, with its value when no later animator overwrites it. */
  lemma {:induction false} ApplyWritesWriter(cfgs: seq<AnimatorConfig>, start: seq<AnimState>, order: seq<nat>, time: real, j: nat)
    requires |cfgs| == |start| && j < |order|
    requires forall m :: 0 <= m < |order| ==> order[m] < |start|
    requires Writes(cfgs, start, order[j], time)
    ensures var c := cfgs[order[j]];
            c.PropertyName in ApplyWrites(cfgs, start, order, time)
            && (LastWriter(cfgs, start, order, time, j) ==>
                  ApplyWrites(cfgs, start, order, time)[c.PropertyName] == ExecWrite(c, start[order[j]], time).value)
  {
    var m := |order| - 1;
    var k := order[m];
    var pre := order[..m];
    if j < m {
      assert pre[j] == order[j];
      ApplyWritesWriter(cfgs, start, pre, time, j);
      if LastWriter(cfgs, start, order, time, j) {
        forall j2 | j < j2 < |pre| && Writes(cfgs, start, pre[j2], time)
          ensures cfgs[pre[j2]].PropertyName != cfgs[pre[j]].PropertyName
        {
          assert pre[j2] == order[j2];
        }
        assert LastWriter(cfgs, start, pre, time, j);
      }
    }
  }

  /**
   * The converse of ApplyWritesKeys: every animator that writes in the pass
   * has its property in the block, and the block holds the value of the last
   * animator in visiting order that writes that property.
   */
  lemma ApplyWritesLastWins(cfgs: seq<AnimatorConfig>, start: seq<AnimState>, order: seq<nat>, time: real)
    requires |cfgs| == |start|
    requires forall j :: 0 <= j < |order| ==> order[j] < |start|
    ensures forall j :: 0 <= j < |order| && Writes(cfgs, start, order[j], time) ==>
              cfgs[order[j]].PropertyName in ApplyWrites(cfgs, start, order, time)
    ensures forall j :: 0 <= j < |order| && Writes(cfgs, start, order[j], time) && LastWriter(cfgs, start, order, time, j) ==>
              ApplyWrites(cfgs, start, order, time)[cfgs[order[j]].PropertyName] == ExecWrite(cfgs[order[j]], start[order[j]], time).value
  {
    forall j | 0 <= j < |order| && Writes(cfgs, start, order[j], time)
      ensures cfgs[order[j]].PropertyName in ApplyWrites(cfgs, start, order, time)
      ensures LastWriter(cfgs, start, order, time, j) ==>
                ApplyWrites(cfgs, start, order, time)[cfgs[order[j]].PropertyName] == ExecWrite(cfgs[order[j]], start[order[j]], time).value
    {
      ApplyWritesWriter(cfgs, start, order, time, j);
    }
  }

  /**
   * An animator whose A/B values are not usable is never evaluated, so,
   * unless its stored time already makes it complete, it stays active and
   * the cycle it belongs to never ends.
   */
  lemma InvalidAnimatorBlocksCycle(cfgs: seq<AnimatorConfig>, start: seq<AnimState>, time: real, i: nat)
    requires |cfgs| == |start| && i < |start|
    requires start[i].active && !cfgs[i].HasValidValues() && !CompleteAt(cfgs[i], start[i].currentTime)
    ensures TickStates(cfgs, start, time)[i] == start[i]
    ensures !AllInactive(TickStates(cfgs, start, time))
  {
  }

  /**
   * An animator with a linear curve and Speed 0.5 is never complete however
   * long it plays, so a cycle containing it never ends.
   */
  lemma SlowAnimatorStaysActive(cfgs: seq<AnimatorConfig>, start: seq<AnimState>, time: real, i: nat)
    requires |cfgs| == |start| && i < |start| && start[i].active
    requires cfgs[i].Speed == 0.5 && forall x :: cfgs[i].Curve(x) == x
    requires 0.0 <= start[i].currentTime <= 1.0
    ensures TickStates(cfgs, start, time)[i].active
    ensures 0.0 <= TickStates(cfgs, start, time)[i].currentTime <= 1.0
    ensures !AllInactive(TickStates(cfgs, start, time))
  {
    var c := cfgs[i];
    var t := TickStates(cfgs, start, time)[i].currentTime;
    assert t == c.GetT(time) || t == start[i].currentTime;
    assert c.Curve(t * c.Speed) == t * 0.5;
  }

  /** The (plays left, direction) pair after k completed cycles. */
  function CyclesEnd(mode: PlayerPlayMode, forever: bool, playsLeft: int, reverse: bool, k: nat): (int, bool)
    decreases k
  {
    if k == 0 then (playsLeft, reverse)
    else
      var (p, r) := CyclesEnd(mode, forever, playsLeft, reverse, k - 1);
      CycleEnd(mode, forever, p, r)
  }

  /** A finite BackAndForth player counts its plays down by one per cycle and flips direction each time. */
  lemma {:induction false} BackAndForthCycles(playsLeft: int, k: nat)
    requires 0 <= k <= playsLeft
    ensures CyclesEnd(BackAndForth, false, playsLeft, false, k) == (playsLeft - k, k % 2 == 1)
  {
    if k > 0 {
      BackAndForthCycles(playsLeft, k - 1);
    }
  }

  /** A finite player whose count is used up stops being able to play, and never counts below zero. */
  lemma {:induction false} CyclesExhaust(mode: PlayerPlayMode, playsLeft: int, reverse: bool, k: nat)
    requires mode != Looped && playsLeft >= 0
    ensures CyclesEnd(mode, false, playsLeft, reverse, k).0 == if k <= playsLeft then playsLeft - k else 0
    ensures k >= playsLeft ==> !CanPlayFor(mode, false, CyclesEnd(mode, false, playsLeft, reverse, k).0)
  {
    if k > 0 {
      CyclesExhaust(mode, playsLeft, reverse, k - 1);
    }
  }

  /** PlayForever freezes the count and the direction, so a BackAndForth or Looped player plays without end. */
  lemma {:induction false} ForeverNeverStops(mode: PlayerPlayMode, playsLeft: int, reverse: bool, k: nat)
    requires mode != OneTime
    ensures CyclesEnd(mode, true, playsLeft, reverse, k) == (playsLeft, reverse)
    ensures CanPlayFor(mode, true, CyclesEnd(mode, true, playsLeft, reverse, k).0)
  {
    if k > 0 {
      ForeverNeverStops(mode, playsLeft, reverse, k - 1);
    }
  }

  /**
   * A Looped player without PlayForever plays only with a negative count,
   * which the cycle end never changes: it either never starts or never stops.
   */
  lemma {:induction false} LoopedCount(numberOfPlays: int, previous: int, reverse: bool, k: nat)
    ensures var p := InitialPlaysLeft(Looped, false, numberOfPlays, previous);
            && (numberOfPlays >= 0 ==> !CanPlayFor(Looped, false, p))
            && (numberOfPlays < 0 ==>
                  CyclesEnd(Looped, false, p, reverse, k) == (p, reverse)
                  && CanPlayFor(Looped, false, CyclesEnd(Looped, false, p, reverse, k).0))
  {
    if k > 0 && numberOfPlays < 0 {
      LoopedCount(numberOfPlays, previous, reverse, k - 1);
    }
  }

  /**
   * OneTime plays one cycle: Init sets one play, which the first cycle uses
   * up. With PlayForever, Init leaves the count alone, so a fresh OneTime
   * player (count 0) never plays.
   */
  lemma OneTimePlaysOnce(numberOfPlays: int, previous: int, reverse: bool)
    ensures var p := InitialPlaysLeft(OneTime, false, numberOfPlays, previous);
            && CanPlayFor(OneTime, false, p)
            && !CanPlayFor(OneTime, false, CycleEnd(OneTime, false, p, reverse).0)
            && CycleEnd(OneTime, false, p, reverse).1 == reverse
    ensures !CanPlayFor(OneTime, true, InitialPlaysLeft(OneTime, true, numberOfPlays, 0))
  {
  }

  /** The part of the player's state the PlayAnimations coroutine reads and changes. */
  datatype LoopState = LoopState(isPlaying: bool, phase: Phase, block: Block, rendered: Block, commits: nat, cycle: CycleState)

  /** The player's settings the coroutine consults, and its animators' configurations. */
  datatype LoopConfig = LoopConfig(mode: PlayerPlayMode, forever: bool, delayBetweenPlays: real, cfgs: seq<AnimatorConfig>)

  /**
   * One iteration of the PlayAnimations loop at play time `time`: when
   * CanPlay fails the coroutine ends; otherwise the block is rebuilt from the
   * animators active at the start, in the current direction, and committed
   * to the renderer, the cycle ends if every animator is now inactive, and
   * the coroutine waits out the pause between plays or resumes next frame.
   */
  function LoopIteration(lc: LoopConfig, time: real, s: LoopState): (r: LoopState)
    requires |lc.cfgs| == |s.cycle.states|
    ensures |r.cycle.states| == |s.cycle.states|
  {
    if !CanPlayFor(lc.mode, lc.forever, s.cycle.playsLeft) then s.(isPlaying := false, phase := Idle)
    else
      var ticked := TickStates(lc.cfgs, s.cycle.states, time);
      var b := ApplyWrites(lc.cfgs, s.cycle.states, Order(|lc.cfgs|, s.cycle.reverse), time);
      LoopState(true, if AllInactive(ticked) then Pausing(lc.delayBetweenPlays) else Running,
                b, b, s.commits + 1, EndOfIteration(lc.mode, lc.forever, s.cycle.(states := ticked)))
  }

  /**
   * The coroutine's step in a frame of length deltaTime at play time `time`:
   * a wait counts the frame down; once the initial delay is over the loop
   * runs in the same frame, once the pause between plays is over it resumes
   * in the next one.
   */
  function ResumeStep(lc: LoopConfig, time: real, deltaTime: real, s: LoopState): (r: LoopState)
    requires |lc.cfgs| == |s.cycle.states|
    ensures |r.cycle.states| == |s.cycle.states|
  {
    match s.phase
    case Idle => s
    case Delaying(remaining) =>
      if remaining - deltaTime > 0.0 then s.(phase := Delaying(remaining - deltaTime)) else LoopIteration(lc, time, s)
    case Running => LoopIteration(lc, time, s)
    case Pausing(remaining) =>
      if remaining - deltaTime > 0.0 then s.(phase := Pausing(remaining - deltaTime)) else s.(phase := Running)
  }

  /**
   * A coroutine step keeps IsPlaying in step with the coroutine's existence,
   * commits the block at most once and only by handing over the block just
   * built, and never raises the count of plays left of a finite player.
   */
  lemma ResumeStepInvariants(lc: LoopConfig, time: real, deltaTime: real, s: LoopState)
    requires |lc.cfgs| == |s.cycle.states|
    requires s.isPlaying <==> !s.phase.Idle?
    ensures var r := ResumeStep(lc, time, deltaTime, s);
            && (r.isPlaying <==> !r.phase.Idle?)
            && (r.commits == s.commits || r.commits == s.commits + 1)
            && (r.commits == s.commits ==> r.rendered == s.rendered && r.block == s.block)
            && (r.commits == s.commits + 1 ==> r.rendered == r.block && r.isPlaying)
            && (!lc.forever && s.cycle.playsLeft >= 0 ==> 0 <= r.cycle.playsLeft <= s.cycle.playsLeft)
  {
  }

  /**
   * A OneTime player whose last play completes in this iteration: it pauses
   * with no plays left, resumes after the pause, and at the next iteration
   * ends the coroutine without committing anything.
   */
  lemma {:induction false} OneTimeEndsAfterItsCycle(lc: LoopConfig, s: LoopState, t1: real, dt1: real, t2: real, dt2: real, t3: real, dt3: real)
    requires lc.mode == OneTime && !lc.forever && |lc.cfgs| == |s.cycle.states|
    requires s.phase == Running && s.isPlaying && s.cycle.playsLeft == 1
    requires AllInactive(TickStates(lc.cfgs, s.cycle.states, t1))
    requires lc.delayBetweenPlays - dt2 <= 0.0
    ensures var s1 := ResumeStep(lc, t1, dt1, s);
            var s2 := ResumeStep(lc, t2, dt2, s1);
            var s3 := ResumeStep(lc, t3, dt3, s2);
            && s1.phase == Pausing(lc.delayBetweenPlays) && s1.cycle.playsLeft == 0 && s1.commits == s.commits + 1
            && s2 == s1.(phase := Running)
            && s3 == s2.(isPlaying := false, phase := Idle)
  {
    var s1 := ResumeStep(lc, t1, dt1, s);
    assert s1 == LoopIteration(lc, t1, s);
    assert s1.cycle.playsLeft == 0;
    var s2 := ResumeStep(lc, t2, dt2, s1);
    assert s2 == s1.(phase := Running);
    assert !CanPlayFor(lc.mode, lc.forever, s2.cycle.playsLeft);
  }

  function StateOf(a: Animator): AnimState
    reads a
  {
    AnimState(a.Active, a.currentTime)
  }

  class Player {
    const StartMode: PlayerStartMode
    const PlayOrder: PlayerPlayOrder   // declared, never consulted by the play loop
    const InitialDelay: real
    const PlayMode: PlayerPlayMode
    const PlayForever: bool
    const NumberOfPlays: int
    const DelayBetweenPlays: real
    const animators: seq<Animator>
    const hasRenderer: bool

    var IsPlaying: bool
    var playsLeft: int
    var currentPlayTime: real
    var reverseDirection: bool
    /** The MaterialPropertyBlock the play loop fills. */
    var block: Block
    /** The block last handed to the renderer with SetPropertyBlock, and how many times that happened. */
    var rendered: Block
    var commits: nat
    var phase: Phase

    ghost predicate Valid()
      reads this
    {
      && (IsPlaying <==> !phase.Idle?)
      && forall i, j :: 0 <= i < j < |animators| ==> animators[i] != animators[j]
    }

    function Cfgs(): (r: seq<AnimatorConfig>)
      ensures |r| == |animators|
      ensures forall i :: 0 <= i < |animators| ==> r[i] == animators[i].cfg
    {
      seq(|animators|, i requires 0 <= i < |animators| => animators[i].cfg)
    }

    function States(): (r: seq<AnimState>)
      reads animators
      ensures |r| == |animators|
      ensures forall i :: 0 <= i < |animators| ==> r[i] == StateOf(animators[i])
    {
      seq(|animators|, i requires 0 <= i < |animators| reads animators => StateOf(animators[i]))
    }

    predicate CanPlay()
      reads this
    {
      CanPlayFor(PlayMode, PlayForever, playsLeft)
    }

    constructor (startMode: PlayerStartMode, playOrder: PlayerPlayOrder, initialDelay: real, playMode: PlayerPlayMode,
                 playForever: bool, numberOfPlays: int, delayBetweenPlays: real,
                 animators: seq<Animator>, hasRenderer: bool)
      requires forall i, j :: 0 <= i < j < |animators| ==> animators[i] != animators[j]
      ensures Valid()
      ensures StartMode == startMode && PlayOrder == playOrder && InitialDelay == initialDelay
      ensures PlayMode == playMode && PlayForever == playForever && NumberOfPlays == numberOfPlays
      ensures DelayBetweenPlays == delayBetweenPlays && this.animators == animators
      ensures this.hasRenderer == hasRenderer
      ensures !IsPlaying && playsLeft == 0 && currentPlayTime == 0.0 && !reverseDirection
      ensures block == map[] && rendered == map[] && commits == 0 && phase == Idle
    {
      StartMode, PlayOrder, InitialDelay := startMode, playOrder, initialDelay;
      PlayMode, PlayForever, NumberOfPlays := playMode, playForever, numberOfPlays;
      DelayBetweenPlays, this.animators, this.hasRenderer := delayBetweenPlays, animators, hasRenderer;
      IsPlaying, playsLeft, currentPlayTime, reverseDirection := false, 0, 0.0, false;
      block, rendered, commits, phase := map[], map[], 0, Idle;
    }

    /** Init (run by Awake and OnValidate): plays left from the play mode unless PlayForever. */
    method Init()
      modifies this`playsLeft
      ensures playsLeft == InitialPlaysLeft(PlayMode, PlayForever, NumberOfPlays, old(playsLeft))
    {
      if !PlayForever {
        playsLeft := if PlayMode == OneTime then 1 else NumberOfPlays;
      }
    }

    /** Play: nothing while playing; otherwise starts the coroutine when CanPlay holds. */
    method Play()
      requires Valid()
      modifies this`IsPlaying, this`phase
      ensures Valid()
      ensures old(IsPlaying) ==> IsPlaying && phase == old(phase)
      ensures !old(IsPlaying) ==> IsPlaying == CanPlay()
      ensures !old(IsPlaying) && CanPlay() ==> phase == Delaying(InitialDelay)
      ensures !old(IsPlaying) && !CanPlay() ==> phase == Idle
    {
      if IsPlaying {
        return;
      }
      if CanPlay() {
        IsPlaying := true;
        phase := Delaying(InitialDelay);
      }
    }

    method OnEnable()
      requires Valid()
      modifies this`IsPlaying, this`phase
      ensures Valid()
      ensures StartMode != PlayerStartMode.OnEnable ==> IsPlaying == old(IsPlaying) && phase == old(phase)
      ensures StartMode == PlayerStartMode.OnEnable && old(IsPlaying) ==> IsPlaying && phase == old(phase)
      ensures StartMode == PlayerStartMode.OnEnable && !old(IsPlaying) ==>
                && IsPlaying == CanPlay()
                && phase == if CanPlay() then Delaying(InitialDelay) else Idle
    {
      if StartMode == PlayerStartMode.OnEnable {
        Play();
      }
    }

    method Start()
      requires Valid()
      modifies this`IsPlaying, this`phase
      ensures Valid()
      ensures StartMode != PlayerStartMode.OnStart ==> IsPlaying == old(IsPlaying) && phase == old(phase)
      ensures StartMode == PlayerStartMode.OnStart && old(IsPlaying) ==> IsPlaying && phase == old(phase)
      ensures StartMode == PlayerStartMode.OnStart && !old(IsPlaying) ==>
                && IsPlaying == CanPlay()
                && phase == if CanPlay() then Delaying(InitialDelay) else Idle
    {
      if StartMode == PlayerStartMode.OnStart {
        Play();
      }
    }

    /**
     * Stop: while playing, cancels the coroutine, clears the block, hands the
     * cleared block to the renderer and rewinds the play time. Plays left,
     * direction and the animators are left as they are. Without a renderer
     * the hand-over throws after the block was cleared, so the play time is
     * not rewound.
     */
    method Stop() returns (err: Option<PlayerError>)
      requires Valid()
      modifies this`IsPlaying, this`phase, this`block, this`rendered, this`commits, this`currentPlayTime
      ensures Valid()
      ensures old(IsPlaying) && hasRenderer ==>
                && err.None? && !IsPlaying && phase == Idle && block == map[] && rendered == map[]
                && commits == old(commits) + 1 && currentPlayTime == 0.0
      ensures old(IsPlaying) && !hasRenderer ==>
                && err == Some(NullRenderer) && !IsPlaying && phase == Idle && block == map[]
                && rendered == old(rendered) && commits == old(commits) && currentPlayTime == old(currentPlayTime)
      ensures !old(IsPlaying) ==>
                && err.None? && IsPlaying == old(IsPlaying) && phase == old(phase) && block == old(block)
                && rendered == old(rendered) && commits == old(commits)
                && currentPlayTime == old(currentPlayTime)
    {
      err := None;
      if IsPlaying {
        phase := Idle;
        IsPlaying := false;
        block := map[];
        if !hasRenderer {
          return Some(NullRenderer);
        }
        rendered := block;
        commits := commits + 1;
        currentPlayTime := 0.0;
      }
    }

    /** The MonoBehaviour Update: advances the play time while playing and CanPlay holds. */
    method Update(deltaTime: real)
      modifies this`currentPlayTime
      ensures currentPlayTime ==
                if hasRenderer && IsPlaying && CanPlay() then old(currentPlayTime) + deltaTime
                else old(currentPlayTime)
    {
      if !hasRenderer || !IsPlaying || !CanPlay() {
        return;
      }
      currentPlayTime := currentPlayTime + deltaTime;
    }

    /** AllAnimatorsInactive. */
    predicate AllAnimatorsInactive()
      reads animators
    {
      forall i :: 0 <= i < |animators| ==> !animators[i].Active
    }

    /** ResetAnimators: every animator active again. */
    method ResetAnimators()
      requires Valid()
      modifies animators
      ensures States() == Reactivated(old(States()))
    {
      var i := 0;
      while i < |animators|
        invariant 0 <= i <= |animators|
        invariant forall k :: 0 <= k < i ==> StateOf(animators[k]) == AnimState(true, old(animators[k].currentTime))
        invariant forall k :: i <= k < |animators| ==> StateOf(animators[k]) == old(StateOf(animators[k]))
      {
        animators[i].Active := true;
        i := i + 1;
      }
    }

    /** ExecuteAnimator: evaluates one animator at `time` and writes its value into the block. */
    method ExecuteAnimator(a: Animator, time: real)
      modifies this`block, a`currentTime
      ensures a.currentTime == StepState(a.cfg, old(StateOf(a)), time).currentTime
      ensures block == WriteInto(old(block), a.cfg, old(StateOf(a)), time)
    {
      if |a.cfg.PropertyName| == 0 {
        return;   // skipped: no property name
      }
      if a.Active && !a.IsComplete() {
        var r := a.Evaluate(time);
        if r.Ok? {
          match r.value {
            case BFloat(f) => block := block[a.cfg.PropertyName := BlockFloat(f)];
            case BColor(c) => block := block[a.cfg.PropertyName := BlockColor(c)];
            case BVector(v) => block := block[a.cfg.PropertyName := BlockVector(v)];
            case BInt(i) => block := block[a.cfg.PropertyName := BlockInt(i)];
            case BTexture(t) => block := block[a.cfg.PropertyName := BlockTexture(t)];
            case BNull =>      // null result: skipped
            case BOther =>     // no setter for the value's type: skipped
          }
        }
        // an evaluation error is caught: the block is left as it was
      }
    }

    /** The play loop's visit of one animator that was active at the start of the pass. */
    method VisitAnimator(a: Animator, time: real)
      requires a.Active
      modifies this`block, a
      ensures StateOf(a) == StepState(a.cfg, old(StateOf(a)), time)
      ensures block == WriteInto(old(block), a.cfg, old(StateOf(a)), time)
    {
      ExecuteAnimator(a, time);
      if a.IsComplete() {
        a.Active := false;
      }
    }

    /**
     * The evaluation pass of a play loop iteration: the block is cleared and
     * rebuilt from the animators active at the start of the pass, taken in
     * declared order or its exact reverse; complete animators are deactivated.
     */
    method EvaluateAnimators()
      requires Valid()
      modifies this`block, animators
      ensures block == ApplyWrites(Cfgs(), old(States()), Order(|animators|, reverseDirection), currentPlayTime)
      ensures States() == TickStates(Cfgs(), old(States()), currentPlayTime)
    {
      block := map[];
      var n := |animators|;
      // the animators active at the start of the pass: the source's filtered list
      var start := States();
      var j := 0;
      while j < n
        invariant 0 <= j <= n
        invariant block == ApplyWrites(Cfgs(), start, Order(|animators|, reverseDirection)[..j], currentPlayTime)
        invariant States() == PartlyTicked(start, TickStates(Cfgs(), start, currentPlayTime), j, reverseDirection)
      {
        PassStep(start, j);
        j := j + 1;
      }
      assert Order(n, reverseDirection)[..n] == Order(n, reverseDirection);
      PartlyTickedDone(start, TickStates(Cfgs(), start, currentPlayTime), reverseDirection);
    }

    /** Step j of the evaluation pass: the j-th animator in pass order is visited if it was active at the start. */
    method PassStep(start: seq<AnimState>, j: nat)
      requires Valid() && |start| == |animators| && j < |animators|
      requires block == ApplyWrites(Cfgs(), start, Order(|animators|, reverseDirection)[..j], currentPlayTime)
      requires States() == PartlyTicked(start, TickStates(Cfgs(), start, currentPlayTime), j, reverseDirection)
      modifies this`block, animators
      ensures block == ApplyWrites(Cfgs(), start, Order(|animators|, reverseDirection)[..j + 1], currentPlayTime)
      ensures States() == PartlyTicked(start, TickStates(Cfgs(), start, currentPlayTime), j + 1, reverseDirection)
    {
      var n := |animators|;
      var k := if reverseDirection then n - 1 - j else j;
      ghost var cfgs := Cfgs();
      ghost var ticked := TickStates(cfgs, start, currentPlayTime);
      ghost var b0 := block;
      ghost var s0 := States();
      assert !Visited(k, j, n, reverseDirection);
      assert s0[k] == start[k];
      if start[k].active {
        VisitAt(k, currentPlayTime);
      }
      assert block == (if start[k].active then WriteInto(b0, cfgs[k], start[k], currentPlayTime) else b0);
      assert States() == s0[k := ticked[k]];
      ApplyWritesStep(cfgs, start, Order(n, reverseDirection), j, currentPlayTime);
      PartlyTickedStep(start, ticked, j, reverseDirection);
    }

    /** The visit of the k-th animator, stated over the whole sequence of states. */
    method VisitAt(k: nat, time: real)
      requires Valid() && k < |animators| && animators[k].Active
      modifies this`block, animators[k]
      ensures States() == old(States())[k := StepState(animators[k].cfg, old(States())[k], time)]
      ensures block == WriteInto(old(block), animators[k].cfg, old(States())[k], time)
    {
      VisitAnimator(animators[k], time);
    }

    /** The part of the player's state that the end of an iteration works on. */
    function Cycle(): CycleState
      reads this, animators
    {
      CycleState(States(), playsLeft, reverseDirection)
    }

    /**
     * The end of a play loop iteration after the block was committed; the
     * coroutine then waits DelayBetweenPlays if the cycle is over, or resumes
     * next frame.
     */
    method EndIteration()
      requires Valid() && IsPlaying
      modifies this`playsLeft, this`reverseDirection, this`phase, animators
      ensures Valid()
      ensures Cycle() == EndOfIteration(PlayMode, PlayForever, old(Cycle()))
      ensures phase == if AllInactive(old(States())) then Pausing(DelayBetweenPlays) else Running
    {
      ghost var before := Cycle();
      if AllAnimatorsInactive() {
        assert AllInactive(before.states);
        if !PlayForever && playsLeft > 0 {
          playsLeft := playsLeft - 1;
          if PlayMode == BackAndForth {
            reverseDirection := !reverseDirection;
          }
        }
        ResetAnimators();
        phase := Pausing(DelayBetweenPlays);
      } else {
        phase := Running;
      }
    }

    /** The state the coroutine works on. */
    function LoopStateOf(): LoopState
      reads this, animators
    {
      LoopState(IsPlaying, phase, block, rendered, commits, Cycle())
    }

    /** The settings the coroutine consults. */
    function LoopCfg(): LoopConfig
      reads this
    {
      LoopConfig(PlayMode, PlayForever, DelayBetweenPlays, Cfgs())
    }

    /**
     * One iteration of the PlayAnimations loop: when CanPlay no longer holds
     * the coroutine ends; otherwise the iteration runs as RunIteration says.
     */
    method PlayLoopIteration()
      requires Valid() && hasRenderer && IsPlaying
      modifies this`IsPlaying, this`phase, this`block, this`rendered, this`commits,
               this`playsLeft, this`reverseDirection, animators
      ensures Valid()
      ensures !old(CanPlay()) ==>
                && !IsPlaying && phase == Idle && block == old(block) && rendered == old(rendered)
                && commits == old(commits) && Cycle() == old(Cycle())
      ensures old(CanPlay()) ==>
                && IsPlaying && commits == old(commits) + 1
                && Cycle() == EndOfIteration(PlayMode, PlayForever, old(Cycle()).(states := TickStates(Cfgs(), old(States()), currentPlayTime)))
      ensures LoopStateOf() == LoopIteration(LoopCfg(), currentPlayTime, old(LoopStateOf()))
    {
      if !CanPlay() {
        IsPlaying := false;
        phase := Idle;
        return;
      }
      RunIteration();
    }

    /**
     * An iteration that CanPlay admits: the animators are evaluated into the
     * block, the block is committed once, and the iteration ends as
     * EndOfIteration says.
     */
    method RunIteration()
      requires Valid() && hasRenderer && IsPlaying && CanPlay()
      modifies this`phase, this`block, this`rendered, this`commits,
               this`playsLeft, this`reverseDirection, animators
      ensures Valid() && IsPlaying
      ensures block == ApplyWrites(Cfgs(), old(States()), Order(|animators|, old(reverseDirection)), currentPlayTime)
      ensures rendered == block && commits == old(commits) + 1
      ensures Cycle() == EndOfIteration(PlayMode, PlayForever, old(Cycle()).(states := TickStates(Cfgs(), old(States()), currentPlayTime)))
      ensures phase == if AllInactive(TickStates(Cfgs(), old(States()), currentPlayTime)) then Pausing(DelayBetweenPlays) else Running
    {
      ghost var c0 := Cycle();
      ghost var cfgs := Cfgs();
      EvaluateAnimators();
      ghost var ticked := TickStates(cfgs, c0.states, currentPlayTime);
      assert Cfgs() == cfgs && States() == ticked;
      assert Cycle() == c0.(states := ticked);
      rendered := block;
      commits := commits + 1;
      ghost var b := block;
      EndIteration();
      assert Cfgs() == cfgs && block == b;
    }

    /**
     * The coroutine's step in a frame of length deltaTime: a wait counts the
     * frame down and, once over, either runs the loop (after the initial
     * delay) or resumes it next frame (after the pause between plays).
     */
    method Resume(deltaTime: real)
      requires Valid() && hasRenderer
      modifies this`IsPlaying, this`phase, this`block, this`rendered, this`commits,
               this`playsLeft, this`reverseDirection, animators
      ensures Valid()
      ensures old(phase).Idle? ==> phase == Idle && block == old(block) && States() == old(States())
      ensures old(phase).Delaying? && old(phase).remaining - deltaTime > 0.0 ==>
                phase == Delaying(old(phase).remaining - deltaTime) && States() == old(States())
      ensures old(phase).Pausing? && old(phase).remaining - deltaTime > 0.0 ==>
                phase == Pausing(old(phase).remaining - deltaTime) && States() == old(States())
      ensures old(phase).Pausing? && old(phase).remaining - deltaTime <= 0.0 ==>
                phase == Running && States() == old(States()) && commits == old(commits)
      ensures (old(phase).Running? || (old(phase).Delaying? && old(phase).remaining - deltaTime <= 0.0)) ==>
                commits == old(commits) + (if old(CanPlay()) then 1 else 0)
      ensures LoopStateOf() == ResumeStep(LoopCfg(), currentPlayTime, deltaTime, old(LoopStateOf()))
    {
      match phase {
        case Idle =>
        case Delaying(remaining) =>
          if remaining - deltaTime > 0.0 {
            phase := Delaying(remaining - deltaTime);
          } else {
            PlayLoopIteration();
          }
        case Running =>
          PlayLoopIteration();
        case Pausing(remaining) =>
          if remaining - deltaTime > 0.0 {
            phase := Pausing(remaining - deltaTime);
          } else {
            phase := Running;
          }
      }
    }

    /** One frame: Update runs before the coroutine is resumed. */
    method Frame(deltaTime: real)
      requires Valid() && hasRenderer
      modifies this, animators
      ensures Valid()
      ensures currentPlayTime ==
                if old(IsPlaying) && old(CanPlay()) then old(currentPlayTime) + deltaTime
                else old(currentPlayTime)
      ensures LoopStateOf() == ResumeStep(LoopCfg(), currentPlayTime, deltaTime, old(LoopStateOf()))
    {
      Update(deltaTime);
      Resume(deltaTime);
    }
  }
}
