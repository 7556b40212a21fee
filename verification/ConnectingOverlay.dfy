/**
 * The connecting overlay's schedule (components/ConnectingOverlay.tsx).
 *
 * While the overlay is visible with an agent, its effect starts four tracked
 * timers: three advance the phase, the fourth begins the exit and starts a
 * fifth, untracked timer that calls `onComplete` 400 ms later. The cleanup of
 * the effect cancels only the tracked timers.
 *
 * The browser's timer queue is part of the state here: `pending` holds the
 * timers not yet fired in the order they were set; the earliest due fires
 * first (the first set among equals), exactly at its due time.
 */
module ConnectingOverlay {

  datatype Phase = Analyzing | Found | Connecting | Connected

  /** The phase's position in the list the progress dots are drawn from. */
  function PhaseIndex(p: Phase): (r: nat)
    ensures r < 4
  {
    match p
    case Analyzing => 0
    case Found => 1
    case Connecting => 2
    case Connected => 3
  }

  const FOUND_AT := 1200
  const CONNECTING_AT := 2400
  const CONNECTED_AT := 3600
  const EXIT_AT := 4200
  const COMPLETE_DELAY := 400

  /** The phase the overlay shows `elapsed` ms after the effect started its timers. */
  function PhaseAt(elapsed: int): Phase {
    if elapsed < FOUND_AT then Analyzing
    else if elapsed < CONNECTING_AT then Found
    else if elapsed < CONNECTED_AT then Connecting
    else Connected
  }

  /** The phase never goes back as time passes. */
  lemma PhaseAtMonotone(a: int, b: int)
    requires a <= b
    ensures PhaseIndex(PhaseAt(a)) <= PhaseIndex(PhaseAt(b))
  {
  }

  /** What a timer does when it fires. */
  datatype Action = SetPhase(phase: Phase) | BeginExit | Complete

  datatype Timer = Timer(id: nat, due: int, action: Action)

  /**
   * The component state (`phase`, `isExiting`), the timer queue, the ids the
   * last effect run will cancel on cleanup, and the next timer id.
   */
  datatype OverlayState = OverlayState(
    phase: Phase,
    isExiting: bool,
    pending: seq<Timer>,
    tracked: seq<nat>,
    nextId: nat)

  /** The overlay renders only when visible with an agent. */
  predicate Rendered(visible: bool, hasAgent: bool) {
    visible && hasAgent
  }

  /**
   * The timer that fires next: the earliest due, and among timers due at the
   * same time the one set first.
   */
  function Earliest(q: seq<Timer>): (i: nat)
    requires q != []
    ensures i < |q|
    ensures forall k | 0 <= k < |q| :: q[i].due <= q[k].due
    ensures forall k | 0 <= k < i :: q[k].due > q[i].due
    ensures (forall k | 0 <= k < |q| :: q[0].due <= q[k].due) ==> i == 0
  {
    if |q| == 1 then 0
    else
      var j := 1 + Earliest(q[1..]);
      assert q[j] == q[1..][j - 1];
      if q[0].due <= q[j].due then 0 else j
  }

  function RemoveAt(q: seq<Timer>, i: nat): (r: seq<Timer>)
    requires i < |q|
    ensures |r| == |q| - 1
  {
    q[..i] + q[i + 1..]
  }

  /** The queue without the timers whose ids are cancelled, in the same order. */
  function Cancel(q: seq<Timer>, ids: seq<nat>): (r: seq<Timer>)
    ensures |r| <= |q|
    ensures forall k | 0 <= k < |r| :: r[k] in q && r[k].id !in ids
  {
    if q == [] then []
    else if q[0].id in ids then Cancel(q[1..], ids)
    else [q[0]] + Cancel(q[1..], ids)
  }

  /** The other direction: every queued timer whose id is not cancelled stays. */
  lemma {:induction false} CancelKeepsUncleared(q: seq<Timer>, ids: seq<nat>)
    ensures forall k | 0 <= k < |q| && q[k].id !in ids :: q[k] in Cancel(q, ids)
  {
    if q != [] {
      CancelKeepsUncleared(q[1..], ids);
      assert forall k | 1 <= k < |q| :: q[k] == q[1..][k - 1];
    }
  }

  lemma {:induction false} CancelEverything(q: seq<Timer>, ids: seq<nat>)
    requires forall k | 0 <= k < |q| :: q[k].id in ids
    ensures Cancel(q, ids) == []
  {
    if q != [] {
      CancelEverything(q[1..], ids);
    }
  }

  lemma {:induction false} CancelNone(q: seq<Timer>, ids: seq<nat>)
    requires forall k | 0 <= k < |q| :: q[k].id !in ids
    ensures Cancel(q, ids) == q
  {
    if q != [] {
      CancelNone(q[1..], ids);
    }
  }

  lemma {:induction false} CancelNothing(q: seq<Timer>)
    ensures Cancel(q, []) == q
  {
    if q != [] {
      CancelNothing(q[1..]);
    }
  }

  /** Cancelling one more id is cancelling the longer list. */
  lemma {:induction false} CancelOneMore(q: seq<Timer>, ids: seq<nat>, id: nat)
    ensures Cancel(Cancel(q, ids), [id]) == Cancel(q, ids + [id])
  {
    if q != [] {
      CancelOneMore(q[1..], ids, id);
    }
  }

  /** The effect's cleanup: clear every timer it tracked. */
  function CleanupState(s: OverlayState): OverlayState {
    s.(pending := Cancel(s.pending, s.tracked), tracked := [])
  }

  /** The four tracked timers an effect run at `now` sets, with ids from `n`. */
  function Schedule(n: nat, now: int): seq<Timer> {
    [Timer(n, now + FOUND_AT, SetPhase(Found)),
     Timer(n + 1, now + CONNECTING_AT, SetPhase(Connecting)),
     Timer(n + 2, now + CONNECTED_AT, SetPhase(Connected)),
     Timer(n + 3, now + EXIT_AT, BeginExit)]
  }

  /**
   * One run of the effect at time `now`: the previous run's cleanup, then either
   * the reset (not visible, or no agent; no cleanup is left behind) or the four
   * tracked timers.
   */
  function EffectState(s: OverlayState, visible: bool, hasAgent: bool, now: int): OverlayState {
    var c := CleanupState(s);
    if !Rendered(visible, hasAgent) then c.(phase := Analyzing, isExiting := false)
    else
      var n := c.nextId;
      c.(pending := c.pending + Schedule(n, now), tracked := [n, n + 1, n + 2, n + 3], nextId := n + 4)
  }

  /** Fire the earliest pending timer; says whether `onComplete` was called. */
  function FireState(s: OverlayState): (r: (OverlayState, bool))
    requires s.pending != []
  {
    var i := Earliest(s.pending);
    var t := s.pending[i];
    var s1 := s.(pending := RemoveAt(s.pending, i));
    match t.action
    case SetPhase(p) => (s1.(phase := p), false)
    case BeginExit =>
      (s1.(isExiting := true,
           pending := s1.pending + [Timer(s.nextId, t.due + COMPLETE_DELAY, Complete)],
           nextId := s.nextId + 1), false)
    case Complete => (s1, true)
  }

  /** Each exit timer may still add one completion timer. */
  function Weight(q: seq<Timer>): nat {
    if q == [] then 0 else (if q[0].action.BeginExit? then 2 else 1) + Weight(q[1..])
  }

  lemma {:induction false} WeightConcat(a: seq<Timer>, b: seq<Timer>)
    ensures Weight(a + b) == Weight(a) + Weight(b)
  {
    if a == [] {
      assert a + b == b;
    } else {
      assert (a + b)[0] == a[0];
      assert (a + b)[1..] == a[1..] + b;
      WeightConcat(a[1..], b);
    }
  }

  lemma FireLighter(s: OverlayState)
    requires s.pending != []
    ensures Weight(FireState(s).0.pending) < Weight(s.pending)
  {
    var q := s.pending;
    var i := Earliest(q);
    assert q == q[..i] + [q[i]] + q[i + 1..];
    WeightConcat(q[..i] + [q[i]], q[i + 1..]);
    WeightConcat(q[..i], [q[i]]);
    WeightConcat(q[..i], q[i + 1..]);
    if q[i].action.BeginExit? {
      WeightConcat(RemoveAt(q, i), [Timer(s.nextId, q[i].due + COMPLETE_DELAY, Complete)]);
    }
  }

  /** Let time run until `t`: fire every timer due by then; counts the `onComplete` calls. */
  function RunUntil(s: OverlayState, t: int): (OverlayState, nat)
    decreases Weight(s.pending)
  {
    if s.pending != [] && s.pending[Earliest(s.pending)].due <= t then
      FireLighter(s);
      var f := FireState(s);
      var rest := RunUntil(f.0, t);
      (rest.0, rest.1 + (if f.1 then 1 else 0))
    else (s, 0)
  }

  /** A state with no timer left: the overlay is idle. */
  predicate Quiet(s: OverlayState) {
    s.pending == []
  }

  /** Running `s` until `t` ends in state `r.0` after `r.1` calls of `onComplete`. */
  predicate RunsTo(s: OverlayState, t: int, r: (OverlayState, nat)) {
    RunUntil(s, t) == r
  }

  /** A due timer fires, and the run goes on from the state it leaves. */
  lemma RunStep(s: OverlayState, t: int)
    requires s.pending != [] && s.pending[Earliest(s.pending)].due <= t
    ensures RunUntil(s, t).0 == RunUntil(FireState(s).0, t).0
    ensures RunUntil(s, t).1 == RunUntil(FireState(s).0, t).1 + (if FireState(s).1 then 1 else 0)
  {
  }

  /** With no timer due, the run stops where it is. */
  lemma RunStop(s: OverlayState, t: int)
    requires s.pending == [] || s.pending[Earliest(s.pending)].due > t
    ensures RunUntil(s, t) == (s, 0)
  {
  }

  /** Starting from an idle overlay, the effect sets exactly the four tracked timers. */
  lemma StartFromQuiet(s: OverlayState, t0: int)
    requires Quiet(s)
    ensures EffectState(s, true, true, t0)
            == s.(pending := Schedule(s.nextId, t0), tracked := Ids(s.nextId), nextId := s.nextId + 4)
  {
    assert Cancel([], s.tracked) == [];
  }

  function Ids(n: nat): seq<nat> {
    [n, n + 1, n + 2, n + 3]
  }

  /** The phase the k-th phase timer of the schedule sets. */
  function PhaseOfStep(k: nat): Phase {
    if k == 0 then Found else if k == 1 then Connecting else Connected
  }

  /** The first three timers of the schedule each advance the phase. */
  lemma FirePhaseStep(s: OverlayState, n: nat, t0: int, k: nat)
    requires k < 3 && s.pending == Schedule(n, t0)[k..]
    ensures Earliest(s.pending) == 0 && s.pending[0].due == t0 + FOUND_AT * (k + 1)
    ensures FireState(s) == (s.(pending := Schedule(n, t0)[k + 1..], phase := PhaseOfStep(k)), false)
  {
    var q := s.pending;
    assert forall j | 0 <= j < |q| :: q[0].due <= q[j].due;
    assert RemoveAt(q, 0) == q[1..] == Schedule(n, t0)[k + 1..];
  }

  /** The fourth timer begins the exit and sets the untracked completion timer. */
  lemma FireExitStep(s: OverlayState, n: nat, t0: int)
    requires s.pending == Schedule(n, t0)[3..]
    ensures Earliest(s.pending) == 0 && s.pending[0].due == t0 + EXIT_AT
    ensures FireState(s) == (s.(pending := [Timer(s.nextId, t0 + EXIT_AT + COMPLETE_DELAY, Complete)],
                                isExiting := true, nextId := s.nextId + 1), false)
  {
    var tx := Timer(n + 3, t0 + EXIT_AT, BeginExit);
    assert s.pending == [tx];
    assert Earliest(s.pending) == 0;
    assert RemoveAt(s.pending, 0) == [];
    var tk := Timer(s.nextId, t0 + EXIT_AT + COMPLETE_DELAY, Complete);
    assert FireState(s).0.pending == [] + [tk];
    assert [] + [tk] == [tk];
    assert FireState(s).0.isExiting && FireState(s).0.nextId == s.nextId + 1;
    assert FireState(s).0.phase == s.phase && FireState(s).0.tracked == s.tracked;
    assert !FireState(s).1;
  }

  /** The completion timer calls `onComplete` and leaves the queue empty. */
  lemma FireCompleteStep(s: OverlayState, tk: Timer)
    requires s.pending == [tk] && tk.action == Complete
    ensures Earliest(s.pending) == 0
    ensures FireState(s) == (s.(pending := []), true)
  {
    assert RemoveAt(s.pending, 0) == [];
  }

  /** Running past a phase timer of the schedule is running from the state it leaves. */
  lemma RunPastPhaseStep(s: OverlayState, n: nat, t0: int, k: nat, t: int)
    requires k < 3 && s.pending == Schedule(n, t0)[k..] && t0 + FOUND_AT * (k + 1) <= t
    ensures RunUntil(s, t) == RunUntil(s.(pending := Schedule(n, t0)[k + 1..], phase := PhaseOfStep(k)), t)
  {
    FirePhaseStep(s, n, t0, k);
    RunStep(s, t);
  }

  lemma RunPastExitStep(s: OverlayState, n: nat, t0: int, t: int)
    requires s.pending == Schedule(n, t0)[3..] && t0 + EXIT_AT <= t
    ensures RunUntil(s, t) == RunUntil(s.(pending := [Timer(s.nextId, t0 + EXIT_AT + COMPLETE_DELAY, Complete)],
                                          isExiting := true, nextId := s.nextId + 1), t)
  {
    FireExitStep(s, n, t0);
    RunStep(s, t);
  }

  lemma RunPastCompleteStep(s: OverlayState, tk: Timer, t: int)
    requires s.pending == [tk] && tk.action == Complete && tk.due <= t
    ensures RunUntil(s, t) == (s.(pending := []), 1)
  {
    FireCompleteStep(s, tk);
    RunStep(s, t);
    RunStop(s.(pending := []), t);
  }

  lemma RunStopsBeforePhaseStep(s: OverlayState, n: nat, t0: int, k: nat, t: int)
    requires k < 4 && s.pending == Schedule(n, t0)[k..] && t < t0 + FOUND_AT * (k + 1) && t < t0 + EXIT_AT
    ensures RunUntil(s, t) == (s, 0)
  {
    var q := s.pending;
    assert forall j | 0 <= j < |q| :: q[0].due <= q[j].due;
    RunStop(s, t);
  }

  /** How far into the schedule the timers of a started effect have fired. */
  function Stage(e: OverlayState, n: nat, t0: int, k: nat): OverlayState
    requires k <= 5
  {
    if k == 0 then e.(pending := Schedule(n, t0)[0..])
    else if k <= 3 then e.(pending := Schedule(n, t0)[k..], phase := PhaseOfStep(k - 1))
    else if k == 4 then
      e.(pending := [Timer(e.nextId, t0 + EXIT_AT + COMPLETE_DELAY, Complete)],
         phase := Connected, isExiting := true, nextId := e.nextId + 1)
    else e.(pending := [], phase := Connected, isExiting := true, nextId := e.nextId + 1)
  }

  /** How many of the five timers (four tracked, one untracked) are due `elapsed` ms after the start. */
  function Reached(elapsed: int): (k: nat)
    ensures k <= 5
  {
    if elapsed < FOUND_AT then 0
    else if elapsed < CONNECTING_AT then 1
    else if elapsed < CONNECTED_AT then 2
    else if elapsed < EXIT_AT then 3
    else if elapsed < EXIT_AT + COMPLETE_DELAY then 4
    else 5
  }

  /** The due time of the next timer at stage `k`, relative to the start. */
  function NextDue(k: nat): int
    requires k < 5
  {
    if k < 3 then FOUND_AT * (k + 1) else if k == 3 then EXIT_AT else EXIT_AT + COMPLETE_DELAY
  }

  /** Once the exit timer is due, running from stage 3 ends where running from stage 4 does. */
  lemma StageExitStep(e: OverlayState, n: nat, t0: int, t: int, r: (OverlayState, nat))
    requires t0 + EXIT_AT <= t
    requires RunsTo(Stage(e, n, t0, 4), t, r)
    ensures RunsTo(Stage(e, n, t0, 3), t, r)
  {
    RunPastExitStep(Stage(e, n, t0, 3), n, t0, t);
  }

  /** Once the completion timer is due, stage 4 fires it, calling `onComplete` once, and stage 5 is idle. */
  lemma StageCompleteStep(e: OverlayState, n: nat, t0: int, t: int)
    requires t0 + EXIT_AT + COMPLETE_DELAY <= t
    ensures RunUntil(Stage(e, n, t0, 4), t) == (Stage(e, n, t0, 5), 1)
    ensures RunUntil(Stage(e, n, t0, 5), t) == (Stage(e, n, t0, 5), 0)
  {
    var s4 := Stage(e, n, t0, 4);
    RunPastCompleteStep(s4, s4.pending[0], t);
    RunStop(Stage(e, n, t0, 5), t);
  }

  /** Once phase timer `k` is due, running from stage `k` ends where running from the next stage does. */
  lemma StagePhaseStep(e: OverlayState, n: nat, t0: int, k: nat, next: nat, t: int, r: (OverlayState, nat))
    requires k <= 2 && next == k + 1 && t0 + FOUND_AT * next <= t
    requires RunsTo(Stage(e, n, t0, next), t, r)
    ensures RunsTo(Stage(e, n, t0, k), t, r)
  {
    RunPastPhaseStep(Stage(e, n, t0, k), n, t0, k, t);
  }

  /** Before the next timer of a stage is due, running changes nothing. */
  lemma StageStop(e: OverlayState, n: nat, t0: int, k: nat, t: int)
    requires k <= 5 && (k < 5 ==> t < t0 + NextDue(k))
    ensures RunsTo(Stage(e, n, t0, k), t, (Stage(e, n, t0, k), 0))
  {
    var sk := Stage(e, n, t0, k);
    if k <= 3 {
      RunStopsBeforePhaseStep(sk, n, t0, k, t);
    } else {
      RunStop(sk, t);
    }
  }

  /** Where the run from a started schedule ends `elapsed` ms later, and how often `onComplete` was called. */
  function Final(e: OverlayState, n: nat, t0: int, elapsed: int): (OverlayState, nat) {
    (Stage(e, n, t0, Reached(elapsed)), if elapsed >= EXIT_AT + COMPLETE_DELAY then 1 else 0)
  }

  // Running until `t0 + elapsed` from stage k ends at the stage `elapsed` reaches.

  lemma RunFromStage0(e: OverlayState, n: nat, t0: int, elapsed: int)
    ensures RunsTo(Stage(e, n, t0, 0), t0 + elapsed, Final(e, n, t0, elapsed))
  {
    ReachedBounds(0, elapsed);
    if Reached(elapsed) == 0 {
      StageStop(e, n, t0, 0, t0 + elapsed);
    } else {
      RunFromStage1(e, n, t0, elapsed);
      StagePhaseStep(e, n, t0, 0, 1, t0 + elapsed, Final(e, n, t0, elapsed));
    }
  }

  lemma RunFromStage1(e: OverlayState, n: nat, t0: int, elapsed: int)
    requires 1 <= Reached(elapsed)
    ensures RunsTo(Stage(e, n, t0, 1), t0 + elapsed, Final(e, n, t0, elapsed))
  {
    ReachedBounds(1, elapsed);
    if Reached(elapsed) == 1 {
      StageStop(e, n, t0, 1, t0 + elapsed);
    } else {
      RunFromStage2(e, n, t0, elapsed);
      StagePhaseStep(e, n, t0, 1, 2, t0 + elapsed, Final(e, n, t0, elapsed));
    }
  }

  lemma RunFromStage2(e: OverlayState, n: nat, t0: int, elapsed: int)
    requires 2 <= Reached(elapsed)
    ensures RunsTo(Stage(e, n, t0, 2), t0 + elapsed, Final(e, n, t0, elapsed))
  {
    ReachedBounds(2, elapsed);
    if Reached(elapsed) == 2 {
      StageStop(e, n, t0, 2, t0 + elapsed);
    } else {
      RunFromStage3(e, n, t0, elapsed);
      StagePhaseStep(e, n, t0, 2, 3, t0 + elapsed, Final(e, n, t0, elapsed));
    }
  }

  lemma RunFromStage3(e: OverlayState, n: nat, t0: int, elapsed: int)
    requires 3 <= Reached(elapsed)
    ensures RunsTo(Stage(e, n, t0, 3), t0 + elapsed, Final(e, n, t0, elapsed))
  {
    ReachedBounds(3, elapsed);
    if Reached(elapsed) == 3 {
      StageStop(e, n, t0, 3, t0 + elapsed);
    } else {
      RunFromStage4(e, n, t0, elapsed);
      StageExitStep(e, n, t0, t0 + elapsed, Final(e, n, t0, elapsed));
    }
  }

  lemma RunFromStage4(e: OverlayState, n: nat, t0: int, elapsed: int)
    requires 4 <= Reached(elapsed)
    ensures RunsTo(Stage(e, n, t0, 4), t0 + elapsed, Final(e, n, t0, elapsed))
  {
    ReachedBounds(4, elapsed);
    if Reached(elapsed) == 4 {
      StageStop(e, n, t0, 4, t0 + elapsed);
    } else {
      StageCompleteStep(e, n, t0, t0 + elapsed);
    }
  }

  /** The stage `elapsed` reaches is the first whose next timer is not yet due. */
  lemma ReachedBounds(k: nat, elapsed: int)
    requires k <= Reached(elapsed)
    ensures k < Reached(elapsed) ==> k < 5 && NextDue(k) <= elapsed
    ensures k == Reached(elapsed) && k < 5 ==> elapsed < NextDue(k)
    ensures k == Reached(elapsed) && k <= 4 ==> elapsed < EXIT_AT + COMPLETE_DELAY
    ensures k == 4 && k < Reached(elapsed) ==> elapsed >= EXIT_AT + COMPLETE_DELAY
  {
  }

  /** A freshly started schedule is stage 0. */
  lemma StartIsStageZero(e: OverlayState, n: nat, t0: int)
    requires e.pending == Schedule(n, t0)
    ensures Stage(e, n, t0, 0) == e
  {
    assert Schedule(n, t0)[0..] == Schedule(n, t0);
  }

  /** The state `elapsed` ms after a fresh start, with every timer up to then fired. */
  lemma ScheduleFollowsPhaseAt(s: OverlayState, t0: int, elapsed: int)
    requires Quiet(s) && s.phase == Analyzing && !s.isExiting
    ensures var r := RunUntil(EffectState(s, true, true, t0), t0 + elapsed);
            r.0.phase == (if elapsed < 0 then Analyzing else PhaseAt(elapsed))
            && r.0.isExiting == (elapsed >= EXIT_AT)
            && r.1 == (if elapsed >= EXIT_AT + COMPLETE_DELAY then 1 else 0)
  {
    StartFromQuiet(s, t0);
    StartIsStageZero(EffectState(s, true, true, t0), s.nextId, t0);
    RunFromStage0(EffectState(s, true, true, t0), s.nextId, t0, elapsed);
  }

  /**
   * Hiding the overlay (or unmounting it) before the exit begins cancels the
   * whole schedule: `onComplete` is never called afterwards.
   */
  lemma AbortBeforeExitNeverCompletes(s: OverlayState, t0: int, a: int, now: int, later: int)
    requires Quiet(s) && s.phase == Analyzing && !s.isExiting
    requires a < EXIT_AT
    ensures var r := RunUntil(EffectState(s, true, true, t0), t0 + a);
            var hidden := EffectState(r.0, false, true, now);
            r.1 == 0 && Quiet(hidden) && RunUntil(hidden, later) == (hidden, 0)
  {
    var n := s.nextId;
    StartFromQuiet(s, t0);
    var e := EffectState(s, true, true, t0);
    StartIsStageZero(e, n, t0);
    RunFromStage0(e, n, t0, a);
    var k := Reached(a);
    var r := Stage(e, n, t0, k);
    assert r.pending == Schedule(n, t0)[k..] && r.tracked == Ids(n);
    CancelAllTracked(r.pending, n, t0);
    var hidden := EffectState(r, false, true, now);
    RunStop(hidden, later);
  }

  /** Cancelling the four tracked ids empties any tail of the schedule. */
  lemma CancelAllTracked(q: seq<Timer>, n: nat, t0: int)
    requires exists k | 0 <= k <= 4 :: q == Schedule(n, t0)[k..]
    ensures Cancel(q, Ids(n)) == []
  {
    var k :| 0 <= k <= 4 && q == Schedule(n, t0)[k..];
    assert forall j | 0 <= j < |q| :: q[j].id in Ids(n);
    CancelEverything(q, Ids(n));
  }

  /**
   * Hiding the overlay after the exit has begun does not cancel the untracked
   * completion timer: `onComplete` is still called, once, 400 ms after the exit.
   */
  lemma AbortDuringExitStillCompletes(s: OverlayState, t0: int, a: int, now: int)
    requires Quiet(s) && s.phase == Analyzing && !s.isExiting
    requires EXIT_AT <= a < EXIT_AT + COMPLETE_DELAY
    ensures var r := RunUntil(EffectState(s, true, true, t0), t0 + a);
            var hidden := EffectState(r.0, false, true, now);
            r.1 == 0 && RunUntil(hidden, t0 + EXIT_AT + COMPLETE_DELAY).1 == 1
  {
    var n := s.nextId;
    StartFromQuiet(s, t0);
    var e := EffectState(s, true, true, t0);
    StartIsStageZero(e, n, t0);
    RunFromStage0(e, n, t0, a);
    HideDuringExit(e, n, t0, now);
  }

  /** Hiding during the exit leaves only the untracked completion timer, which still fires. */
  lemma HideDuringExit(e: OverlayState, n: nat, t0: int, now: int)
    requires e.pending == Schedule(n, t0) && e.tracked == Ids(n) && e.nextId == n + 4
    ensures RunUntil(EffectState(Stage(e, n, t0, 4), false, true, now), t0 + EXIT_AT + COMPLETE_DELAY).1 == 1
  {
    var r := Stage(e, n, t0, 4);
    var tk := Timer(n + 4, t0 + EXIT_AT + COMPLETE_DELAY, Complete);
    assert r.pending == [tk] && r.tracked == Ids(n);
    CancelNone([tk], Ids(n));
    var hidden := r.(pending := [tk], tracked := [], phase := Analyzing, isExiting := false);
    assert EffectState(r, false, true, now) == hidden;
    RunPastCompleteStep(hidden, tk, t0 + EXIT_AT + COMPLETE_DELAY);
  }

  // ---------------------------------------------------------------------------
  // Progress dots

  datatype DotStatus = Current | Done | Waiting

  /** Dot `i` of the four: the phase's own dot is current, earlier ones done, later ones waiting. */
  function DotAt(phase: Phase, i: nat): DotStatus {
    if i == PhaseIndex(phase) then Current
    else if PhaseIndex(phase) > i then Done
    else Waiting
  }

  /** Exactly one dot is current, every dot before it is done and every dot after it is waiting. */
  lemma ExactlyOneCurrentDot(phase: Phase)
    ensures exists i | 0 <= i < 4 :: DotAt(phase, i) == Current
    ensures forall i, j | 0 <= i < j < 4 :: !(DotAt(phase, i) == Current && DotAt(phase, j) == Current)
    ensures forall i, j | 0 <= i < j < 4 :: DotAt(phase, j) == Current ==> DotAt(phase, i) == Done
    ensures forall i, j | 0 <= i < j < 4 :: DotAt(phase, i) == Current ==> DotAt(phase, j) == Waiting
  {
    assert DotAt(phase, PhaseIndex(phase)) == Current;
  }

  /** A dot that is done stays done as the phase advances. */
  lemma DoneDotsStayDone(a: int, b: int, i: nat)
    requires a <= b && DotAt(PhaseAt(a), i) == Done
    ensures DotAt(PhaseAt(b), i) == Done
  {
    PhaseAtMonotone(a, b);
  }

  // ---------------------------------------------------------------------------
  // The component as an object

  /** The component's state cells and the timer queue it feeds. */
  class Overlay {
    var phase: Phase
    var isExiting: bool
    var pending: seq<Timer>
    var tracked: seq<nat>
    var nextId: nat

    function State(): OverlayState
      reads this
    {
      OverlayState(phase, isExiting, pending, tracked, nextId)
    }

    constructor ()
      ensures State() == OverlayState(Analyzing, false, [], [], 0)
    {
      phase := Analyzing;
      isExiting := false;
      pending := [];
      tracked := [];
      nextId := 0;
    }

    /** The effect's cleanup: `timers.forEach(clearTimeout)`. */
    method Cleanup()
      modifies this
      ensures State() == CleanupState(old(State()))
    {
      var timers := tracked;
      ghost var q0 := pending;
      CancelNothing(q0);
      for i := 0 to |timers|
        invariant pending == Cancel(q0, timers[..i])
        invariant phase == old(phase) && isExiting == old(isExiting) && nextId == old(nextId)
      {
        CancelOneMore(q0, timers[..i], timers[i]);
        assert timers[..i + 1] == timers[..i] + [timers[i]];
        pending := Cancel(pending, [timers[i]]);
      }
      assert timers[..|timers|] == timers;
      tracked := [];
    }

    method SetTimeout(due: int, action: Action) returns (id: nat)
      modifies this
      ensures id == old(nextId) && nextId == old(nextId) + 1
      ensures pending == old(pending) + [Timer(id, due, action)]
      ensures phase == old(phase) && isExiting == old(isExiting) && tracked == old(tracked)
    {
      id := nextId;
      pending := pending + [Timer(id, due, action)];
      nextId := nextId + 1;
    }

    /**
     * The effect, re-run whenever `isVisible`, `agent` or `onComplete` changes;
     * the conversation's completion callback gets a new identity whenever one
     * of its dependencies changes (the pending agent, the pending query and the
     * messages among them), and each such re-run is one more call of this method.
     */
    method Effect(visible: bool, hasAgent: bool, now: int)
      modifies this
      ensures State() == EffectState(old(State()), visible, hasAgent, now)
    {
      Cleanup();
      if !visible || !hasAgent {
        phase := Analyzing;
        isExiting := false;
        return;
      }
      var timers: seq<nat> := [];
      var id := SetTimeout(now + FOUND_AT, SetPhase(Found));
      timers := timers + [id];
      id := SetTimeout(now + CONNECTING_AT, SetPhase(Connecting));
      timers := timers + [id];
      id := SetTimeout(now + CONNECTED_AT, SetPhase(Connected));
      timers := timers + [id];
      id := SetTimeout(now + EXIT_AT, BeginExit);
      timers := timers + [id];
      tracked := timers;
    }

    /** The earliest timer fires; `completed` says whether it called `onComplete`. */
    method Fire() returns (completed: bool)
      requires pending != []
      modifies this
      ensures (State(), completed) == FireState(old(State()))
    {
      var i := Earliest(pending);
      var t := pending[i];
      pending := pending[..i] + pending[i + 1..];
      completed := false;
      match t.action {
        case SetPhase(p) =>
          phase := p;
        case BeginExit =>
          isExiting := true;
          var _ := SetTimeout(t.due + COMPLETE_DELAY, Complete);
        case Complete =>
          completed := true;
      }
    }
  }
}
