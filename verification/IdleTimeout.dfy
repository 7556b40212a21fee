/**
 * The idle supervisor (hooks/useIdleTimeout.ts): a state machine driven by a
 * one-second interval over integer milliseconds. It raises a warning once the
 * user has been idle for `warningTimeMs` and times the session out after
 * `timeoutMs`. Each operation takes the current time `now` as a parameter; a
 * tick of the interval is a call of `Tick`, and a cleared interval is
 * `running == false`, in which case a tick changes nothing.
 */
module IdleTimeout {
  import opened JsRuntime

  const DEFAULT_WARNING_MS: nat := 3 * 60 * 1000
  const DEFAULT_TIMEOUT_MS: nat := 5 * 60 * 1000

  /** The refs and state cells of the hook, and whether its interval is live. */
  datatype IdleState = IdleState(
    lastActivity: int,
    warningShown: bool,
    showWarning: bool,
    isTimedOut: bool,
    timeRemaining: nat,
    running: bool)

  /** Which callbacks one tick invoked: `onWarning`, `onTimeout`. */
  datatype TickEvents = TickEvents(warned: bool, timedOut: bool)

  const NO_EVENTS := TickEvents(false, false)

  /** A timed-out supervisor has stopped ticking and shows no warning; a shown warning has been recorded. */
  predicate Consistent(s: IdleState) {
    (s.isTimedOut ==> !s.running && !s.showWarning)
    && (s.showWarning ==> s.warningShown)
  }

  function Max0(x: int): nat {
    if x < 0 then 0 else x
  }

  /** `resetTimer`: the user was active at `now`. */
  function ResetState(s: IdleState, now: int, timeoutMs: nat): IdleState {
    s.(lastActivity := now, warningShown := false, showWarning := false,
       isTimedOut := false, timeRemaining := timeoutMs)
  }

  /** The exported `resetTimer` (`handleActivity`): ignored once timed out. */
  function ActivityState(s: IdleState, now: int, timeoutMs: nat): IdleState {
    if s.isTimedOut then s else ResetState(s, now, timeoutMs)
  }

  /** `dismissWarning`: hide the warning, then reset unconditionally. */
  function DismissState(s: IdleState, now: int, timeoutMs: nat): IdleState {
    ResetState(s.(showWarning := false), now, timeoutMs)
  }

  /** The effect: when disabled, clear the interval; when enabled, reset and start ticking. */
  function EffectState(s: IdleState, enabled: bool, now: int, timeoutMs: nat): IdleState {
    if !enabled then s.(running := false)
    else ResetState(s, now, timeoutMs).(running := true)
  }

  /** One run of the interval callback at time `now`; nothing happens once the interval is cleared. */
  function TickState(s: IdleState, now: int, warningTimeMs: nat, timeoutMs: nat): (r: (IdleState, TickEvents))
    ensures !s.running ==> r == (s, NO_EVENTS)
    ensures r.1.warned <==> s.running && now - s.lastActivity >= warningTimeMs && !s.warningShown
    ensures r.1.timedOut <==> s.running && now - s.lastActivity >= timeoutMs
    ensures r.1.timedOut ==> r.0.isTimedOut && !r.0.showWarning && !r.0.running
    ensures r.1.warned ==> r.0.warningShown
    ensures s.warningShown ==> r.0.warningShown
    ensures r.0.lastActivity == s.lastActivity
    ensures s.running && now >= s.lastActivity ==> r.0.timeRemaining <= timeoutMs
    ensures s.running && now - s.lastActivity >= timeoutMs ==> r.0.timeRemaining == 0
    ensures s.running ==> r.0.timeRemaining == Max0(timeoutMs - (now - s.lastActivity))
    ensures r.1.warned && !r.1.timedOut ==> r.0.showWarning
    ensures !r.1.timedOut ==> r.0.isTimedOut == s.isTimedOut && r.0.running == s.running
    ensures !r.1.warned && !r.1.timedOut ==> r.0 == s.(timeRemaining := r.0.timeRemaining)
  {
    if !s.running then (s, NO_EVENTS)
    else
      var elapsed := now - s.lastActivity;
      var s1 := s.(timeRemaining := Max0(timeoutMs - elapsed));
      var warned := elapsed >= warningTimeMs && !s1.warningShown;
      var s2 := if warned then s1.(warningShown := true, showWarning := true) else s1;
      var timedOut := elapsed >= timeoutMs;
      var s3 := if timedOut then s2.(isTimedOut := true, showWarning := false, running := false) else s2;
      (s3, TickEvents(warned, timedOut))
  }

  lemma OperationsKeepConsistent(s: IdleState, now: int, enabled: bool, warningTimeMs: nat, timeoutMs: nat)
    requires Consistent(s)
    ensures Consistent(ResetState(s, now, timeoutMs))
    ensures Consistent(ActivityState(s, now, timeoutMs))
    ensures Consistent(DismissState(s, now, timeoutMs))
    ensures Consistent(EffectState(s, enabled, now, timeoutMs))
    ensures Consistent(TickState(s, now, warningTimeMs, timeoutMs).0)
  {
  }

  /** Activity is ignored while timed out, and is a full reset otherwise; dismissing always resets. */
  lemma ActivityGuardedDismissNot(s: IdleState, now: int, timeoutMs: nat)
    ensures s.isTimedOut ==> ActivityState(s, now, timeoutMs) == s
    ensures !s.isTimedOut ==> ActivityState(s, now, timeoutMs) == ResetState(s, now, timeoutMs)
    ensures DismissState(s, now, timeoutMs) == ResetState(s, now, timeoutMs)
    ensures var d := DismissState(s, now, timeoutMs);
            !d.isTimedOut && !d.showWarning && !d.warningShown && d.timeRemaining == timeoutMs
  {
  }

  /** Ticks at the given times, counting the warnings and timeouts they raise. */
  function RunTicks(s: IdleState, times: seq<int>, warningTimeMs: nat, timeoutMs: nat): (IdleState, nat, nat)
    decreases |times|
  {
    if times == [] then (s, 0, 0)
    else
      var step := TickState(s, times[0], warningTimeMs, timeoutMs);
      var rest := RunTicks(step.0, times[1..], warningTimeMs, timeoutMs);
      (rest.0, rest.1 + (if step.1.warned then 1 else 0), rest.2 + (if step.1.timedOut then 1 else 0))
  }

  /** Between two resets the warning fires at most once, and never again once it has been shown. */
  lemma {:induction false} WarningAtMostOnce(s: IdleState, times: seq<int>, warningTimeMs: nat, timeoutMs: nat)
    ensures RunTicks(s, times, warningTimeMs, timeoutMs).1 <= (if s.warningShown then 0 else 1)
    decreases |times|
  {
    if times != [] {
      var step := TickState(s, times[0], warningTimeMs, timeoutMs);
      WarningAtMostOnce(step.0, times[1..], warningTimeMs, timeoutMs);
    }
  }

  /** The timeout fires at most once per start of the interval, and never while it is cleared. */
  lemma {:induction false} TimeoutAtMostOnce(s: IdleState, times: seq<int>, warningTimeMs: nat, timeoutMs: nat)
    ensures RunTicks(s, times, warningTimeMs, timeoutMs).2 <= (if s.running then 1 else 0)
    decreases |times|
  {
    if times != [] {
      var step := TickState(s, times[0], warningTimeMs, timeoutMs);
      TimeoutAtMostOnce(step.0, times[1..], warningTimeMs, timeoutMs);
      if step.1.timedOut {
        assert !step.0.running;
      }
    }
  }

  /** A cleared interval raises nothing and changes nothing, however many ticks would have come. */
  lemma {:induction false} StoppedIsSilent(s: IdleState, times: seq<int>, warningTimeMs: nat, timeoutMs: nat)
    requires !s.running
    ensures RunTicks(s, times, warningTimeMs, timeoutMs) == (s, 0, 0)
    decreases |times|
  {
    if times != [] {
      StoppedIsSilent(s, times[1..], warningTimeMs, timeoutMs);
    }
  }

  /** Disabling stops the interval without calling `onTimeout` or `onWarning`. */
  lemma DisableNeverTimesOut(s: IdleState, now: int, times: seq<int>, warningTimeMs: nat, timeoutMs: nat)
    ensures RunTicks(EffectState(s, false, now, timeoutMs), times, warningTimeMs, timeoutMs).1 == 0
    ensures RunTicks(EffectState(s, false, now, timeoutMs), times, warningTimeMs, timeoutMs).2 == 0
  {
    StoppedIsSilent(EffectState(s, false, now, timeoutMs), times, warningTimeMs, timeoutMs);
  }

  /**
   * Enabling resets first: a tick before `warningTimeMs` has passed since
   * enabling raises nothing, and one at or after `timeoutMs` raises the timeout.
   */
  lemma EnableStartsFresh(s: IdleState, now: int, t: int, warningTimeMs: nat, timeoutMs: nat)
    ensures var e := EffectState(s, true, now, timeoutMs);
            e.running && !e.isTimedOut && !e.warningShown && e.timeRemaining == timeoutMs
    ensures t - now < warningTimeMs && t - now < timeoutMs ==>
              TickState(EffectState(s, true, now, timeoutMs), t, warningTimeMs, timeoutMs).1 == NO_EVENTS
    ensures t - now >= timeoutMs ==>
              TickState(EffectState(s, true, now, timeoutMs), t, warningTimeMs, timeoutMs).1.timedOut
  {
  }

  // ---------------------------------------------------------------------------
  // The hook as an object

  /** The hook's refs and state cells, updated in place by its callbacks and interval. */
  class IdleSupervisor {
    const warningTimeMs: nat
    const timeoutMs: nat
    var lastActivity: int
    var warningShown: bool
    var showWarning: bool
    var isTimedOut: bool
    var timeRemaining: nat
    var running: bool

    function State(): IdleState
      reads this
    {
      IdleState(lastActivity, warningShown, showWarning, isTimedOut, timeRemaining, running)
    }

    ghost predicate Valid()
      reads this
    {
      Consistent(State())
    }

    /** The hook's initial state at mount time `now`, before its effect has run. */
    constructor (warningTimeMs: nat, timeoutMs: nat, now: int)
      ensures Valid()
      ensures this.warningTimeMs == warningTimeMs && this.timeoutMs == timeoutMs
      ensures State() == IdleState(now, false, false, false, timeoutMs, false)
    {
      this.warningTimeMs := warningTimeMs;
      this.timeoutMs := timeoutMs;
      lastActivity := now;
      warningShown := false;
      showWarning := false;
      isTimedOut := false;
      timeRemaining := timeoutMs;
      running := false;
    }

    method ResetTimer(now: int)
      requires Valid()
      modifies this
      ensures Valid()
      ensures State() == ResetState(old(State()), now, timeoutMs)
    {
      lastActivity := now;
      warningShown := false;
      showWarning := false;
      isTimedOut := false;
      timeRemaining := timeoutMs;
    }

    method HandleActivity(now: int)
      requires Valid()
      modifies this
      ensures Valid()
      ensures State() == ActivityState(old(State()), now, timeoutMs)
    {
      if !isTimedOut {
        ResetTimer(now);
      }
    }

    method DismissWarning(now: int)
      requires Valid()
      modifies this
      ensures Valid()
      ensures State() == DismissState(old(State()), now, timeoutMs)
    {
      showWarning := false;
      ResetTimer(now);
    }

    /** The effect, re-run whenever `enabled` changes: the previous interval is cleared first. */
    method Effect(enabled: bool, now: int)
      requires Valid()
      modifies this
      ensures Valid()
      ensures State() == EffectState(old(State()), enabled, now, timeoutMs)
    {
      running := false;
      if enabled {
        ResetTimer(now);
        running := true;
      }
    }

    method Tick(now: int) returns (events: TickEvents)
      requires Valid()
      modifies this
      ensures Valid()
      ensures (State(), events) == TickState(old(State()), now, warningTimeMs, timeoutMs)
    {
      events := NO_EVENTS;
      if !running {
        return;
      }
      var elapsed := now - lastActivity;
      timeRemaining := Max0(timeoutMs - elapsed);
      if elapsed >= warningTimeMs && !warningShown {
        warningShown := true;
        showWarning := true;
        events := events.(warned := true);
      }
      if elapsed >= timeoutMs {
        isTimedOut := true;
        showWarning := false;
        events := events.(timedOut := true);
        running := false;
      }
    }
  }

  // ---------------------------------------------------------------------------
  // formatTimeRemaining

  /** `M:SS` of the remaining time rounded up to whole seconds. */
  function FormatTimeRemaining(ms: nat): string {
    var seconds := CeilSeconds(ms);
    NatToString(seconds / 60) + ":" + PadTwo(NatToString(seconds % 60))
  }

  /**
   * The text reads back as minutes, a colon and exactly two digits of seconds
   * below 60, which together give the remaining time rounded up to the second.
   */
  lemma FormatTimeRemainingReadsBack(ms: nat)
    ensures var f := FormatTimeRemaining(ms);
            var m := NatToString(CeilSeconds(ms) / 60);
            |f| == |m| + 3 && f[..|m|] == m && f[|m|] == ':'
            && AllDigits(f[|m| + 1..])
            && DigitsValue(f[|m| + 1..]) < 60
            && DigitsValue(m) * 60 + DigitsValue(f[|m| + 1..]) == CeilSeconds(ms)
  {
    var seconds := CeilSeconds(ms);
    var m := NatToString(seconds / 60);
    var ss := PadTwo(NatToString(seconds % 60));
    var f := FormatTimeRemaining(ms);
    PadTwoValue(seconds % 60);
    NatToStringRoundTrip(seconds / 60);
    assert f == m + ":" + ss;
    assert f[|m| + 1..] == ss;
  }

  /** The full default timeout renders as "5:00", and a single millisecond as "0:01". */
  lemma FormatExamples()
    ensures FormatTimeRemaining(DEFAULT_TIMEOUT_MS) == "5:00"
    ensures FormatTimeRemaining(1) == "0:01"
  {
    assert NatToString(5) == "5";
    assert NatToString(0) == "0";
    assert NatToString(1) == "1";
    assert PadTwo("0") == "00";
    assert PadTwo("1") == "01";
  }
}
