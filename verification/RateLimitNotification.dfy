/**
 * The rate-limit banner (components/RateLimitNotification.tsx): a countdown
 * to the reset time, refreshed once a second, and the card that shows the
 * limit's title, its message and a tip or an upgrade offer.
 */
module RateLimitNotification {
  import opened JsRuntime
  import opened ChatTypes

  const MS_PER_HOUR: nat := 3600000
  const MS_PER_MINUTE: nat := 60000
  const MS_PER_SECOND: nat := 1000

  const READY := "Ready to resume"
  const FALLBACK_MESSAGE := "You have reached your API usage limit. Please wait before sending more messages."
  const TIP_PREFIX := "You can send your next message in "

  const DAILY_LABEL := "Daily Limit Reached"
  const PER_MINUTE_LABEL := "Rate Limit (Per Minute)"
  const TOKEN_LABEL := "Token Limit (Per Minute)"
  const GENERIC_LABEL := "Rate Limit Reached"

  /** Whole hours, minutes and seconds of a remaining time. */
  datatype Breakdown = Breakdown(hours: nat, minutes: nat, seconds: nat)

  /** The number of milliseconds a breakdown stands for, before the dropped fraction of a second. */
  function BreakdownMs(b: Breakdown): nat {
    b.hours * MS_PER_HOUR + b.minutes * MS_PER_MINUTE + b.seconds * MS_PER_SECOND
  }

  /** The time a breakdown stands for, in whole seconds. */
  function BreakdownSeconds(b: Breakdown): nat {
    b.hours * 3600 + b.minutes * 60 + b.seconds
  }

  lemma SmallMultipleIsZero(k: int, d: int)
    requires d > 0 && -d < k * d < d
    ensures k == 0
  {
  }

  /** `q * d + r` with `0 <= r < d` has quotient `q` and remainder `r`. */
  lemma DivModUnique(x: int, d: int, q: int, r: int)
    requires d > 0 && 0 <= r < d && x == q * d + r
    ensures x / d == q && x % d == r
  {
    var k := q - x / d;
    assert k * d == q * d - (x / d) * d;
    SmallMultipleIsZero(k, d);
  }

  /**
   * The floor/modulo arithmetic of the countdown: the hours, the minutes
   * below 60 and the seconds below 60 whose total lies within one second
   * below the remaining time.
   */
  function Decompose(diff: int): (b: Breakdown)
    requires diff > 0
    ensures b.minutes < 60 && b.seconds < 60
    ensures BreakdownMs(b) <= diff < BreakdownMs(b) + MS_PER_SECOND
  {
    var hours := diff / MS_PER_HOUR;
    var minutes := (diff % MS_PER_HOUR) / MS_PER_MINUTE;
    var seconds := (diff % MS_PER_MINUTE) / MS_PER_SECOND;
    var r1 := diff % MS_PER_HOUR;
    var r2 := r1 % MS_PER_MINUTE;
    assert r1 == minutes * MS_PER_MINUTE + r2;
    assert diff == (hours * 60 + minutes) * MS_PER_MINUTE + r2;
    DivModUnique(diff, MS_PER_MINUTE, hours * 60 + minutes, r2);
    assert r2 == seconds * MS_PER_SECOND + r2 % MS_PER_SECOND;
    Breakdown(hours, minutes, seconds)
  }

  /** The whole seconds of a breakdown are the whole seconds of the time it came from. */
  lemma BreakdownSecondsFloor(diff: int, b: Breakdown)
    requires b.minutes < 60 && b.seconds < 60
    requires BreakdownMs(b) <= diff < BreakdownMs(b) + MS_PER_SECOND
    ensures BreakdownSeconds(b) == diff / MS_PER_SECOND
  {
    assert BreakdownMs(b) == BreakdownSeconds(b) * MS_PER_SECOND;
    DivModUnique(diff, MS_PER_SECOND, BreakdownSeconds(b), diff - BreakdownMs(b));
  }

  /** Only one breakdown fits a remaining time: `Decompose` is the one. */
  lemma DecomposeUnique(diff: int, b: Breakdown)
    requires diff > 0
    requires b.minutes < 60 && b.seconds < 60
    requires BreakdownMs(b) <= diff < BreakdownMs(b) + MS_PER_SECOND
    ensures Decompose(diff) == b
  {
    var d := Decompose(diff);
    BreakdownSecondsFloor(diff, b);
    BreakdownSecondsFloor(diff, d);
    var t := diff / MS_PER_SECOND;
    DivModUnique(t, 3600, b.hours, b.minutes * 60 + b.seconds);
    DivModUnique(t, 3600, d.hours, d.minutes * 60 + d.seconds);
    DivModUnique(b.minutes * 60 + b.seconds, 60, b.minutes, b.seconds);
    DivModUnique(d.minutes * 60 + d.seconds, 60, d.minutes, d.seconds);
  }

  /**
   * The countdown text for `diff` milliseconds left: "Ready to resume" once
   * nothing is left, otherwise the breakdown starting at its largest
   * non-zero unit, down to whole seconds.
   */
  function CountdownText(diff: int): (r: string)
    ensures r == READY <==> diff <= 0
    ensures diff > 0 ==> |r| >= 2 && r[|r| - 1] == 's'
  {
    if diff <= 0 then READY
    else
      var b := Decompose(diff);
      var text :=
        if b.hours > 0 then
          NatToString(b.hours) + "h " + NatToString(b.minutes) + "m " + NatToString(b.seconds) + "s"
        else if b.minutes > 0 then
          NatToString(b.minutes) + "m " + NatToString(b.seconds) + "s"
        else
          NatToString(b.seconds) + "s";
      assert text[|text| - 1] == 's' != READY[|READY| - 1];
      text
  }

  /** A unit letter of the countdown. */
  predicate IsUnit(c: char) {
    c == 'h' || c == 'm' || c == 's'
  }

  /** One `<digits><unit>` piece of a countdown text. */
  datatype Piece = Piece(digits: string, unit: char)

  /** What one piece stands for, in seconds. */
  function PieceSeconds(p: Piece): nat {
    if !AllDigits(p.digits) then 0
    else if p.unit == 'h' then DigitsValue(p.digits) * 3600
    else if p.unit == 'm' then DigitsValue(p.digits) * 60
    else if p.unit == 's' then DigitsValue(p.digits)
    else 0
  }

  /** The seconds all pieces stand for together. */
  function TotalSeconds(ps: seq<Piece>): nat {
    if ps == [] then 0 else PieceSeconds(ps[0]) + TotalSeconds(ps[1..])
  }

  /** The end of the run of digits starting at `i`. */
  function DigitRun(t: string, i: nat): (r: nat)
    requires i <= |t|
    ensures i <= r <= |t|
    ensures forall k :: i <= k < r ==> IsDigit(t[k])
    ensures r < |t| ==> !IsDigit(t[r])
    decreases |t| - i
  {
    if i < |t| && IsDigit(t[i]) then DigitRun(t, i + 1) else i
  }

  /** A piece at the start of `t`, and the text after its unit letter. */
  datatype Segment = Segment(piece: Piece, rest: string)

  function ReadSegment(t: string): (r: Option<Segment>)
    ensures r.Some? ==> |r.value.rest| < |t|
  {
    var n := DigitRun(t, 0);
    if n == 0 || n == |t| || !IsUnit(t[n]) then None
    else Some(Segment(Piece(t[..n], t[n]), t[n + 1..]))
  }

  /**
   * Reads a countdown text back into its pieces: one or more
   * `<digits><unit>` pieces separated by single spaces; None for anything
   * else.
   */
  function ReadCountdown(t: string): Option<seq<Piece>>
    decreases |t|
  {
    var seg := ReadSegment(t);
    if seg.None? then None
    else if seg.value.rest == [] then Some([seg.value.piece])
    else if seg.value.rest[0] != ' ' then None
    else
      var more := ReadCountdown(seg.value.rest[1..]);
      if more.None? then None else Some([seg.value.piece] + more.value)
  }

  lemma {:induction false} DigitRunStops(d: string, u: char, rest: string, i: nat)
    requires AllDigits(d) && !IsDigit(u) && i <= |d|
    ensures DigitRun(d + [u] + rest, i) == |d|
    decreases |d| - i
  {
    var t := d + [u] + rest;
    if i < |d| {
      assert t[i] == d[i];
      DigitRunStops(d, u, rest, i + 1);
    } else {
      assert t[i] == u;
    }
  }

  lemma ReadsSegment(d: string, u: char, rest: string)
    requires d != [] && AllDigits(d) && IsUnit(u)
    ensures ReadSegment(d + [u] + rest) == Some(Segment(Piece(d, u), rest))
  {
    var t := d + [u] + rest;
    DigitRunStops(d, u, rest, 0);
    assert t[..|d|] == d;
    assert t[|d|] == u;
    assert t[|d| + 1..] == rest;
  }

  /** A last piece reads back as itself. */
  lemma ReadsLast(d: string, u: char)
    requires d != [] && AllDigits(d) && IsUnit(u)
    ensures ReadCountdown(d + [u]) == Some([Piece(d, u)])
  {
    ReadsSegment(d, u, []);
    assert d + [u] + [] == d + [u];
  }

  /** A piece, a space and a readable rest read back as the piece before the rest's pieces. */
  lemma ReadsMore(d: string, u: char, rest: string)
    requires d != [] && AllDigits(d) && IsUnit(u) && ReadCountdown(rest).Some?
    ensures ReadCountdown(d + [u] + ([' '] + rest)) == Some([Piece(d, u)] + ReadCountdown(rest).value)
  {
    ReadsSegment(d, u, [' '] + rest);
    assert ([' '] + rest)[1..] == rest;
  }

  lemma PiecesOfNumbers(h: nat, m: nat, s: nat)
    ensures PieceSeconds(Piece(NatToString(h), 'h')) == h * 3600
    ensures PieceSeconds(Piece(NatToString(m), 'm')) == m * 60
    ensures PieceSeconds(Piece(NatToString(s), 's')) == s
  {
    NatToStringRoundTrip(h);
    NatToStringRoundTrip(m);
    NatToStringRoundTrip(s);
  }

  lemma TotalOfOne(a: Piece)
    ensures TotalSeconds([a]) == PieceSeconds(a)
  {
    assert [a][1..] == [];
  }

  lemma TotalOfTwo(a: Piece, b: Piece)
    ensures TotalSeconds([a, b]) == PieceSeconds(a) + PieceSeconds(b)
  {
    assert [a, b][1..] == [b];
    TotalOfOne(b);
  }

  lemma TotalOfThree(a: Piece, b: Piece, c: Piece)
    ensures TotalSeconds([a, b, c]) == PieceSeconds(a) + PieceSeconds(b) + PieceSeconds(c)
  {
    assert [a, b, c][1..] == [b, c];
    TotalOfTwo(b, c);
  }

  lemma PrependTwo(a: Piece, b: Piece, c: Piece)
    ensures [a] + [b, c] == [a, b, c]
  {
  }

  lemma ReadsTwo(ms: string, ss: string)
    requires ms != [] && ss != [] && AllDigits(ms) && AllDigits(ss)
    ensures ReadCountdown(ms + "m " + ss + "s") == Some([Piece(ms, 'm'), Piece(ss, 's')])
  {
    ReadsLast(ss, 's');
    ReadsMore(ms, 'm', ss + "s");
    assert ms + "m " + ss + "s" == ms + ['m'] + ([' '] + (ss + "s"));
    assert [Piece(ms, 'm')] + [Piece(ss, 's')] == [Piece(ms, 'm'), Piece(ss, 's')];
  }

  lemma SplitAfterHours(hs: string, ms: string, ss: string)
    ensures hs + "h " + ms + "m " + ss + "s" == hs + ['h'] + ([' '] + (ms + "m " + ss + "s"))
  {
  }

  lemma ReadsThree(hs: string, ms: string, ss: string)
    requires hs != [] && ms != [] && ss != [] && AllDigits(hs) && AllDigits(ms) && AllDigits(ss)
    ensures ReadCountdown(hs + "h " + ms + "m " + ss + "s") == Some([Piece(hs, 'h'), Piece(ms, 'm'), Piece(ss, 's')])
  {
    ReadsTwo(ms, ss);
    ReadsMore(hs, 'h', ms + "m " + ss + "s");
    SplitAfterHours(hs, ms, ss);
    PrependTwo(Piece(hs, 'h'), Piece(ms, 'm'), Piece(ss, 's'));
  }

  /**
   * The countdown text reads back as pieces that together give the whole
   * seconds remaining, with the hours piece present exactly from one hour
   * and the minutes piece exactly from one minute.
   */
  lemma CountdownReadsBack(diff: int)
    requires diff > 0
    ensures ReadCountdown(CountdownText(diff)).Some?
    ensures TotalSeconds(ReadCountdown(CountdownText(diff)).value) == diff / MS_PER_SECOND
    ensures |ReadCountdown(CountdownText(diff)).value| == (if diff >= MS_PER_HOUR then 3 else if diff >= MS_PER_MINUTE then 2 else 1)
  {
    var b := Decompose(diff);
    BreakdownSecondsFloor(diff, b);
    var hs, ms, ss := NatToString(b.hours), NatToString(b.minutes), NatToString(b.seconds);
    PiecesOfNumbers(b.hours, b.minutes, b.seconds);
    if b.hours > 0 {
      ReadsThree(hs, ms, ss);
      TotalOfThree(Piece(hs, 'h'), Piece(ms, 'm'), Piece(ss, 's'));
    } else if b.minutes > 0 {
      ReadsTwo(ms, ss);
      TotalOfTwo(Piece(ms, 'm'), Piece(ss, 's'));
    } else {
      ReadsLast(ss, 's');
      TotalOfOne(Piece(ss, 's'));
    }
  }

  /** A rendered number starts with '0' only when it is zero. */
  lemma LeadingZeroOnlyForZero(n: nat)
    ensures NatToString(n)[0] == '0' <==> n == 0
  {
    if n >= 10 {
      assert NatToString(n)[0] == NatToString(n / 10)[0];
    }
  }

  /**
   * The leading figure of the countdown is zero only in the last second, and
   * that last second shows as "0s".
   */
  lemma CountdownLeadsWithNonZero(diff: int)
    requires diff > 0
    ensures CountdownText(diff)[0] == '0' <==> diff < MS_PER_SECOND
    ensures diff < MS_PER_SECOND ==> CountdownText(diff) == "0s"
  {
    var b := Decompose(diff);
    BreakdownSecondsFloor(diff, b);
    LeadingZeroOnlyForZero(b.hours);
    LeadingZeroOnlyForZero(b.minutes);
    LeadingZeroOnlyForZero(b.seconds);
  }

  /** As time passes, the countdown never shows more time left. */
  lemma CountdownNeverIncreases(resetTime: int, earlier: int, later: int)
    requires earlier <= later && resetTime - later > 0
    ensures ReadCountdown(CountdownText(resetTime - later)).Some?
    ensures ReadCountdown(CountdownText(resetTime - earlier)).Some?
    ensures TotalSeconds(ReadCountdown(CountdownText(resetTime - later)).value)
            <= TotalSeconds(ReadCountdown(CountdownText(resetTime - earlier)).value)
  {
    CountdownReadsBack(resetTime - later);
    CountdownReadsBack(resetTime - earlier);
  }

  /** Once the countdown says "Ready to resume", it says so at every later instant. */
  lemma ReadyStaysReady(resetTime: int, earlier: int, later: int)
    requires earlier <= later && CountdownText(resetTime - earlier) == READY
    ensures CountdownText(resetTime - later) == READY
  {
  }

  /** The card title for a limit type. */
  function LimitTypeLabel(t: LimitType): string {
    match t
    case RPD => DAILY_LABEL
    case RPM => PER_MINUTE_LABEL
    case TPM => TOKEN_LABEL
    case Unknown => GENERIC_LABEL
  }

  /** Each limit type has its own title, so the title tells which limit was hit. */
  lemma LabelsTellLimitsApart(a: LimitType, b: LimitType)
    ensures LimitTypeLabel(a) == LimitTypeLabel(b) <==> a == b
  {
    if a != b {
      assert LimitTypeLabel(a)[..5] != LimitTypeLabel(b)[..5] || LimitTypeLabel(a)[5..] != LimitTypeLabel(b)[5..];
    }
  }

  /** What the card shows. */
  datatype Card = Card(
    title: string,
    badge: Option<string>,
    body: string,
    offersUpgrade: bool,
    tip: Option<string>)

  /**
   * The rendered card for a state and the current countdown text: nothing
   * unless limited; the countdown badge only with a reset time; the message
   * or, when it is empty, the fixed fallback; an upgrade offer for the daily
   * limit and a wait tip for the per-minute limits.
   */
  function Render(state: RateLimitState, timeRemaining: string): (r: Option<Card>)
    ensures r.None? <==> !state.isLimited
    ensures r.Some? ==>
      && r.value.title == LimitTypeLabel(state.limitType)
      && (r.value.badge.Some? <==> state.resetTime.Some?)
      && (r.value.badge.Some? ==> r.value.badge.value == timeRemaining)
      && r.value.body != []
      && (state.message != [] ==> r.value.body == state.message)
      && (state.message == [] ==> r.value.body == FALLBACK_MESSAGE)
      && (r.value.offersUpgrade <==> state.limitType == RPD)
      && (r.value.tip.Some? <==> state.limitType in {RPM, TPM})
      && (r.value.tip.Some? ==> r.value.tip.value == TIP_PREFIX + timeRemaining)
  {
    if !state.isLimited then None
    else
      Some(Card(
        LimitTypeLabel(state.limitType),
        if state.resetTime.Some? then Some(timeRemaining) else None,
        if state.message != [] then state.message else FALLBACK_MESSAGE,
        state.limitType == RPD,
        if state.limitType == RPM || state.limitType == TPM then Some(TIP_PREFIX + timeRemaining) else None))
  }

  /** The countdown text after one refresh at `now`: unchanged when there is no reset time to count to. */
  function Refreshed(state: RateLimitState, current: string, now: int): (r: string)
    ensures state.resetTime.None? ==> r == current
    ensures state.resetTime.Some? ==>
      (r == READY <==> now >= state.resetTime.value)
  {
    match state.resetTime
    case None => current
    case Some(reset) => CountdownText(reset - now)
  }

  /**
   * The component instance: the state it was given and the countdown text
   * it holds, refreshed on mount and then by a one-second interval that runs
   * only while there is a reset time.
   */
  class Countdown {
    const state: RateLimitState
    var timeRemaining: string

    /** Mounting starts from the empty text and refreshes once straight away. */
    constructor(state: RateLimitState, now: int)
      ensures this.state == state
      ensures timeRemaining == Refreshed(state, "", now)
    {
      this.state := state;
      timeRemaining := "";
      new;
      Refresh(now);
    }

    /** One run of the countdown update. */
    method Refresh(now: int)
      modifies this
      ensures timeRemaining == Refreshed(state, old(timeRemaining), now)
    {
      if state.resetTime.None? {
        return;
      }
      var diff := state.resetTime.value - now;
      if diff <= 0 {
        timeRemaining := READY;
        return;
      }
      var b := Decompose(diff);
      if b.hours > 0 {
        timeRemaining := NatToString(b.hours) + "h " + NatToString(b.minutes) + "m " + NatToString(b.seconds) + "s";
      } else if b.minutes > 0 {
        timeRemaining := NatToString(b.minutes) + "m " + NatToString(b.seconds) + "s";
      } else {
        timeRemaining := NatToString(b.seconds) + "s";
      }
    }
  }
}
