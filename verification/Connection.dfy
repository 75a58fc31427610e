/** Connecting to the message bus and staying connected: one attempt at a time, one reconnect timer
    (components/nxpod-messagebus/src/messagebus.ts). */
module Connection {
  import opened Options

  const MAX_RECONNECT_TIMEOUT_MILLIS := 10000.0

  /** What an attempt waits for: a connection, a channel, or the pause after a failed try. */
  datatype Stage = Connecting | OpeningChannel | Pausing

  /** `tries` counts the tries that are left after the current one; `timeout` is the pause between tries, and
      what close handlers that the attempt installs reconnect with. */
  datatype Attempt = Attempt(stage: Stage, tries: nat, timeout: real)

  /** Who called connect: anybody, or a reconnect timer that was set with this timeout. */
  datatype Origin = Caller | FromTimer(timeout: real)

  datatype Waiter = Waiter(attempt: nat, origin: Origin)

  datatype Timer = Timer(delay: real, timeout: real)

  /** `attempts` and `timers` are all that exist; `connectionAttempt` and `reconnectTimer` are the fields that
      remember one of them. `handlers` are the timeouts of the close handlers installed so far, on connections and
      channels that may be long gone. `lost` says that a close event has come and no channel was set since. */
  datatype State = Bus(
    connectionAttempt: Option<nat>, attempts: map<nat, Attempt>, waiters: seq<Waiter>,
    connection: bool, channel: bool, handlers: set<real>,
    reconnectTimer: Option<nat>, timers: map<nat, Timer>,
    nextId: nat, lost: bool)

  /** `random` is a value of Math.random. */
  datatype Event =
    | Connect(retries: nat, timeout: real)
    | TimerFires(timer: nat)
    | GotConnection(attempt: nat, random: real)
    | GotChannel(attempt: nat, random: real)
    | TryFails(attempt: nat)
    | PauseEnds(attempt: nat, random: real)
    | Closed(timeout: real, random: real)

  function Initial(): State {
    Bus(None, map[], [], false, false, {}, None, map[], 0, false)
  }

  function Min(a: real, b: real): real {
    if a <= b then a else b
  }

  /** The timeout plus up to ten percent, but no more than the maximum. */
  function Delay(timeout: real, random: real): real {
    Min(timeout + (random * timeout / 10.0).Floor as real, MAX_RECONNECT_TIMEOUT_MILLIS)
  }

  function Disconnected(s: State): State {
    s.(connection := false, channel := false)
  }

  function WithReconnect(s: State, timeout: real, random: real): State {
    if s.reconnectTimer.Some? then s
    else s.(reconnectTimer := Some(s.nextId),
            timers := s.timers[s.nextId := Timer(Delay(timeout, random), timeout)],
            nextId := s.nextId + 1)
  }

  /** The waiters of an attempt, and all others. */
  function WaitersOf(ws: seq<Waiter>, a: nat): (r: seq<Waiter>)
    ensures forall w :: w in r <==> w in ws && w.attempt == a
  {
    if ws == [] then [] else (if ws[0].attempt == a then [ws[0]] else []) + WaitersOf(ws[1..], a)
  }

  function OtherWaiters(ws: seq<Waiter>, a: nat): (r: seq<Waiter>)
    ensures forall w :: w in r <==> w in ws && w.attempt != a
  {
    if ws == [] then [] else (if ws[0].attempt != a then [ws[0]] else []) + OtherWaiters(ws[1..], a)
  }

  /** One caller resumes: it clears the field, and a failed reconnect is scheduled again, a little later. */
  function Wake(s: State, w: Waiter, ok: bool, random: real): State {
    var t := s.(connectionAttempt := None);
    if !ok && w.origin.FromTimer? then WithReconnect(t, w.origin.timeout * 1.1, random) else t
  }

  function WakeAll(s: State, ws: seq<Waiter>, ok: bool, random: real): State
    decreases |ws|
  {
    if ws == [] then s else WakeAll(Wake(s, ws[0], ok, random), ws[1..], ok, random)
  }

  function Leave(s: State, a: nat): State {
    s.(attempts := s.attempts - {a}, waiters := OtherWaiters(s.waiters, a))
  }

  /** An attempt ends, and everybody who waits for it resumes in the same step. */
  function Settle(s: State, a: nat, ok: bool, random: real): State {
    WakeAll(Leave(s, a), WaitersOf(s.waiters, a), ok, random)
  }

  function FirstStage(s: State): Stage {
    if !s.connection then Connecting else OpeningChannel
  }

  /** Starts an attempt, or joins the running one. With connection and channel in place, an attempt is over
      before anything else can happen. */
  function ConnectFrom(s: State, retries: nat, timeout: real, origin: Origin): State {
    if s.connectionAttempt.Some? then s.(waiters := s.waiters + [Waiter(s.connectionAttempt.value, origin)])
    else if retries > 0 && s.connection && s.channel then s
    else
      var attempt :=
        if retries == 0 then Attempt(Pausing, 0, timeout) else Attempt(FirstStage(s), retries - 1, timeout);
      s.(connectionAttempt := Some(s.nextId),
         attempts := s.attempts[s.nextId := attempt],
         waiters := s.waiters + [Waiter(s.nextId, origin)],
         nextId := s.nextId + 1)
  }

  function SetStage(s: State, a: nat, stage: Stage): State
    requires a in s.attempts
  {
    s.(attempts := s.attempts[a := s.attempts[a].(stage := stage)])
  }

  predicate InStage(s: State, a: nat, stage: Stage) {
    a in s.attempts && s.attempts[a].stage == stage
  }

  /** A channel has its close handler some time before the attempt is over. */
  predicate HasHandler(s: State, timeout: real) {
    || timeout in s.handlers
    || exists a :: a in s.attempts && s.attempts[a].stage.OpeningChannel? && s.attempts[a].timeout == timeout
  }

  predicate Enabled(s: State, e: Event) {
    match e
    case Connect(_, timeout) => timeout >= 0.0
    case TimerFires(t) => t in s.timers
    case GotConnection(a, random) => InStage(s, a, Connecting) && 0.0 <= random < 1.0
    case GotChannel(a, random) => InStage(s, a, OpeningChannel) && 0.0 <= random < 1.0
    case TryFails(a) => InStage(s, a, Connecting) || InStage(s, a, OpeningChannel)
    case PauseEnds(a, random) => InStage(s, a, Pausing) && 0.0 <= random < 1.0
    case Closed(timeout, random) => HasHandler(s, timeout) && 0.0 <= random < 1.0
  }

  function OnConnection(s: State, a: nat, random: real): State
    requires a in s.attempts
  {
    var t := s.(connection := true, handlers := s.handlers + {s.attempts[a].timeout});
    if t.channel then Settle(t, a, true, random) else SetStage(t, a, OpeningChannel)
  }

  function OnChannel(s: State, a: nat, random: real): State
    requires a in s.attempts
  {
    Settle(s.(channel := true, handlers := s.handlers + {s.attempts[a].timeout}, lost := false), a, true, random)
  }

  function OnTryFailure(s: State, a: nat): State
    requires a in s.attempts
  {
    var installed := if s.attempts[a].stage.OpeningChannel? then {s.attempts[a].timeout} else {};
    SetStage(Disconnected(s.(handlers := s.handlers + installed)), a, Pausing)
  }

  function OnPauseEnd(s: State, a: nat, random: real): State
    requires a in s.attempts
  {
    if s.attempts[a].tries == 0 then Settle(s, a, false, random)
    else if s.connection && s.channel then Settle(s, a, true, random)
    else s.(attempts := s.attempts[a := s.attempts[a].(stage := FirstStage(s), tries := s.attempts[a].tries - 1)])
  }

  function OnTimer(s: State, timer: nat): State
    requires timer in s.timers
  {
    var t := s.(reconnectTimer := None, timers := s.timers - {timer});
    ConnectFrom(t, 10, 2000.0, FromTimer(s.timers[timer].timeout))
  }

  function Next(s: State, e: Event): State
    requires Enabled(s, e)
  {
    match e
    case Connect(retries, timeout) => ConnectFrom(s, retries, timeout, Caller)
    case TimerFires(t) => OnTimer(s, t)
    case GotConnection(a, random) => OnConnection(s, a, random)
    case GotChannel(a, random) => OnChannel(s, a, random)
    case TryFails(a) => OnTryFailure(s, a)
    case PauseEnds(a, random) => OnPauseEnd(s, a, random)
    case Closed(timeout, random) => WithReconnect(Disconnected(s).(lost := true), timeout, random)
  }

  ghost predicate IsRun(s: State, run: seq<Event>)
    decreases |run|
  {
    run == [] || (Enabled(s, run[0]) && IsRun(Next(s, run[0]), run[1..]))
  }

  function After(s: State, run: seq<Event>): State
    requires IsRun(s, run)
    decreases |run|
  {
    if run == [] then s else After(Next(s, run[0]), run[1..])
  }

  // ---- Invariants ----

  function Only(o: Option<nat>): set<nat> {
    if o.Some? then {o.value} else {}
  }

  ghost predicate OneAttempt(s: State) {
    s.attempts.Keys == Only(s.connectionAttempt)
  }

  ghost predicate OneTimer(s: State) {
    s.timers.Keys == Only(s.reconnectTimer)
  }

  predicate InTime(t: Timer) {
    t.timeout >= 0.0 && Min(t.timeout, MAX_RECONNECT_TIMEOUT_MILLIS) <= t.delay <= MAX_RECONNECT_TIMEOUT_MILLIS
  }

  /** A running attempt has somebody waiting for it, and nobody waits for anything else. */
  ghost predicate Awaited(s: State) {
    && (forall w | w in s.waiters :: w.attempt in s.attempts && (w.origin.FromTimer? ==> w.origin.timeout >= 0.0))
    && (forall a | a in s.attempts :: exists w :: w in s.waiters && w.attempt == a)
  }

  ghost predicate Reconnecting(s: State) {
    s.timers != map[] || exists w :: w in s.waiters && w.origin.FromTimer?
  }

  /** No timeout is negative. */
  ghost predicate TimeoutsOk(s: State) {
    && (forall t | t in s.handlers :: t >= 0.0)
    && (forall a | a in s.attempts :: s.attempts[a].timeout >= 0.0)
  }

  ghost predicate Inv(s: State) {
    && TimeoutsOk(s)
    && OneAttempt(s)
    && OneTimer(s)
    && (forall t | t in s.timers :: InTime(s.timers[t]))
    && Awaited(s)
    && (s.lost ==> !s.channel && Reconnecting(s))
  }

  /** The sum of a timeout and its random share, cut off at the maximum, stays in the interval. */
  lemma DelayInTime(timeout: real, random: real)
    requires timeout >= 0.0 && 0.0 <= random < 1.0
    ensures InTime(Timer(Delay(timeout, random), timeout))
  {
    assert random * timeout >= 0.0;
    assert (random * timeout / 10.0).Floor >= 0;
  }

  /** The random share is a whole number of milliseconds, up to ten percent of the timeout. */
  lemma DelayShare(timeout: real, random: real) returns (share: nat)
    requires timeout >= 0.0 && 0.0 <= random < 1.0
    ensures share as real <= random * (timeout / 10.0) < share as real + 1.0
    ensures share as real <= timeout / 10.0
    ensures Delay(timeout, random) == if timeout + share as real < 10000.0 then timeout + share as real else 10000.0
  {
    assert 0.0 <= random * (timeout / 10.0) <= timeout / 10.0;
    assert random * (timeout / 10.0) == random * timeout / 10.0;
    share := (random * timeout / 10.0).Floor;
  }

  lemma ScheduleKeepsInv(s: State, timeout: real, random: real)
    requires OneTimer(s) && timeout >= 0.0 && 0.0 <= random < 1.0
    requires forall t | t in s.timers :: InTime(s.timers[t])
    ensures var t := WithReconnect(s, timeout, random);
      && OneTimer(t) && t.timers != map[]
      && (forall k | k in t.timers :: InTime(t.timers[k]))
      && t == s.(reconnectTimer := t.reconnectTimer, timers := t.timers, nextId := t.nextId)
  {
    DelayInTime(timeout, random);
    if s.reconnectTimer.Some? {
      assert s.reconnectTimer.value in s.timers;
    } else {
      assert s.timers == map[];
      assert s.nextId in WithReconnect(s, timeout, random).timers;
    }
  }

  /** Waking everybody clears the field, and leaves a timer pending if a reconnect has failed. */
  lemma {:induction false} WakeAllEffect(s: State, ws: seq<Waiter>, ok: bool, random: real)
    requires OneTimer(s) && 0.0 <= random < 1.0
    requires forall t | t in s.timers :: InTime(s.timers[t])
    requires forall w | w in ws && w.origin.FromTimer? :: w.origin.timeout >= 0.0
    ensures var t := WakeAll(s, ws, ok, random);
      && OneTimer(t)
      && (forall k | k in t.timers :: InTime(t.timers[k]))
      && t == s.(connectionAttempt := t.connectionAttempt,
                 reconnectTimer := t.reconnectTimer, timers := t.timers, nextId := t.nextId)
      && (if ws == [] then t == s else t.connectionAttempt == None)
      && (s.timers != map[] ==> t.timers != map[])
      && (!ok && (exists w :: w in ws && w.origin.FromTimer?) ==> t.timers != map[])
    decreases |ws|
  {
    if ws != [] {
      var w := ws[0];
      var u := s.(connectionAttempt := None);
      assert w in ws;
      if !ok && w.origin.FromTimer? {
        ScheduleKeepsInv(u, w.origin.timeout * 1.1, random);
      }
      WakeAllEffect(Wake(s, w, ok, random), ws[1..], ok, random);
    }
  }

  lemma SettleKeepsInv(s: State, a: nat, ok: bool, random: real)
    requires Inv(s) && a in s.attempts && 0.0 <= random < 1.0 && (ok ==> !s.lost)
    ensures Inv(Settle(s, a, ok, random))
  {
    var ws := WaitersOf(s.waiters, a);
    var w :| w in s.waiters && w.attempt == a;
    assert w in ws;
    assert s.attempts.Keys == {a};
    WakeAllEffect(Leave(s, a), ws, ok, random);
    var t := Settle(s, a, ok, random);
    assert t.attempts == map[];
    NoOtherWaiters(s.waiters, a);
    assert t.waiters == [];
    if s.lost && s.timers == map[] {
      var x :| x in s.waiters && x.origin.FromTimer?;
      assert x in ws;
    }
  }

  lemma {:induction false} NoOtherWaiters(ws: seq<Waiter>, a: nat)
    requires forall w | w in ws :: w.attempt == a
    ensures OtherWaiters(ws, a) == []
  {
    if ws != [] {
      assert ws[0] in ws;
      NoOtherWaiters(ws[1..], a);
    }
  }

  /** A further waiter for the one attempt that there is. */
  lemma WaiterKeepsInv(s: State, w: Waiter)
    requires TimeoutsOk(s) && OneAttempt(s) && OneTimer(s) && forall t | t in s.timers :: InTime(s.timers[t])
    requires w.attempt in s.attempts && (w.origin.FromTimer? ==> w.origin.timeout >= 0.0)
    requires forall x | x in s.waiters :: x.attempt in s.attempts && (x.origin.FromTimer? ==> x.origin.timeout >= 0.0)
    requires s.lost ==> !s.channel && (Reconnecting(s) || w.origin.FromTimer?)
    ensures Inv(s.(waiters := s.waiters + [w]))
  {
    var t := s.(waiters := s.waiters + [w]);
    assert w in t.waiters;
    assert t.attempts.Keys == {w.attempt};
    if s.lost && s.timers == map[] && !w.origin.FromTimer? {
      var x :| x in s.waiters && x.origin.FromTimer?;
      assert x in t.waiters;
    }
  }

  lemma ConnectKeepsInv(s: State, retries: nat, timeout: real, origin: Origin)
    requires Inv(s.(lost := false)) && timeout >= 0.0 && (origin.FromTimer? ==> origin.timeout >= 0.0)
    requires s.lost ==> !s.channel && (Reconnecting(s) || origin.FromTimer?)
    ensures Inv(ConnectFrom(s, retries, timeout, origin))
  {
    if s.connectionAttempt.Some? {
      WaiterKeepsInv(s, Waiter(s.connectionAttempt.value, origin));
    } else if !(retries > 0 && s.connection && s.channel) {
      assert s.attempts == map[];
      var attempt :=
        if retries == 0 then Attempt(Pausing, 0, timeout) else Attempt(FirstStage(s), retries - 1, timeout);
      var t := s.(connectionAttempt := Some(s.nextId),
                  attempts := s.attempts[s.nextId := attempt], nextId := s.nextId + 1);
      WaiterKeepsInv(t, Waiter(s.nextId, origin));
    }
  }

  lemma TimerKeepsInv(s: State, timer: nat)
    requires Inv(s) && timer in s.timers
    ensures Inv(OnTimer(s, timer))
  {
    var t := s.(reconnectTimer := None, timers := s.timers - {timer});
    assert t.timers == map[];
    ConnectKeepsInv(t, 10, 2000.0, FromTimer(s.timers[timer].timeout));
  }

  lemma SetStageKeepsInv(s: State, a: nat, attempt: Attempt)
    requires Inv(s) && a in s.attempts && attempt.timeout >= 0.0
    ensures Inv(s.(attempts := s.attempts[a := attempt]))
  {}

  lemma ConnectionKeepsInv(s: State, a: nat, random: real)
    requires Inv(s) && InStage(s, a, Connecting) && 0.0 <= random < 1.0
    ensures Inv(OnConnection(s, a, random))
  {
    var t := s.(connection := true, handlers := s.handlers + {s.attempts[a].timeout});
    if t.channel {
      SettleKeepsInv(t, a, true, random);
    } else {
      SetStageKeepsInv(t, a, t.attempts[a].(stage := OpeningChannel));
    }
  }

  lemma FailureKeepsInv(s: State, a: nat)
    requires Inv(s) && a in s.attempts
    ensures Inv(OnTryFailure(s, a))
  {
    var installed := if s.attempts[a].stage.OpeningChannel? then {s.attempts[a].timeout} else {};
    SetStageKeepsInv(Disconnected(s.(handlers := s.handlers + installed)), a, s.attempts[a].(stage := Pausing));
  }

  lemma PauseKeepsInv(s: State, a: nat, random: real)
    requires Inv(s) && InStage(s, a, Pausing) && 0.0 <= random < 1.0
    ensures Inv(OnPauseEnd(s, a, random))
  {
    if s.attempts[a].tries == 0 {
      SettleKeepsInv(s, a, false, random);
    } else if s.connection && s.channel {
      SettleKeepsInv(s, a, true, random);
    } else {
      SetStageKeepsInv(s, a, s.attempts[a].(stage := FirstStage(s), tries := s.attempts[a].tries - 1));
    }
  }

  lemma ClosedKeepsInv(s: State, timeout: real, random: real)
    requires Inv(s) && HasHandler(s, timeout) && 0.0 <= random < 1.0
    ensures Inv(WithReconnect(Disconnected(s).(lost := true), timeout, random))
  {
    ScheduleKeepsInv(Disconnected(s).(lost := true), timeout, random);
  }

  lemma StepKeepsInv(s: State, e: Event)
    requires Inv(s) && Enabled(s, e)
    ensures Inv(Next(s, e))
  {
    match e
    case Connect(retries, timeout) => ConnectKeepsInv(s, retries, timeout, Caller);
    case TimerFires(t) => TimerKeepsInv(s, t);
    case GotConnection(a, random) => ConnectionKeepsInv(s, a, random);
    case GotChannel(a, random) =>
      var t := s.(channel := true, handlers := s.handlers + {s.attempts[a].timeout}, lost := false);
      SettleKeepsInv(t, a, true, random);
    case TryFails(a) => FailureKeepsInv(s, a);
    case PauseEnds(a, random) => PauseKeepsInv(s, a, random);
    case Closed(timeout, random) => ClosedKeepsInv(s, timeout, random);
  }

  lemma {:induction false} RunKeepsInv(s: State, run: seq<Event>)
    requires Inv(s) && IsRun(s, run)
    ensures Inv(After(s, run))
    decreases |run|
  {
    if run != [] {
      StepKeepsInv(s, run[0]);
      RunKeepsInv(Next(s, run[0]), run[1..]);
    }
  }

  /** In every run: at most one attempt, at most one timer, each timer's delay in the interval, and after a close
      event, until the channel is set, a timer is pending or a connect that a timer started is waiting. */
  lemma ReconnectIsSafe(run: seq<Event>)
    requires IsRun(Initial(), run)
    ensures var s := After(Initial(), run);
      && |s.attempts| <= 1 && |s.timers| <= 1
      && (forall t | t in s.timers ::
            Min(s.timers[t].timeout, MAX_RECONNECT_TIMEOUT_MILLIS) <= s.timers[t].delay <= MAX_RECONNECT_TIMEOUT_MILLIS)
      && (s.lost ==> s.timers != map[] || exists w :: w in s.waiters && w.origin.FromTimer? && w.attempt in s.attempts)
  {
    RunKeepsInv(Initial(), run);
    var s := After(Initial(), run);
    assert |s.attempts| == |s.attempts.Keys| && |s.timers| == |s.timers.Keys|;
  }

  /** The timeouts of the reconnect timers among some waiters, in order. */
  function TimerTimeouts(ws: seq<Waiter>): seq<real> {
    if ws == [] then []
    else (if ws[0].origin.FromTimer? then [ws[0].origin.timeout] else []) + TimerTimeouts(ws[1..])
  }

  lemma {:induction false} WakeAllSchedules(s: State, ws: seq<Waiter>, random: real)
    requires s.reconnectTimer.Some? || TimerTimeouts(ws) != []
    ensures WakeAll(s, ws, false, random).timers
         == (if s.reconnectTimer.Some? then s else WithReconnect(s, TimerTimeouts(ws)[0] * 1.1, random)).timers
    ensures WakeAll(s, ws, false, random).reconnectTimer.Some?
    decreases |ws|
  {
    if ws != [] {
      WakeAllSchedules(Wake(s, ws[0], false, random), ws[1..], random);
    }
  }

  /** When an attempt that reconnect timers wait for has failed, whoever else waits for it, the next reconnect is
      asked for with 1.1 times the timeout of the first of them. */
  lemma FailedReconnectWaitsLonger(s: State, a: nat, random: real)
    requires OneTimer(s) && s.timers == map[]
    requires InStage(s, a, Pausing) && s.attempts[a].tries == 0 && 0.0 <= random < 1.0
    requires TimerTimeouts(WaitersOf(s.waiters, a)) != []
    ensures var timeout := TimerTimeouts(WaitersOf(s.waiters, a))[0] * 1.1;
      Next(s, PauseEnds(a, random)).timers == map[s.nextId := Timer(Delay(timeout, random), timeout)]
  {
    hide *;
    NoTimerPending(s);
    FailedSettle(s, a, random);
    LastPause(s, a, random);
  }

  lemma NoTimerPending(s: State)
    requires OneTimer(s) && s.timers == map[]
    ensures s.reconnectTimer.None?
  {
    assert Only(s.reconnectTimer) == {};
  }

  lemma LastPause(s: State, a: nat, random: real)
    requires InStage(s, a, Pausing) && s.attempts[a].tries == 0 && 0.0 <= random < 1.0
    ensures Next(s, PauseEnds(a, random)) == Settle(s, a, false, random)
  {}

  lemma FailedSettle(s: State, a: nat, random: real)
    requires s.reconnectTimer.None? && s.timers == map[] && TimerTimeouts(WaitersOf(s.waiters, a)) != []
    ensures var timeout := TimerTimeouts(WaitersOf(s.waiters, a))[0] * 1.1;
      Settle(s, a, false, random).timers == map[s.nextId := Timer(Delay(timeout, random), timeout)]
  {
    WakeAllSchedules(Leave(s, a), WaitersOf(s.waiters, a), random);
  }

  /** Waking all callers in one step matters: when a new call comes in between two callers of a settled
      attempt, the second of them clears the field of the new attempt, and the next call starts another one. */
  lemma SeparateWakesStartTwoAttempts()
    ensures var s2 := ConnectFrom(ConnectFrom(Initial(), 1, 2000.0, Caller), 1, 2000.0, Caller);
      var settled := Leave(s2, 0);
      var s4 := ConnectFrom(Wake(settled, s2.waiters[0], false, 0.0), 1, 2000.0, Caller);
      var s6 := ConnectFrom(Wake(s4, s2.waiters[1], false, 0.0), 1, 2000.0, Caller);
      s2.attempts.Keys == {0} && s2.waiters == [Waiter(0, Caller), Waiter(0, Caller)] && s6.attempts.Keys == {1, 2}
  {
    var s1 := ConnectFrom(Initial(), 1, 2000.0, Caller);
    var s2 := ConnectFrom(s1, 1, 2000.0, Caller);
    assert s2.waiters == [Waiter(0, Caller), Waiter(0, Caller)];
  }

  // ---- The class ----

  class MessageBusIntegration {
    var connectionAttempt: Option<nat>
    var attempts: map<nat, Attempt>
    var waiters: seq<Waiter>
    var connection: bool
    var channel: bool
    var handlers: set<real>
    var reconnectTimer: Option<nat>
    var timers: map<nat, Timer>
    var nextId: nat
    ghost var lost: bool

    constructor ()
      ensures State() == Initial()
    {
      connectionAttempt, attempts, waiters, connection, channel := None, map[], [], false, false;
      handlers, reconnectTimer, timers, nextId, lost := {}, None, map[], 0, false;
    }

    ghost function State(): State reads this {
      Bus(connectionAttempt, attempts, waiters, connection, channel, handlers, reconnectTimer, timers, nextId, lost)
    }

    /** Starts an attempt unless one is running; either way the caller then waits for the one in the field. */
    method Connect(retries: nat, timeout: real, origin: Origin)
      modifies this`connectionAttempt, this`attempts, this`waiters, this`nextId
      ensures State() == ConnectFrom(old(State()), retries, timeout, origin)
    {
      if connectionAttempt.None? {
        if retries > 0 && connection && channel {
          return;
        }
        var id := nextId;
        nextId := nextId + 1;
        var stage := if retries == 0 then Pausing else if !connection then Connecting else OpeningChannel;
        attempts := attempts[id := Attempt(stage, if retries == 0 then 0 else retries - 1, timeout)];
        connectionAttempt := Some(id);
      }
      waiters := waiters + [Waiter(connectionAttempt.value, origin)];
    }

    /** The end of an attempt: all who wait for it resume. */
    method SettleAttempt(a: nat, ok: bool, random: real)
      modifies this`connectionAttempt, this`attempts, this`waiters, this`reconnectTimer, this`timers, this`nextId
      ensures State() == Settle(old(State()), a, ok, random)
    {
      var woken := WaitersOf(waiters, a);
      attempts := attempts - {a};
      waiters := OtherWaiters(waiters, a);
      ghost var start := State();
      for i := 0 to |woken|
        invariant WakeAll(State(), woken[i..], ok, random) == WakeAll(start, woken, ok, random)
      {
        assert woken[i..][0] == woken[i] && woken[i..][1..] == woken[i + 1..];
        Resume(woken[i], ok, random);
      }
      assert woken[|woken|..] == [];
    }

    /** One caller goes on after its await. */
    method Resume(w: Waiter, ok: bool, random: real)
      modifies this`connectionAttempt, this`reconnectTimer, this`timers, this`nextId
      ensures State() == Wake(old(State()), w, ok, random)
    {
      connectionAttempt := None;
      if !ok && w.origin.FromTimer? {
        ScheduleReconnect(w.origin.timeout * 1.1, random);
      }
    }

    /** Keeps at most one reconnect timer. */
    method ScheduleReconnect(timeout: real, random: real)
      modifies this`reconnectTimer, this`timers, this`nextId
      ensures State() == WithReconnect(old(State()), timeout, random)
    {
      if reconnectTimer.Some? {
        return;
      }
      var delay := Min(timeout + (random * timeout / 10.0).Floor as real, MAX_RECONNECT_TIMEOUT_MILLIS);
      reconnectTimer := Some(nextId);
      timers := timers[nextId := Timer(delay, timeout)];
      nextId := nextId + 1;
    }

    method DoCloseConnection()
      modifies this`connection, this`channel
      ensures State() == Disconnected(old(State()))
    {
      if channel {
        channel := false;
      }
      if connection {
        connection := false;
      }
    }

    /** The handler of connection errors, connection ends and channel errors. */
    method OnClose(timeout: real, random: real)
      requires Enabled(State(), Closed(timeout, random))
      modifies this`connection, this`channel, this`reconnectTimer, this`timers, this`nextId, this`lost
      ensures State() == Next(old(State()), Closed(timeout, random))
    {
      DoCloseConnection();
      lost := true;
      ScheduleReconnect(timeout, random);
    }

    method OnReconnectTimer(timer: nat)
      requires Enabled(State(), TimerFires(timer))
      modifies this`connectionAttempt, this`attempts, this`waiters, this`reconnectTimer, this`timers, this`nextId
      ensures State() == Next(old(State()), TimerFires(timer))
    {
      var timeout := timers[timer].timeout;
      timers := timers - {timer};
      reconnectTimer := None;
      Connect(10, 2000.0, FromTimer(timeout));
    }

    /** The attempt has a connection; it is done if there is a channel already. */
    method OnConnected(a: nat, random: real)
      requires Enabled(State(), GotConnection(a, random))
      modifies this
      ensures State() == Next(old(State()), GotConnection(a, random))
    {
      handlers := handlers + {attempts[a].timeout};
      connection := true;
      if channel {
        SettleAttempt(a, true, random);
      } else {
        attempts := attempts[a := attempts[a].(stage := OpeningChannel)];
      }
    }

    method OnChannelReady(a: nat, random: real)
      requires Enabled(State(), GotChannel(a, random))
      modifies this
      ensures State() == Next(old(State()), GotChannel(a, random))
    {
      handlers := handlers + {attempts[a].timeout};
      channel := true;
      lost := false;
      SettleAttempt(a, true, random);
    }

    method OnTryFailed(a: nat)
      requires Enabled(State(), TryFails(a))
      modifies this`attempts, this`connection, this`channel, this`handlers
      ensures State() == Next(old(State()), TryFails(a))
    {
      if attempts[a].stage.OpeningChannel? {
        handlers := handlers + {attempts[a].timeout};
      }
      DoCloseConnection();
      attempts := attempts[a := attempts[a].(stage := Pausing)];
    }

    /** After the pause: the next try, or the error that all tries are spent. */
    method OnPauseOver(a: nat, random: real)
      requires Enabled(State(), PauseEnds(a, random))
      modifies this`connectionAttempt, this`attempts, this`waiters, this`reconnectTimer, this`timers, this`nextId
      ensures State() == Next(old(State()), PauseEnds(a, random))
    {
      if attempts[a].tries == 0 {
        SettleAttempt(a, false, random);
      } else if connection && channel {
        SettleAttempt(a, true, random);
      } else {
        var stage := if !connection then Connecting else OpeningChannel;
        attempts := attempts[a := attempts[a].(stage := stage, tries := attempts[a].tries - 1)];
      }
    }
  }
}
