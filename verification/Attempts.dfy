/** How a connection attempt spends its tries, who waits for it, and how it ends
    (components/nxpod-messagebus/src/messagebus.ts). */
module Attempts {
  import opened Connection
  import opened Options

  /** The tries that an attempt has left, the current one included. */
  function Budget(s: State, a: nat): nat
    requires a in s.attempts
  {
    s.attempts[a].tries + if s.attempts[a].stage.Pausing? then 0 else 1
  }

  /** How many tries of an attempt fail in a run. */
  function Fails(run: seq<Event>, a: nat): nat {
    if run == [] then 0 else (if run[0] == TryFails(a) then 1 else 0) + Fails(run[1..], a)
  }

  /** The events of an attempt. */
  predicate IsOf(e: Event, a: nat) {
    match e
    case GotConnection(b, _) => a == b
    case GotChannel(b, _) => a == b
    case TryFails(b) => a == b
    case PauseEnds(b, _) => a == b
    case _ => false
  }

  function EventsOf(run: seq<Event>, a: nat): nat {
    if run == [] then 0 else (if IsOf(run[0], a) then 1 else 0) + EventsOf(run[1..], a)
  }

  /** Names of attempts and timers are used once. */
  ghost predicate IdsBelow(s: State) {
    && (forall a | a in s.attempts :: a < s.nextId)
    && (s.connectionAttempt.Some? ==> s.connectionAttempt.value < s.nextId)
  }

  // ---- One step ----

  lemma {:induction false} WakeAllFrame(s: State, ws: seq<Waiter>, ok: bool, random: real)
    ensures var t := WakeAll(s, ws, ok, random);
      && t == s.(connectionAttempt := t.connectionAttempt,
                 reconnectTimer := t.reconnectTimer, timers := t.timers, nextId := t.nextId)
      && t.connectionAttempt == (if ws == [] then s.connectionAttempt else None)
      && s.nextId <= t.nextId
      && (ok ==> t.timers == s.timers)
    decreases |ws|
  {
    if ws != [] {
      WakeAllFrame(Wake(s, ws[0], ok, random), ws[1..], ok, random);
    }
  }

  /** What the end of an attempt changes. */
  ghost predicate EndsOnly(s: State, a: nat, ok: bool, random: real) {
    var t := Settle(s, a, ok, random);
      && t.attempts == s.attempts - {a} && t.waiters == OtherWaiters(s.waiters, a)
      && t.connection == s.connection && t.channel == s.channel
      && t.handlers == s.handlers && t.lost == s.lost
      && s.nextId <= t.nextId && (t.connectionAttempt == s.connectionAttempt || t.connectionAttempt == None)
      && (ok ==> t.timers == s.timers)
  }

  /** An attempt that the event may end. */
  lemma EndFrame(s: State, e: Event)
    requires Enabled(s, e)
    ensures match e
      case GotConnection(a, random) =>
        EndsOnly(s.(connection := true, handlers := s.handlers + {s.attempts[a].timeout}), a, true, random)
      case GotChannel(a, random) =>
        EndsOnly(s.(channel := true, handlers := s.handlers + {s.attempts[a].timeout}, lost := false), a, true, random)
      case PauseEnds(a, random) => EndsOnly(s, a, true, random) && EndsOnly(s, a, false, random)
      case _ => true
  {
    if e.GotConnection? {
      var t := s.(connection := true, handlers := s.handlers + {s.attempts[e.attempt].timeout});
      WakeAllFrame(Leave(t, e.attempt), WaitersOf(t.waiters, e.attempt), true, e.random);
    } else if e.GotChannel? {
      var t := s.(channel := true, handlers := s.handlers + {s.attempts[e.attempt].timeout}, lost := false);
      WakeAllFrame(Leave(t, e.attempt), WaitersOf(t.waiters, e.attempt), true, e.random);
    } else if e.PauseEnds? {
      WakeAllFrame(Leave(s, e.attempt), WaitersOf(s.waiters, e.attempt), true, e.random);
      WakeAllFrame(Leave(s, e.attempt), WaitersOf(s.waiters, e.attempt), false, e.random);
    }
  }

  lemma StepKeepsIds(s: State, e: Event)
    requires Enabled(s, e) && IdsBelow(s)
    ensures IdsBelow(Next(s, e))
  {
    hide Settle, OtherWaiters, WaitersOf;
    EndFrame(s, e);
  }

  /** What other events do to an attempt. */
  lemma StepFrame(s: State, e: Event, a: nat)
    requires Enabled(s, e) && a < s.nextId
    ensures s.nextId <= Next(s, e).nextId
    ensures a !in s.attempts ==> a !in Next(s, e).attempts
    ensures a in s.attempts && !IsOf(e, a) ==> a in Next(s, e).attempts && Next(s, e).attempts[a] == s.attempts[a]
  {
    hide Settle, OtherWaiters, WaitersOf;
    EndFrame(s, e);
  }

  /** What an event of an attempt does to it. */
  lemma OwnStep(s: State, e: Event, a: nat)
    requires Enabled(s, e) && IsOf(e, a)
    ensures a in s.attempts
    ensures var t := Next(s, e);
      && (e.GotChannel? ==> a !in t.attempts)
      && (e.GotConnection? ==>
            if s.channel then a !in t.attempts
            else a in t.attempts && t.attempts[a] == s.attempts[a].(stage := OpeningChannel))
      && (e.TryFails? ==> a in t.attempts && t.attempts[a] == s.attempts[a].(stage := Pausing))
      && (e.PauseEnds? ==>
            if Budget(s, a) == 0 || (s.connection && s.channel) then a !in t.attempts
            else a in t.attempts && Budget(t, a) == Budget(s, a) && t.attempts[a].timeout == s.attempts[a].timeout
                 && t.attempts[a].stage == if s.connection then OpeningChannel else Connecting)
  {
    hide Settle, OtherWaiters, WaitersOf;
    EndFrame(s, e);
  }

  // ---- Tries ----

  /** An attempt that is over has no further events. */
  lemma {:induction false} Over(s: State, run: seq<Event>, a: nat)
    requires IsRun(s, run) && a !in s.attempts && a < s.nextId
    ensures Fails(run, a) == 0 == EventsOf(run, a) && a !in After(s, run).attempts
    decreases |run|
  {
    hide Next;
    if run != [] {
      StepFrame(s, run[0], a);
      Over(Next(s, run[0]), run[1..], a);
    }
  }

  /** Each failed try uses up one, and nothing else does. */
  lemma {:induction false} TriesCounted(s: State, run: seq<Event>, a: nat)
    requires IsRun(s, run) && a in s.attempts && a < s.nextId
    ensures Fails(run, a) <= Budget(s, a)
    ensures a in After(s, run).attempts ==>
      && Fails(run, a) + Budget(After(s, run), a) == Budget(s, a)
      && After(s, run).attempts[a].timeout == s.attempts[a].timeout
    decreases |run|
  {
    hide Next;
    if run != [] {
      var e := run[0];
      var t := Next(s, e);
      StepFrame(s, e, a);
      if IsOf(e, a) {
        OwnStep(s, e, a);
      }
      if a in t.attempts {
        TriesCounted(t, run[1..], a);
      } else {
        Over(t, run[1..], a);
      }
    }
  }

  /** Without a channel, an attempt is over only after all its tries have failed. */
  lemma {:induction false} OverAfterAllTries(s: State, run: seq<Event>, a: nat)
    requires IsRun(s, run) && a in s.attempts && a < s.nextId
    requires !s.channel && forall e | e in run :: !e.GotChannel?
    ensures a !in After(s, run).attempts ==> Fails(run, a) == Budget(s, a)
    decreases |run|
  {
    hide Next;
    if run != [] {
      var e := run[0];
      var t := Next(s, e);
      assert e in run;
      StepFrame(s, e, a);
      NoChannel(s, e);
      if IsOf(e, a) {
        OwnStep(s, e, a);
      }
      if a in t.attempts {
        OverAfterAllTries(t, run[1..], a);
      } else {
        Over(t, run[1..], a);
      }
    }
  }

  lemma NoChannel(s: State, e: Event)
    requires Enabled(s, e)
    ensures !s.channel && !e.GotChannel? ==> !Next(s, e).channel
  {
    hide Settle;
    EndFrame(s, e);
  }

  /** After the last try the pause ends the attempt: nobody waits any more, and a timer is pending if a timer had
      started the attempt or joined it. */
  lemma LastPauseEnds(s: State, a: nat, random: real)
    requires Inv(s) && a in s.attempts && Budget(s, a) == 0 && 0.0 <= random < 1.0
    ensures Enabled(s, PauseEnds(a, random))
    ensures var t := Next(s, PauseEnds(a, random));
      && t.attempts == map[] && t.waiters == [] && t.connectionAttempt == None
      && ((exists w :: w in s.waiters && w.origin.FromTimer?) ==> t.timers != map[])
  {
    hide WakeAll, WaitersOf, OtherWaiters;
    var w :| w in s.waiters && w.attempt == a;
    var ws := WaitersOf(s.waiters, a);
    assert w in ws;
    NoOtherWaiters(s.waiters, a);
    WakeAllEffect(Leave(s, a), ws, false, random);
    assert s.attempts - {a} == map[];
  }

  // ---- Callers ----

  /** Starting an attempt, or waiting for the one in the field. */
  lemma CallerWaits(s: State, e: Event)
    requires Inv(s) && Enabled(s, e) && (e.Connect? || e.TimerFires?)
    ensures var t := Next(s, e);
      var origin := if e.Connect? then Caller else FromTimer(s.timers[e.timer].timeout);
      var retries, timeout := if e.Connect? then e.retries else 10, if e.Connect? then e.timeout else 2000.0;
      if s.connectionAttempt.Some? then
        t.attempts == s.attempts && t.waiters == s.waiters + [Waiter(s.connectionAttempt.value, origin)]
      else if retries > 0 && s.connection && s.channel then
        t.attempts == map[] && t.waiters == s.waiters
      else
        && t.connectionAttempt.Some?
        && var a := t.connectionAttempt.value;
        && t.attempts.Keys == {a} && t.waiters == [Waiter(a, origin)]
        && Budget(t, a) == retries && t.attempts[a].timeout == timeout
        && t.attempts[a].stage == if retries == 0 then Pausing else if s.connection then OpeningChannel else Connecting
  {
    assert s.waiters != [] ==> s.waiters[0] in s.waiters;
  }

  lemma StepKeepsWaiters(s: State, e: Event, w: Waiter)
    requires Enabled(s, e) && w in s.waiters && (IsOf(e, w.attempt) ==> w.attempt in Next(s, e).attempts)
    ensures w in Next(s, e).waiters
  {
    hide Settle, WaitersOf;
    EndFrame(s, e);
  }

  /** Whoever waits for an attempt waits until it is over, and no longer. */
  lemma {:induction false} WaitsUntilOver(s: State, run: seq<Event>, w: Waiter)
    requires Inv(s) && IdsBelow(s) && IsRun(s, run) && w in s.waiters
    ensures w in After(s, run).waiters <==> w.attempt in After(s, run).attempts
    decreases |run|
  {
    hide Next;
    if run != [] {
      var t := Next(s, run[0]);
      StepKeepsInv(s, run[0]);
      StepKeepsIds(s, run[0]);
      StepFrame(s, run[0], w.attempt);
      if w.attempt in t.attempts {
        StepKeepsWaiters(s, run[0], w);
        WaitsUntilOver(t, run[1..], w);
      } else {
        Over(t, run[1..], w.attempt);
        RunKeepsInv(t, run[1..]);
      }
    }
  }

  // ---- Progress ----

  /** How many events an attempt has left at most: three for each try. */
  function EventsLeft(s: State, a: nat): nat
    requires a in s.attempts
  {
    match s.attempts[a].stage
    case Connecting => 3 * Budget(s, a)
    case OpeningChannel => 3 * Budget(s, a) - 1
    case Pausing => 3 * Budget(s, a) + 1
  }

  /** An attempt that is not over has an event that can happen, and each of its events brings it nearer to its end. */
  lemma {:induction false} AttemptsEnd(s: State, run: seq<Event>, a: nat)
    requires IsRun(s, run) && a in s.attempts && a < s.nextId
    ensures EventsOf(run, a) <= EventsLeft(s, a)
    ensures a in After(s, run).attempts ==>
      && EventsOf(run, a) < EventsLeft(s, a)
      && exists e :: IsOf(e, a) && Enabled(After(s, run), e)
    decreases |run|
  {
    hide Next;
    if run == [] {
      SomethingCanHappen(s, a);
    } else {
      var e := run[0];
      var t := Next(s, e);
      StepFrame(s, e, a);
      if IsOf(e, a) {
        OwnStep(s, e, a);
      }
      if a in t.attempts {
        AttemptsEnd(t, run[1..], a);
      } else {
        Over(t, run[1..], a);
      }
    }
  }

  lemma SomethingCanHappen(s: State, a: nat)
    requires a in s.attempts
    ensures exists e :: IsOf(e, a) && Enabled(s, e)
  {
    var e := match s.attempts[a].stage
      case Connecting => TryFails(a)
      case OpeningChannel => TryFails(a)
      case Pausing => PauseEnds(a, 0.0);
    assert IsOf(e, a) && Enabled(s, e);
  }

  // ---- Whole runs ----

  lemma {:induction false} RunKeepsIds(s: State, run: seq<Event>)
    requires IdsBelow(s) && IsRun(s, run)
    ensures IdsBelow(After(s, run))
    decreases |run|
  {
    hide Next, IdsBelow;
    if run != [] {
      StepKeepsIds(s, run[0]);
      RunKeepsIds(Next(s, run[0]), run[1..]);
    }
  }

  /** How many retries an attempt gets that this event starts. */
  function Retries(begin: Event): nat {
    if begin.Connect? then begin.retries else 10
  }

  /** From any point on, an attempt fails at most as often as it has tries left; without a channel it is over only
      after all of them have failed, and then the next end of a pause is its end: nobody waits any more, and where a
      reconnect timer waited for it, a timer is pending. */
  lemma AttemptUsesItsTries(s: State, run: seq<Event>, w: Waiter, random: real)
    requires Inv(s) && IdsBelow(s) && IsRun(s, run) && w in s.waiters && 0.0 <= random < 1.0
    ensures w.attempt in s.attempts
    ensures var a, now := w.attempt, After(s, run);
      && Fails(run, a) <= Budget(s, a) && EventsOf(run, a) <= EventsLeft(s, a)
      && (a !in now.attempts && !s.channel && (forall e | e in run :: !e.GotChannel?) ==> Fails(run, a) == Budget(s, a))
      && (a in now.attempts ==> w in now.waiters && exists e :: IsOf(e, a) && Enabled(now, e))
      && (a in now.attempts && Fails(run, a) == Budget(s, a) ==>
            && Enabled(now, PauseEnds(a, random))
            && var over := Next(now, PauseEnds(a, random));
            && over.attempts == map[] && over.waiters == [] && over.connectionAttempt == None
            && (w.origin.FromTimer? ==> over.timers != map[]))
  {
    var a, now := w.attempt, After(s, run);
    assert a in s.attempts;
    hide Next, Budget, EventsLeft, IsRun, After, Enabled, Fails, EventsOf, IsOf;
    RunKeepsInv(s, run);
    WaitsUntilOver(s, run, w);
    TriesCounted(s, run, a);
    AttemptsEnd(s, run, a);
    if !s.channel && forall e | e in run :: !e.GotChannel? {
      OverAfterAllTries(s, run, a);
    }
    if a in now.attempts && Fails(run, a) == Budget(s, a) {
      LastPauseEnds(now, a, random);
    }
  }

  /** In every run, an attempt that connect starts with n retries makes at most n tries, and exactly n before it
      fails; its last pause is the end of it and of all waiting. It has 3 * n events at most, and until it is over
      one of them can happen. A reconnect timer starts one with 10 retries. */
  lemma ConnectUsesItsTries(pre: seq<Event>, begin: Event, run: seq<Event>, random: real)
    requires IsRun(Initial(), pre) && 0.0 <= random < 1.0 && (begin.Connect? || begin.TimerFires?)
    requires var s := After(Initial(), pre);
      && Enabled(s, begin) && IsRun(Next(s, begin), run)
      && s.connectionAttempt.None? && !(Retries(begin) > 0 && s.connection && s.channel)
    ensures var s := After(Initial(), pre);
      var began, now := Next(s, begin), After(Next(s, begin), run);
      && began.connectionAttempt.Some?
      && var a, n := began.connectionAttempt.value, Retries(begin);
      && began.waiters == [Waiter(a, if begin.Connect? then Caller else FromTimer(s.timers[begin.timer].timeout))]
      && Fails(run, a) <= n && EventsOf(run, a) <= (if n == 0 then 1 else 3 * n)
      && (a !in now.attempts && !s.channel && (forall e | e in run :: !e.GotChannel?) ==> Fails(run, a) == n)
      && (a in now.attempts ==> exists e :: IsOf(e, a) && Enabled(now, e))
      && (a in now.attempts && Fails(run, a) == n ==>
            && Enabled(now, PauseEnds(a, random))
            && var over := Next(now, PauseEnds(a, random));
            && over.attempts == map[] && over.waiters == [] && over.connectionAttempt == None
            && (begin.TimerFires? ==> over.timers != map[]))
  {
    var s := After(Initial(), pre);
    RunKeepsInv(Initial(), pre);
    RunKeepsIds(Initial(), pre);
    CallerWaits(s, begin);
    StepKeepsInv(s, begin);
    StepKeepsIds(s, begin);
    NoChannel(s, begin);
    var began := Next(s, begin);
    hide Next, IsRun, After, Enabled, Fails, EventsOf, IsOf, Inv, IdsBelow;
    assert began.waiters[0] in began.waiters;
    AttemptUsesItsTries(began, run, began.waiters[0], random);
  }

  // ---- Connection and channel ----

  /** A flag that some events set and others clear. */
  function Flag(was: bool, run: seq<Event>, sets: Event -> bool, clears: Event -> bool): bool
    decreases |run|
  {
    if run == [] then was
    else Flag(sets(run[0]) || (was && !clears(run[0])), run[1..], sets, clears)
  }

  lemma FlagStep(s: State, e: Event)
    requires Enabled(s, e)
    ensures var t := Next(s, e);
      && t.connection == (e.GotConnection? || (s.connection && !e.Closed? && !e.TryFails?))
      && t.channel == (e.GotChannel? || (s.channel && !e.Closed? && !e.TryFails?))
      && t.lost == (e.Closed? || (s.lost && !e.GotChannel?))
  {
    hide Settle, WaitersOf, OtherWaiters;
    EndFrame(s, e);
  }

  /** In every run there is a connection, or a channel, if and only if one was opened and nothing has closed or
      failed since. */
  lemma {:induction false} ConnectedExactly(s: State, run: seq<Event>)
    requires IsRun(s, run)
    ensures After(s, run).connection
         == Flag(s.connection, run, (e: Event) => e.GotConnection?, (e: Event) => e.Closed? || e.TryFails?)
    ensures After(s, run).channel
         == Flag(s.channel, run, (e: Event) => e.GotChannel?, (e: Event) => e.Closed? || e.TryFails?)
    ensures After(s, run).lost == Flag(s.lost, run, (e: Event) => e.Closed?, (e: Event) => e.GotChannel?)
    decreases |run|
  {
    hide Next, Enabled;
    if run != [] {
      FlagStep(s, run[0]);
      ConnectedExactly(Next(s, run[0]), run[1..]);
    }
  }

  // ---- Timers ----

  lemma {:induction false} CallersScheduleNothing(s: State, ws: seq<Waiter>, random: real)
    requires TimerTimeouts(ws) == []
    ensures WakeAll(s, ws, false, random).timers == s.timers
    decreases |ws|
  {
    if ws != [] {
      CallersScheduleNothing(Wake(s, ws[0], false, random), ws[1..], random);
    }
  }

  lemma FailureSchedules(s: State, a: nat, random: real)
    requires OneTimer(s) && InStage(s, a, Pausing) && Budget(s, a) == 0 && 0.0 <= random < 1.0
    ensures var timeouts := TimerTimeouts(WaitersOf(s.waiters, a));
      Next(s, PauseEnds(a, random)).timers
      == if s.timers == map[] && timeouts != []
         then map[s.nextId := Timer(Delay(timeouts[0] * 1.1, random), timeouts[0] * 1.1)] else s.timers
  {
    var ws := WaitersOf(s.waiters, a);
    if TimerTimeouts(ws) == [] {
      CallersScheduleNothing(Leave(s, a), ws, random);
    } else if s.timers == map[] {
      FailedReconnectWaitsLonger(s, a, random);
    } else {
      assert s.reconnectTimer.Some?;
      WakeAllSchedules(Leave(s, a), ws, random);
    }
  }

  /** Exactly these events change the timers: a close while none is pending, a timer that fires, and the failure of
      an attempt that a timer waits for, again while none is pending. */
  lemma TimersChangeExactly(s: State, e: Event)
    requires Inv(s) && Enabled(s, e)
    ensures Next(s, e).timers
         == match e
            case Closed(timeout, random) =>
              if s.timers == map[] then map[s.nextId := Timer(Delay(timeout, random), timeout)] else s.timers
            case TimerFires(_) => map[]
            case PauseEnds(a, random) =>
              var timeouts := TimerTimeouts(WaitersOf(s.waiters, a));
              if Budget(s, a) == 0 && s.timers == map[] && timeouts != []
              then map[s.nextId := Timer(Delay(timeouts[0] * 1.1, random), timeouts[0] * 1.1)] else s.timers
            case _ => s.timers
  {
    hide Settle, WaitersOf, OtherWaiters, TimerTimeouts, Delay;
    EndFrame(s, e);
    if e.PauseEnds? && Budget(s, e.attempt) == 0 {
      FailureSchedules(s, e.attempt, e.random);
    }
  }

  // ---- Close handlers ----

  /** Connections and channels keep their close handlers, with the timeout of the attempt that opened them. */
  lemma HandlersInstalledExactly(s: State, e: Event)
    requires Enabled(s, e)
    ensures Next(s, e).handlers
         == s.handlers + match e
                         case GotConnection(a, _) => {s.attempts[a].timeout}
                         case GotChannel(a, _) => {s.attempts[a].timeout}
                         case TryFails(a) => if InStage(s, a, OpeningChannel) then {s.attempts[a].timeout} else {}
                         case _ => {}
  {
    hide Settle, WaitersOf, OtherWaiters;
    EndFrame(s, e);
  }
}
