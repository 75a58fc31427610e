/** The bridge between the workspace manager and the database: per-instance message queues, handlers that read,
    wait and write, and a periodic controller (components/ws-manager-bridge/src/bridge.ts). */
module Bridge {
  import opened Instances
  import opened Options

  datatype Message = StatusUpdate(status: Status) | HeadlessLog(id: Id, text: string)

  function InstanceId(m: Message): Id {
    match m
    case StatusUpdate(status) => status.id
    case HeadlessLog(id, _) => id
  }

  /** A handler between its read and its write. */
  datatype Active = Active(msg: Message, snapshot: Option<Instance>)

  /** A finished handler: its message, its clock readings, and whether the database took the record. */
  datatype Finished = Finished(msg: Message, clock: Clock, stored: bool)

  /** `arrived` and `finished` record the history of each instance; `pass` is what a controller pass has read. */
  datatype State = Snapshot(
    db: map<Id, Instance>,
    arrived: map<Id, seq<Message>>,
    waiting: map<Id, seq<Message>>,
    active: map<Id, Active>,
    finished: map<Id, seq<Finished>>,
    metrics: seq<Metric>,
    pass: Option<map<Id, Instance>>)

  /** The clock readings of a controller pass, for each instance. */
  datatype PassClock = PassClock(checkedAt: Id -> Time, stoppedAt: Id -> Time)

  datatype Event =
    | Arrive(msg: Message)
    | Begin(id: Id)
    | End(id: Id, clock: Clock, stored: bool)
    | PassBegin(installation: string, workspaces: set<string>)
    | PassEnd(managed: set<Id>, passClock: PassClock, maxSeconds: int, failed: set<Id>)

  function Initial(db: map<Id, Instance>): State {
    Snapshot(db, map[], map[], map[], map[], [], None)
  }

  function Get<T>(m: map<Id, seq<T>>, id: Id): seq<T> {
    if id in m then m[id] else []
  }

  function Find(db: map<Id, Instance>, id: Id): Option<Instance> {
    if id in db then Some(db[id]) else None
  }

  // ---- The controller's part ----

  /** Not comparable, and so false, for an unparsable time. */
  predicate DurationLongerThanSeconds(time: Option<Time>, seconds: int, now: Time) {
    time.Some? && (now - time.value) as real / 1000.0 > seconds as real
  }

  /** Not stopped, not deleted, of a workspace that exists, and of the installation if one is named. */
  predicate CountsAsRunning(i: Instance, installation: string, workspaces: set<string>) {
    && !i.status.phase.Stopped? && !i.deleted
    && i.workspaceId in workspaces
    && (installation == "" || i.region == installation)
  }

  function RunningInstances(db: map<Id, Instance>, installation: string, workspaces: set<string>): map<Id, Instance> {
    map i | i in db && CountsAsRunning(db[i], installation, workspaces) :: db[i]
  }

  predicate ShouldStop(i: Instance, maxSeconds: int, now: Time) {
    i.status.phase.Running? || DurationLongerThanSeconds(i.creationTime, maxSeconds, now)
  }

  /** The records that a pass stores. */
  function Marked(running: map<Id, Instance>, managed: set<Id>, clock: PassClock, maxSeconds: int, failed: set<Id>)
    : map<Id, Instance>
  {
    map i | i in running && i !in managed && i !in failed && ShouldStop(running[i], maxSeconds, clock.checkedAt(i))
      :: MarkStopped(running[i], clock.stoppedAt(i))
  }

  // ---- Steps ----

  ghost predicate Enabled(s: State, e: Event) {
    match e
    case Arrive(_) => true
    case Begin(i) => i !in s.active && Get(s.waiting, i) != []
    case End(i, _, _) => i in s.active
    case PassBegin(_, _) => s.pass.None?
    case PassEnd(_, _, _, _) => s.pass.Some?
  }

  /** What the handler of a message makes of the record it has read. */
  function HandleMessage(was: Option<Instance>, msg: Message, clock: Clock): Handled {
    match msg
    case StatusUpdate(status) => Handle(was, status, clock)
    case HeadlessLog(_, _) => Ignore
  }

  /** The end of a handler that made `h` of its record. */
  function Finish(s: State, i: Id, h: Handled, f: Finished): State {
    s.(db := if h.Store? && f.stored then s.db[i := h.instance] else s.db,
       active := s.active - {i},
       finished := s.finished[i := Get(s.finished, i) + [f]],
       metrics := s.metrics + MetricsFrom(h))
  }

  function Enqueue(s: State, i: Id, msg: Message): State {
    s.(arrived := s.arrived[i := Get(s.arrived, i) + [msg]], waiting := s.waiting[i := Get(s.waiting, i) + [msg]])
  }

  function Start(s: State, i: Id): State
    requires Get(s.waiting, i) != []
  {
    s.(waiting := s.waiting[i := Get(s.waiting, i)[1..]],
       active := s.active[i := Active(Get(s.waiting, i)[0], Find(s.db, i))])
  }

  function Next(s: State, e: Event): State {
    match e
    case Arrive(msg) => if InstanceId(msg) == "" then s else Enqueue(s, InstanceId(msg), msg)
    case Begin(i) => if i in s.active || Get(s.waiting, i) == [] then s else Start(s, i)
    case End(i, clock, stored) =>
      if i !in s.active then s
      else
        var a := s.active[i];
        Finish(s, i, HandleMessage(a.snapshot, a.msg, clock), Finished(a.msg, clock, stored))
    case PassBegin(installation, workspaces) => s.(pass := Some(RunningInstances(s.db, installation, workspaces)))
    case PassEnd(managed, clock, maxSeconds, failed) =>
      if s.pass.None? then s
      else s.(db := s.db + Marked(s.pass.value, managed, clock, maxSeconds, failed), pass := None)
  }

  function After(s: State, run: seq<Event>): State
    decreases |run|
  {
    if run == [] then s else After(Next(s, run[0]), run[1..])
  }

  ghost predicate IsRun(s: State, run: seq<Event>)
    decreases |run|
  {
    run == [] || (Enabled(s, run[0]) && IsRun(Next(s, run[0]), run[1..]))
  }

  // ---- Serializability ----

  function Apply(was: Option<Instance>, f: Finished): Option<Instance> {
    var h := HandleMessage(was, f.msg, f.clock);
    if h.Store? && f.stored then Some(h.instance) else was
  }

  /** Handling the messages one after the other. */
  function Fold(was: Option<Instance>, history: seq<Finished>): Option<Instance> {
    if history == [] then was else Apply(Fold(was, history[..|history| - 1]), history[|history| - 1])
  }

  function Messages(history: seq<Finished>): seq<Message> {
    seq(|history|, k requires 0 <= k < |history| => history[k].msg)
  }

  /** The messages of an instance, in the order of handling: done, in progress, waiting. */
  function InOrder(s: State, i: Id): seq<Message> {
    Messages(Get(s.finished, i)) + (if i in s.active then [s.active[i].msg] else []) + Get(s.waiting, i)
  }

  ghost predicate Serialized(db: map<Id, Instance>, s: State, i: Id) {
    && Find(s.db, i) == Fold(Find(db, i), Get(s.finished, i))
    && (i in s.active ==> s.active[i].snapshot == Find(s.db, i))
    && InOrder(s, i) == Get(s.arrived, i)
  }

  predicate IsPassEvent(e: Event) {
    e.PassBegin? || e.PassEnd?
  }

  lemma EnqueueSerialized(db: map<Id, Instance>, s: State, j: Id, msg: Message, i: Id)
    requires Serialized(db, s, i)
    ensures Serialized(db, Enqueue(s, j, msg), i)
  {
    hide Fold, InOrder;
    EnqueueInOrder(s, j, msg, i);
  }

  lemma EnqueueInOrder(s: State, j: Id, msg: Message, i: Id)
    ensures InOrder(Enqueue(s, j, msg), i) == InOrder(s, i) + if i == j then [msg] else []
  {
    hide Messages;
    if i == j {
      assert Get(Enqueue(s, j, msg).waiting, i) == Get(s.waiting, i) + [msg];
    } else {
      assert Get(Enqueue(s, j, msg).waiting, i) == Get(s.waiting, i);
    }
  }

  lemma StartSerialized(db: map<Id, Instance>, s: State, j: Id, i: Id)
    requires Serialized(db, s, i) && Get(s.waiting, j) != [] && j !in s.active
    ensures Serialized(db, Start(s, j), i)
  {
    hide Fold, InOrder;
    if i == j {
      StartKeepsOrder(s, j);
    } else {
      StartKeepsOthers(s, j, i);
    }
  }

  lemma StartKeepsOrder(s: State, j: Id)
    requires Get(s.waiting, j) != [] && j !in s.active
    ensures InOrder(Start(s, j), j) == InOrder(s, j)
  {
    hide Messages;
    var waiting := Get(s.waiting, j);
    assert Get(Start(s, j).waiting, j) == waiting[1..];
    assert waiting == [waiting[0]] + waiting[1..];
  }

  lemma StartKeepsOthers(s: State, j: Id, i: Id)
    requires Get(s.waiting, j) != [] && i != j
    ensures InOrder(Start(s, j), i) == InOrder(s, i)
  {
    hide Messages;
    assert Get(Start(s, j).waiting, i) == Get(s.waiting, i);
  }

  lemma FinishSerialized(db: map<Id, Instance>, s: State, j: Id, h: Handled, f: Finished, i: Id)
    requires Serialized(db, s, i) && j in s.active && f.msg == s.active[j].msg
    requires h == HandleMessage(s.active[j].snapshot, f.msg, f.clock)
    ensures Serialized(db, Finish(s, j, h, f), i)
  {
    hide HandleMessage, Fold, InOrder;
    if i == j {
      FoldOneMore(Find(db, i), Get(s.finished, i), f);
      assert Get(Finish(s, j, h, f).finished, i) == Get(s.finished, i) + [f];
      FinishKeepsOrder(s, j, h, f);
    } else {
      OrderOfOthers(s, j, h, f, i);
    }
  }

  lemma FinishKeepsOrder(s: State, j: Id, h: Handled, f: Finished)
    requires j in s.active && f.msg == s.active[j].msg
    ensures InOrder(Finish(s, j, h, f), j) == InOrder(s, j)
  {
    var history := Get(s.finished, j);
    assert Get(Finish(s, j, h, f).finished, j) == history + [f];
    assert Messages(history + [f]) == Messages(history) + [f.msg];
  }

  lemma OrderOfOthers(s: State, j: Id, h: Handled, f: Finished, i: Id)
    requires i != j
    ensures InOrder(Finish(s, j, h, f), i) == InOrder(s, i)
  {}

  lemma FoldOneMore(was: Option<Instance>, history: seq<Finished>, f: Finished)
    ensures Fold(was, history + [f]) == Apply(Fold(was, history), f)
  {
    assert (history + [f])[..|history + [f]| - 1] == history;
  }

  lemma StepSerialized(db: map<Id, Instance>, s: State, e: Event, i: Id)
    requires Serialized(db, s, i) && Enabled(s, e) && !IsPassEvent(e)
    ensures Serialized(db, Next(s, e), i)
  {
    match e
    case Arrive(msg) => EnqueueSerialized(db, s, InstanceId(msg), msg, i);
    case Begin(j) => StartSerialized(db, s, j, i);
    case End(j, clock, stored) =>
      var msg := s.active[j].msg;
      FinishSerialized(db, s, j, HandleMessage(s.active[j].snapshot, msg, clock), Finished(msg, clock, stored), i);
  }

  lemma {:induction false} RunSerialized(db: map<Id, Instance>, s: State, run: seq<Event>, i: Id)
    requires Serialized(db, s, i) && IsRun(s, run) && forall e | e in run :: !IsPassEvent(e)
    ensures Serialized(db, After(s, run), i)
    decreases |run|
  {
    if run != [] {
      StepSerialized(db, s, run[0], i);
      RunSerialized(db, Next(s, run[0]), run[1..], i);
    }
  }

  /** However the handlers of different instances interleave, each record is what handling the instance's own
      messages one after the other, in the order of arrival, makes of it. */
  lemma Serializable(db: map<Id, Instance>, run: seq<Event>, i: Id)
    requires IsRun(Initial(db), run) && forall e | e in run :: !IsPassEvent(e)
    ensures var s := After(Initial(db), run);
      && Find(s.db, i) == Fold(Find(db, i), Get(s.finished, i))
      && Messages(Get(s.finished, i)) <= Get(s.arrived, i)
      && (i !in s.active && Get(s.waiting, i) == [] ==> Messages(Get(s.finished, i)) == Get(s.arrived, i))
  {
    RunSerialized(db, Initial(db), run, i);
    var s := After(Initial(db), run);
    assert InOrder(s, i)[..|Get(s.finished, i)|] == Messages(Get(s.finished, i));
  }

  /** What arrived for an instance: its messages among all arrivals, unless its id is empty. */
  function Arrivals(run: seq<Event>, i: Id): seq<Message> {
    if run == [] then []
    else Arrival(run[0], i) + Arrivals(run[1..], i)
  }

  function Arrival(e: Event, i: Id): seq<Message> {
    if e.Arrive? && InstanceId(e.msg) == i && i != "" then [e.msg] else []
  }

  lemma Regroup<T>(a: seq<T>, b: seq<T>, c: seq<T>)
    ensures (a + b) + c == a + (b + c)
  {}

  lemma ArrivalRecorded(s: State, e: Event, i: Id)
    ensures Get(Next(s, e).arrived, i) == Get(s.arrived, i) + Arrival(e, i)
  {}

  lemma {:induction false} ArrivalsRecorded(s: State, run: seq<Event>, i: Id)
    ensures Get(After(s, run).arrived, i) == Get(s.arrived, i) + Arrivals(run, i)
    decreases |run|
  {
    if run != [] {
      ArrivalRecorded(s, run[0], i);
      ArrivalsRecorded(Next(s, run[0]), run[1..], i);
      Regroup(Get(s.arrived, i), Arrival(run[0], i), Arrivals(run[1..], i));
    }
  }

  /** Other instances do not matter: two runs that finished the same history of an instance, from the same
      record, leave the same record. */
  lemma IndependentOfOthers(dbA: map<Id, Instance>, runA: seq<Event>, dbB: map<Id, Instance>, runB: seq<Event>, i: Id)
    requires IsRun(Initial(dbA), runA) && forall e | e in runA :: !IsPassEvent(e)
    requires IsRun(Initial(dbB), runB) && forall e | e in runB :: !IsPassEvent(e)
    requires Find(dbA, i) == Find(dbB, i)
    requires Get(After(Initial(dbA), runA).finished, i) == Get(After(Initial(dbB), runB).finished, i)
    ensures Find(After(Initial(dbA), runA).db, i) == Find(After(Initial(dbB), runB).db, i)
  {
    Serializable(dbA, runA, i);
    Serializable(dbB, runB, i);
  }

  // ---- Lifecycle over whole runs ----

  /** No controller pass overlaps a handler of an instance that the pass has read. */
  ghost predicate Separate(s: State, e: Event) {
    match e
    case Begin(i) => s.pass.None? || i !in s.pass.value
    case PassBegin(installation, workspaces) =>
      forall i | i in RunningInstances(s.db, installation, workspaces) :: i !in s.active
    case _ => true
  }

  ghost predicate IsSeparateRun(s: State, run: seq<Event>)
    decreases |run|
  {
    run == [] || (Enabled(s, run[0]) && Separate(s, run[0]) && IsSeparateRun(Next(s, run[0]), run[1..]))
  }

  /** What has been read is still what the database holds. */
  ghost predicate Fresh(s: State) {
    && (forall i | i in s.active :: s.active[i].snapshot == Find(s.db, i))
    && (forall i | s.pass.Some? && i in s.pass.value :: i !in s.active && i in s.db && s.db[i] == s.pass.value[i])
    && (forall i | i in s.db :: s.db[i].id == i)
  }

  ghost predicate AllTimed(db: map<Id, Instance>) {
    forall i | i in db :: Timed(db[i])
  }

  ghost predicate AllLater(a: map<Id, Instance>, b: map<Id, Instance>) {
    a.Keys == b.Keys && forall i | i in a :: Later(a[i], b[i])
  }

  lemma PutKeepsLifecycle(db: map<Id, Instance>, i: Id, x: Instance)
    requires i in db && Later(db[i], x) && (Timed(db[i]) ==> Timed(x))
    ensures AllLater(db, db[i := x])
    ensures AllTimed(db) ==> AllTimed(db[i := x])
  {
    forall j | j in db ensures Later(db[j], db[i := x][j]) {
      LaterReflexive(db[j]);
    }
  }

  lemma FinishKeepsLifecycle(s: State, i: Id, h: Handled, f: Finished)
    requires Fresh(s) && i in s.active
    requires h.Store? ==> i in s.db && Later(s.db[i], h.instance) && (Timed(s.db[i]) ==> Timed(h.instance))
    ensures Fresh(Finish(s, i, h, f)) && AllLater(s.db, Finish(s, i, h, f).db)
    ensures AllTimed(s.db) ==> AllTimed(Finish(s, i, h, f).db)
  {
    if h.Store? && f.stored {
      PutKeepsLifecycle(s.db, i, h.instance);
    } else {
      AllLaterReflexive(s.db);
    }
  }

  lemma LaterReflexive(i: Instance)
    ensures Later(i, i)
  {}

  lemma HandledKeepsLifecycle(was: Option<Instance>, msg: Message, clock: Clock)
    ensures var h := HandleMessage(was, msg, clock);
      h.Store? ==> was.Some? && Later(was.value, h.instance) && (Timed(was.value) ==> Timed(h.instance))
  {
    if HandleMessage(was, msg, clock).Store? {
      UpdateKeepsLifecycle(was.value, msg.status, clock);
    }
  }

  lemma MarkedKeepsLifecycle(s: State, marked: map<Id, Instance>)
    requires Fresh(s) && s.pass.Some?
    requires marked.Keys <= s.pass.value.Keys
    requires forall i | i in marked ::
               Later(s.pass.value[i], marked[i]) && (Timed(s.pass.value[i]) ==> Timed(marked[i]))
    ensures var t := s.(db := s.db + marked, pass := None);
      && Fresh(t) && AllLater(s.db, t.db)
      && (AllTimed(s.db) ==> AllTimed(t.db))
  {
    var t := s.(db := s.db + marked, pass := None);
    forall j | j in s.db ensures Later(s.db[j], t.db[j]) && (Timed(s.db[j]) ==> Timed(t.db[j])) {
      LaterReflexive(s.db[j]);
    }
  }

  lemma StepKeepsLifecycle(s: State, e: Event)
    requires Fresh(s) && Enabled(s, e) && Separate(s, e)
    ensures Fresh(Next(s, e)) && AllLater(s.db, Next(s, e).db)
    ensures AllTimed(s.db) ==> AllTimed(Next(s, e).db)
  {
    if e.End? {
      var was, msg := s.active[e.id].snapshot, s.active[e.id].msg;
      HandledKeepsLifecycle(was, msg, e.clock);
      FinishKeepsLifecycle(s, e.id, HandleMessage(was, msg, e.clock), Finished(msg, e.clock, e.stored));
    } else if e.PassEnd? {
      var marked := Marked(s.pass.value, e.managed, e.passClock, e.maxSeconds, e.failed);
      forall i | i in marked
        ensures Later(s.pass.value[i], marked[i]) && (Timed(s.pass.value[i]) ==> Timed(marked[i]))
      {
        MarkingKeepsLifecycle(s.pass.value[i], e.passClock.stoppedAt(i));
      }
      MarkedKeepsLifecycle(s, marked);
    } else {
      DatabaseUntouched(s, e);
    }
  }

  lemma AllLaterReflexive(db: map<Id, Instance>)
    ensures AllLater(db, db)
  {
    forall i | i in db ensures Later(db[i], db[i]) {
      LaterReflexive(db[i]);
    }
  }

  lemma AllLaterTransitive(a: map<Id, Instance>, b: map<Id, Instance>, c: map<Id, Instance>)
    requires AllLater(a, b) && AllLater(b, c)
    ensures AllLater(a, c)
  {
    forall i | i in a ensures Later(a[i], c[i]) {
      assert Later(a[i], b[i]) && Later(b[i], c[i]);
    }
  }

  lemma DatabaseUntouched(s: State, e: Event)
    requires Fresh(s) && Enabled(s, e) && Separate(s, e) && !e.End? && !e.PassEnd?
    ensures Next(s, e).db == s.db && Fresh(Next(s, e)) && AllLater(s.db, s.db)
  {
    AllLaterReflexive(s.db);
  }

  /** In every run without such an overlap, starting from records whose times are set: a running instance has a
      started time, a stopped one a stopped time, a deployed one a deployed time; and started time, deployed time
      and node name never change once set. */
  lemma {:induction false} LifecycleHolds(s: State, run: seq<Event>)
    requires Fresh(s) && AllTimed(s.db) && IsSeparateRun(s, run)
    ensures Fresh(After(s, run)) && AllTimed(After(s, run).db) && AllLater(s.db, After(s, run).db)
    decreases |run|
  {
    if run != [] {
      StepKeepsLifecycle(s, run[0]);
      LifecycleHolds(Next(s, run[0]), run[1..]);
      AllLaterTransitive(s.db, Next(s, run[0]).db, After(s, run).db);
    } else {
      AllLaterReflexive(s.db);
    }
  }

  predicate StoreFails(e: Event) {
    e.End? && !e.stored
  }

  /** The startup observations of one handler: one when it sets the started time. */
  lemma HandledObservesStartup(was: Option<Instance>, msg: Message, clock: Clock, i: Id)
    ensures var h := HandleMessage(was, msg, clock);
      Count(MetricsFrom(h), Startup(i))
      == if && was.Some? && was.value.id == i && h.Store?
            && was.value.startedTime.None? && h.instance.startedTime.Some? then 1 else 0
  {
    var h := HandleMessage(was, msg, clock);
    if h.Store? {
      CountConcat(ActivityMetrics(was.value, msg.status), StartupMetrics(was.value, msg.status), Startup(i));
    }
  }

  lemma FinishObservesStartup(s: State, j: Id, h: Handled, f: Finished, i: Id)
    requires Fresh(s) && j in s.active && f.stored && i in s.db && (h.Store? ==> j in s.db)
    requires Count(MetricsFrom(h), Startup(i))
          == if i == j && h.Store? && s.db[j].startedTime.None? && h.instance.startedTime.Some? then 1 else 0
    ensures var t := Finish(s, j, h, f);
      i in t.db && Count(t.metrics, Startup(i)) == Count(s.metrics, Startup(i))
                 + if s.db[i].startedTime.None? && t.db[i].startedTime.Some? then 1 else 0
  {
    CountConcat(s.metrics, MetricsFrom(h), Startup(i));
  }

  lemma EndObservesStartup(s: State, e: Event, i: Id)
    requires Fresh(s) && e.End? && e.id in s.active && e.stored && i in s.db
    ensures i in Next(s, e).db
    ensures Count(Next(s, e).metrics, Startup(i))
         == Count(s.metrics, Startup(i))
          + if s.db[i].startedTime.None? && Next(s, e).db[i].startedTime.Some? then 1 else 0
  {
    hide Updated, ActivityMetrics, StartupMetrics;
    var was, msg := s.active[e.id].snapshot, s.active[e.id].msg;
    var h := HandleMessage(was, msg, e.clock);
    HandledObservesStartup(was, msg, e.clock, i);
    assert was == Find(s.db, e.id);
    FinishObservesStartup(s, e.id, h, Finished(msg, e.clock, e.stored), i);
  }

  lemma PassKeepsStartedTime(s: State, e: Event, i: Id)
    requires Fresh(s) && e.PassEnd? && s.pass.Some? && i in s.db
    ensures i in Next(s, e).db && Next(s, e).metrics == s.metrics
    ensures Next(s, e).db[i].startedTime == s.db[i].startedTime
  {
    assert i in s.pass.value ==> s.db[i] == s.pass.value[i];
  }

  /** One startup observation goes with setting the started time. */
  lemma StepObservesStartup(s: State, e: Event, i: Id)
    requires Fresh(s) && Enabled(s, e) && Separate(s, e) && !StoreFails(e) && i in s.db
    ensures i in Next(s, e).db
    ensures Count(Next(s, e).metrics, Startup(i))
         == Count(s.metrics, Startup(i))
          + if s.db[i].startedTime.None? && Next(s, e).db[i].startedTime.Some? then 1 else 0
  {
    if e.End? {
      EndObservesStartup(s, e, i);
    } else if e.PassEnd? {
      PassKeepsStartedTime(s, e, i);
    } else {
      DatabaseUntouched(s, e);
    }
  }

  /** If no store fails, the startup time of an instance is observed exactly when its started time is set: once,
      or never. */
  lemma {:induction false} StartupObservedOnce(s: State, run: seq<Event>, i: Id)
    requires Fresh(s) && IsSeparateRun(s, run) && i in s.db && forall e | e in run :: !StoreFails(e)
    ensures i in After(s, run).db && (s.db[i].startedTime.Some? ==> After(s, run).db[i].startedTime.Some?)
    ensures Count(After(s, run).metrics, Startup(i)) == Count(s.metrics, Startup(i))
         + if s.db[i].startedTime.None? && After(s, run).db[i].startedTime.Some? then 1 else 0
    decreases |run|
  {
    if run != [] {
      StepKeepsLifecycle(s, run[0]);
      StepObservesStartup(s, run[0], i);
      StartupObservedOnce(Next(s, run[0]), run[1..], i);
    }
  }

  /** How often startup is observed over a history: once for each running status until one of them is stored. */
  function StartupObservations(started: bool, history: seq<Finished>): nat
    decreases |history|
  {
    if history == [] then 0
    else
      (if !started && ReportsRunning(history[0]) then 1 else 0)
      + StartupObservations(started || (ReportsRunning(history[0]) && history[0].stored), history[1..])
  }

  /** A status of phase running that a handler gets past the owner token with. */
  predicate ReportsRunning(f: Finished) {
    f.msg.StatusUpdate? && Valid(f.msg.status) && f.msg.status.ownerToken.Some? && f.msg.status.phase.Running?
  }

  lemma HandledReportsRunning(was: Option<Instance>, f: Finished)
    ensures var h := HandleMessage(was, f.msg, f.clock);
      && (h.Store? ==> was.Some?)
      && (h.Store? ==> (h.instance.startedTime.Some? <==> was.value.startedTime.Some? || ReportsRunning(f)))
      && (was.Some? && ReportsRunning(f) ==> h.Store?)
  {}

  lemma StartupStep(s: State, e: Event, i: Id) returns (first: seq<Finished>)
    requires Fresh(s) && Enabled(s, e) && Separate(s, e) && i in s.db
    ensures |first| <= 1 && Get(Next(s, e).finished, i) == Get(s.finished, i) + first
    ensures i in Next(s, e).db
    ensures Next(s, e).db[i].startedTime.Some?
      <==> s.db[i].startedTime.Some? || (first != [] && ReportsRunning(first[0]) && first[0].stored)
    ensures Count(Next(s, e).metrics, Startup(i)) == Count(s.metrics, Startup(i))
          + if first != [] && s.db[i].startedTime.None? && ReportsRunning(first[0]) then 1 else 0
  {
    first := if e.End? && e.id == i then [Finished(s.active[i].msg, e.clock, e.stored)] else [];
    if e.End? {
      hide HandleMessage, ReportsRunning;
      var was, msg := s.active[e.id].snapshot, s.active[e.id].msg;
      var h := HandleMessage(was, msg, e.clock);
      HandledObservesStartup(was, msg, e.clock, i);
      HandledReportsRunning(was, Finished(msg, e.clock, e.stored));
      CountConcat(s.metrics, MetricsFrom(h), Startup(i));
    } else if e.PassEnd? {
      PassKeepsStartedTime(s, e, i);
    } else {
      DatabaseUntouched(s, e);
    }
  }

  /** Whether or not stores succeed, the startup time of an instance is observed exactly as often as its messages
      report it running before such a status was stored. */
  lemma {:induction false} StartupObservedExactly(s: State, run: seq<Event>, i: Id) returns (history: seq<Finished>)
    requires Fresh(s) && IsSeparateRun(s, run) && i in s.db
    ensures Get(After(s, run).finished, i) == Get(s.finished, i) + history
    ensures Count(After(s, run).metrics, Startup(i))
         == Count(s.metrics, Startup(i)) + StartupObservations(s.db[i].startedTime.Some?, history)
    decreases |run|
  {
    hide Next, Enabled, Separate, Fresh, AllLater, AllTimed, ReportsRunning;
    if run == [] {
      history := [];
    } else {
      StepKeepsLifecycle(s, run[0]);
      var first := StartupStep(s, run[0], i);
      var rest := StartupObservedExactly(Next(s, run[0]), run[1..], i);
      history := first + rest;
      Regroup(Get(s.finished, i), first, rest);
      if first == [] {
        assert history == rest;
      } else {
        assert history[0] == first[0] && history[1..] == rest;
      }
    }
  }

  // ---- Controller passes ----

  lemma {:induction false} SeparateSplit(s: State, a: seq<Event>, b: seq<Event>)
    requires IsSeparateRun(s, a + b)
    ensures IsSeparateRun(s, a) && IsSeparateRun(After(s, a), b) && After(s, a + b) == After(After(s, a), b)
    decreases |a|
  {
    if a == [] {
      assert a + b == b;
    } else {
      assert (a + b)[1..] == a[1..] + b;
      SeparateSplit(Next(s, a[0]), a[1..], b);
    }
  }

  lemma PassUntouched(s: State, e: Event)
    requires s.pass.Some? && Enabled(s, e) && !e.PassEnd?
    ensures Next(s, e).pass == s.pass
  {}

  /** While a pass waits, what it has read stays what the database holds. */
  lemma {:induction false} PassWaits(s: State, mid: seq<Event>)
    requires Fresh(s) && s.pass.Some? && IsSeparateRun(s, mid) && forall e | e in mid :: !e.PassEnd?
    ensures Fresh(After(s, mid)) && After(s, mid).pass == s.pass && After(s, mid).db.Keys == s.db.Keys
    decreases |mid|
  {
    hide Next, Fresh, AllTimed, Later;
    if mid != [] {
      assert mid[0] in mid;
      StepKeepsLifecycle(s, mid[0]);
      PassUntouched(s, mid[0]);
      PassWaits(Next(s, mid[0]), mid[1..]);
    }
  }

  /** One pass, from its read to its stores, and what happens to other instances in between. */
  ghost predicate IsPass(s: State, begin: Event, mid: seq<Event>, end: Event) {
    && s.pass.None? && begin.PassBegin? && end.PassEnd?
    && (forall e | e in mid :: !e.PassEnd?)
    && IsSeparateRun(s, [begin] + mid + [end])
  }

  lemma PassEffect(s: State, begin: Event, mid: seq<Event>, end: Event)
    requires Fresh(s) && IsPass(s, begin, mid, end)
    ensures var read := RunningInstances(s.db, begin.installation, begin.workspaces);
      var before, after := After(s, [begin] + mid), After(s, [begin] + mid + [end]);
      && before.db.Keys == after.db.Keys == s.db.Keys
      && after.db == before.db + Marked(read, end.managed, end.passClock, end.maxSeconds, end.failed)
      && forall i | i in read :: before.db[i] == s.db[i]
  {
    SeparateSplit(s, [begin] + mid, [end]);
    SeparateSplit(s, [begin], mid);
    var t := Next(s, begin);
    assert [begin][1..] == [] && [end][1..] == [];
    assert After(s, [begin]) == t;
    StepKeepsLifecycle(s, begin);
    PassWaits(t, mid);
    var before := After(t, mid);
    assert After(before, [end]) == Next(before, end);
  }

  /** A pass marks exactly the instances that were running when it read them, that the manager does not list, and
      that are in phase running or too old; those it read and does not mark stay as they were, and every other
      record is what its own messages have made of it meanwhile. */
  lemma PassMarksExactly(s: State, begin: Event, mid: seq<Event>, end: Event, i: Id)
    requires Fresh(s) && IsPass(s, begin, mid, end) && i in s.db
    ensures i in After(s, [begin] + mid).db && i in After(s, [begin] + mid + [end]).db
    ensures var was, now := s.db[i], After(s, [begin] + mid + [end]).db[i];
      if || was.status.phase == Stopped || was.deleted || was.workspaceId !in begin.workspaces
         || (begin.installation != "" && was.region != begin.installation)
      then
        now == After(s, [begin] + mid).db[i]
      else if && i !in end.managed && i !in end.failed
              && (was.status.phase.Running?
                  || (was.creationTime.Some?
                      && end.passClock.checkedAt(i) - was.creationTime.value > 1000 * end.maxSeconds))
      then
        now == was.(status := was.status.(phase := Stopped), stoppedTime := Some(end.passClock.stoppedAt(i)))
      else
        now == was
  {
    PassEffect(s, begin, mid, end);
  }

  lemma {:induction false} PassKept(s: State, mid: seq<Event>)
    requires s.pass.Some? && forall e | e in mid :: !IsPassEvent(e)
    ensures After(s, mid).pass == s.pass
    decreases |mid|
  {
    hide HandleMessage, Get, Find, InstanceId, MetricsFrom;
    if mid != [] {
      assert mid[0] in mid;
      PassKept(Next(s, mid[0]), mid[1..]);
    }
  }

  /** Whatever overlaps a pass, and whatever it does to other records: it leaves alone every record that was, when
      the pass began, of another region than the installation it is for, deleted, stopped or without a workspace. */
  lemma PassKeepsOthers(s: State, begin: Event, mid: seq<Event>, end: Event, i: Id)
    requires begin.PassBegin? && end.PassEnd? && i in s.db && forall e | e in mid :: !IsPassEvent(e)
    requires || (begin.installation != "" && s.db[i].region != begin.installation)
             || s.db[i].deleted || s.db[i].status.phase == Stopped || s.db[i].workspaceId !in begin.workspaces
    ensures Find(After(s, [begin] + mid + [end]).db, i) == Find(After(s, [begin] + mid).db, i)
  {
    OneMore(s, begin, mid);
    PassKept(Next(s, begin), mid);
    OneMoreAtEnd(s, [begin] + mid, end);
  }

  /** Once every unlisted instance is due, exactly the listed ones of those that were running when the pass read
      them are left running. */
  lemma PassLeavesListed(s: State, begin: Event, mid: seq<Event>, end: Event)
    requires Fresh(s) && IsPass(s, begin, mid, end) && end.failed == {}
    requires forall i | i in RunningInstances(s.db, begin.installation, begin.workspaces) && i !in end.managed ::
               ShouldStop(s.db[i], end.maxSeconds, end.passClock.checkedAt(i))
    ensures var read := RunningInstances(s.db, begin.installation, begin.workspaces);
      var left := RunningInstances(After(s, [begin] + mid + [end]).db, begin.installation, begin.workspaces);
      left.Keys * read.Keys == read.Keys * end.managed
  {
    PassEffect(s, begin, mid, end);
  }

  // ---- Overlapping passes ----

  /** What the handlers have read is still what the database holds. */
  ghost predicate HandlersFresh(s: State) {
    && (forall i | i in s.active :: s.active[i].snapshot == Find(s.db, i))
    && (forall i | i in s.db :: s.db[i].id == i)
  }

  /** Handlers alone keep the lifecycle, whatever a pass has read. */
  lemma HandlersKeepLifecycle(s: State, e: Event)
    requires HandlersFresh(s) && Enabled(s, e) && !e.PassEnd?
    ensures HandlersFresh(Next(s, e)) && AllLater(s.db, Next(s, e).db)
    ensures e.PassBegin? || Next(s, e).pass == s.pass
  {
    var t := s.(pass := None);
    if e.PassBegin? {
      AllLaterReflexive(s.db);
    } else {
      assert Fresh(t);
      StepKeepsLifecycle(t, e);
      PassUnused(s, e);
    }
  }

  lemma PassUnused(s: State, e: Event)
    requires !IsPassEvent(e)
    ensures Next(s, e) == Next(s.(pass := None), e).(pass := s.pass)
  {
    hide HandleMessage, Get, Find, InstanceId, MetricsFrom;
  }

  lemma {:induction false} HandlersRun(s: State, mid: seq<Event>)
    requires HandlersFresh(s) && IsRun(s, mid) && forall e | e in mid :: !IsPassEvent(e)
    ensures HandlersFresh(After(s, mid)) && AllLater(s.db, After(s, mid).db) && After(s, mid).pass == s.pass
    decreases |mid|
  {
    if mid == [] {
      AllLaterReflexive(s.db);
    } else {
      assert mid[0] in mid;
      HandlersKeepLifecycle(s, mid[0]);
      HandlersRun(Next(s, mid[0]), mid[1..]);
      AllLaterTransitive(s.db, Next(s, mid[0]).db, After(s, mid).db);
    }
  }

  /** The status of a finished message, if its handler stored the record. */
  function StoredStatus(f: Finished): Option<Status> {
    if f.stored && f.msg.StatusUpdate? && Valid(f.msg.status) && f.msg.status.ownerToken.Some? then Some(f.msg.status)
    else None
  }

  predicate SetsStarted(f: Finished) {
    StoredStatus(f).Some? && StoredStatus(f).value.phase.Running?
  }

  predicate SetsDeployed(f: Finished) {
    var s := StoredStatus(f);
    s.Some? && s.value.conditions.Some? && s.value.conditions.value.deployed.True?
  }

  predicate SetsNode(f: Finished) {
    StoredStatus(f).Some? && Truthy(StoredStatus(f).value.runtimeNode)
  }

  /** What is set after a history was set before or by one of its messages. */
  lemma {:induction false} SetByHistory(was: Instance, history: seq<Finished>)
    ensures var now := Fold(Some(was), history);
      && now.Some? && Later(was, now.value)
      && (now.value.startedTime.Some? <==> was.startedTime.Some? || exists f :: f in history && SetsStarted(f))
      && (now.value.deployedTime.Some? <==> was.deployedTime.Some? || exists f :: f in history && SetsDeployed(f))
      && (Truthy(now.value.status.nodeName) <==> Truthy(was.status.nodeName) || exists f :: f in history && SetsNode(f))
    decreases |history|
  {
    if history == [] {
      LaterReflexive(was);
    } else {
      var n := |history| - 1;
      SetByHistory(was, history[..n]);
      var before := Fold(Some(was), history[..n]).value;
      SetByOne(before, history[n]);
      assert history == history[..n] + [history[n]];
      LaterTransitive(was, before, Apply(Some(before), history[n]).value);
    }
  }

  lemma LaterTransitive(a: Instance, b: Instance, c: Instance)
    requires Later(a, b) && Later(b, c)
    ensures Later(a, c)
  {}

  lemma SetByOne(was: Instance, f: Finished)
    ensures var now := Apply(Some(was), f);
      && now.Some? && Later(was, now.value)
      && (now.value.startedTime.Some? <==> was.startedTime.Some? || SetsStarted(f))
      && (now.value.deployedTime.Some? <==> was.deployedTime.Some? || SetsDeployed(f))
      && (Truthy(now.value.status.nodeName) <==> Truthy(was.status.nodeName) || SetsNode(f))
  {
    LaterReflexive(was);
    if StoredStatus(f).Some? {
      UpdateKeepsLifecycle(was, f.msg.status, f.clock);
    }
  }

  lemma {:induction false} FoldFirst(was: Option<Instance>, f: Finished, history: seq<Finished>)
    ensures Fold(was, [f] + history) == Fold(Apply(was, f), history)
    decreases |history|
  {
    hide Apply;
    if history == [] {
      assert [f] + history == [f];
      assert [f][..0] == [];
    } else {
      var n := |history| - 1;
      assert ([f] + history)[..n + 1] == [f] + history[..n];
      FoldFirst(was, f, history[..n]);
    }
  }

  /** Handlers alone make of a record what the messages they finish make of it. */
  lemma {:induction false} HandlersFold(s: State, mid: seq<Event>, i: Id) returns (history: seq<Finished>)
    requires HandlersFresh(s) && IsRun(s, mid) && forall e | e in mid :: !IsPassEvent(e)
    ensures Get(After(s, mid).finished, i) == Get(s.finished, i) + history
    ensures Find(After(s, mid).db, i) == Fold(Find(s.db, i), history)
    decreases |mid|
  {
    hide HandlersFresh, Next, Enabled, Apply, AllLater;
    if mid == [] {
      history := [];
    } else {
      assert mid[0] in mid;
      HandlersKeepLifecycle(s, mid[0]);
      var rest := HandlersFold(Next(s, mid[0]), mid[1..], i);
      var first := StepFolds(s, mid[0], i);
      history := first + rest;
      Regroup(Get(s.finished, i), first, rest);
      if first == [] {
        assert history == rest;
      } else {
        assert history == [first[0]] + rest;
        FoldFirst(Find(s.db, i), first[0], rest);
      }
    }
  }

  lemma StepFolds(s: State, e: Event, i: Id) returns (first: seq<Finished>)
    requires HandlersFresh(s) && Enabled(s, e) && !IsPassEvent(e)
    ensures |first| <= 1 && Get(Next(s, e).finished, i) == Get(s.finished, i) + first
    ensures Find(Next(s, e).db, i) == if first == [] then Find(s.db, i) else Apply(Find(s.db, i), first[0])
  {
    hide Handle;
    first := if e.End? && e.id == i then [Finished(s.active[i].msg, e.clock, e.stored)] else [];
  }

  /** A pass may overlap any handlers. What it does to a record keeps the lifecycle if and only if the pass does not
      mark the record, or none of the messages handled since the pass read it sets for the first time what is then
      fixed: a stored running status the started time, a deployed one the deployed time, or one with a node its name. */
  lemma OverlapExactly(s: State, mid: seq<Event>, end: Event, i: Id) returns (history: seq<Finished>)
    requires HandlersFresh(s) && s.pass.Some? && s.pass.value.Keys <= s.db.Keys
    requires forall k | k in s.pass.value :: s.pass.value[k] == s.db[k]
    requires IsRun(s, mid) && (forall e | e in mid :: !IsPassEvent(e)) && end.PassEnd? && i in s.db
    ensures Get(After(s, mid).finished, i) == Get(s.finished, i) + history
    ensures i in After(s, mid).db && i in Next(After(s, mid), end).db
    ensures var was := s.db[i];
      Later(After(s, mid).db[i], Next(After(s, mid), end).db[i])
      <==> || i !in s.pass.value || i in end.managed || i in end.failed
           || !ShouldStop(was, end.maxSeconds, end.passClock.checkedAt(i))
           || (&& (was.startedTime.Some? || forall f | f in history :: !SetsStarted(f))
               && (was.deployedTime.Some? || forall f | f in history :: !SetsDeployed(f))
               && (Truthy(was.status.nodeName) || forall f | f in history :: !SetsNode(f)))
  {
    hide Later, MarkStopped, HandlersFresh, SetsStarted, SetsDeployed, SetsNode, Fold;
    HandlersRun(s, mid);
    history := HandlersFold(s, mid, i);
    var was, now := s.db[i], After(s, mid).db[i];
    SetByHistory(was, history);
    MarkAfterHistory(was, now, history, end.passClock.stoppedAt(i));
    LaterReflexive(now);
  }

  lemma MarkAfterHistory(was: Instance, now: Instance, history: seq<Finished>, at: Time)
    requires Fold(Some(was), history) == Some(now)
    ensures Later(now, MarkStopped(was, at))
      <==> && (was.startedTime.Some? || forall f | f in history :: !SetsStarted(f))
           && (was.deployedTime.Some? || forall f | f in history :: !SetsDeployed(f))
           && (Truthy(was.status.nodeName) || forall f | f in history :: !SetsNode(f))
  {
    hide Fold, SetsStarted, SetsDeployed, SetsNode;
    SetByHistory(was, history);
    MarkOfEarlierRecord(was, now, at);
  }

  lemma MarkOfEarlierRecord(was: Instance, now: Instance, at: Time)
    requires Later(was, now)
    ensures Later(now, MarkStopped(was, at))
      <==> && now.startedTime == was.startedTime && now.deployedTime == was.deployedTime
           && (Truthy(now.status.nodeName) ==> now.status.nodeName == was.status.nodeName)
  {}

  /** A status that comes in between the read and the store of a pass: the record loses what the status set for
      the first time, unless the pass does not mark it. */
  lemma PassOverwritesUpdate(was: Instance, s: Status, clock: Clock, begin: Event, end: Event)
    requires Valid(s) && s.ownerToken.Some? && s.id == was.id && was.id != ""
    requires begin.PassBegin? && end.PassEnd? && CountsAsRunning(was, begin.installation, begin.workspaces)
    ensures var run := [Arrive(StatusUpdate(s)), begin, Begin(was.id), End(was.id, clock, true)];
      var updated, final := After(Initial(map[was.id := was]), run), After(Initial(map[was.id := was]), run + [end]);
      && IsRun(Initial(map[was.id := was]), run + [end])
      && updated.db == map[was.id := Updated(was, s, clock)]
      && final.db == map[was.id := if IsDue(was, end) then MarkStopped(was, end.passClock.stoppedAt(was.id))
                                   else Updated(was, s, clock)]
      && (Later(updated.db[was.id], final.db[was.id])
          <==> || !IsDue(was, end)
               || (&& (was.startedTime.Some? || !s.phase.Running?)
                   && (was.deployedTime.Some? || !s.conditions.value.deployed.True?)
                   && (Truthy(was.status.nodeName) || !Truthy(s.runtimeNode))))
  {
    var s0 := Initial(map[was.id := was]);
    var run := [Arrive(StatusUpdate(s)), begin, Begin(was.id), End(was.id, clock, true)];
    UpdateDuringPass(was, s, clock, begin);
    OneMoreAtEnd(s0, run, end);
    PassEndOnOne(After(s0, run), was, end);
    MarkAfterUpdate(was, s, clock, end.passClock.stoppedAt(was.id));
    LaterReflexive(Updated(was, s, clock));
  }

  lemma UpdateDuringPass(was: Instance, s: Status, clock: Clock, begin: Event)
    requires Valid(s) && s.ownerToken.Some? && s.id == was.id && was.id != ""
    requires begin.PassBegin? && CountsAsRunning(was, begin.installation, begin.workspaces)
    ensures var run := [Arrive(StatusUpdate(s)), begin, Begin(was.id), End(was.id, clock, true)];
      var t := After(Initial(map[was.id := was]), run);
      && IsRun(Initial(map[was.id := was]), run)
      && t.db == map[was.id := Updated(was, s, clock)] && t.pass == Some(map[was.id := was])
  {
    var i, msg := was.id, StatusUpdate(s);
    var s0 := Initial(map[i := was]);
    var s1 := Enqueue(s0, i, msg);
    var s2 := s1.(pass := Some(map[i := was]));
    var s3 := Start(s2, i);
    assert RunningInstances(s1.db, begin.installation, begin.workspaces) == map[i := was];
    assert Next(s0, Arrive(msg)) == s1 && Next(s1, begin) == s2 && Next(s2, Begin(i)) == s3;
    HandlerStores(s3, was, s, clock);
    FourSteps(s0, Arrive(msg), begin, Begin(i), End(i, clock, true));
  }

  lemma HandlerStores(t: State, was: Instance, s: Status, clock: Clock)
    requires Valid(s) && s.ownerToken.Some?
    requires was.id in t.active && t.active[was.id] == Active(StatusUpdate(s), Some(was)) && t.db.Keys == {was.id}
    ensures Next(t, End(was.id, clock, true)).db == map[was.id := Updated(was, s, clock)]
    ensures Next(t, End(was.id, clock, true)).pass == t.pass
  {}

  lemma PassEndOnOne(t: State, was: Instance, end: Event)
    requires end.PassEnd? && t.pass == Some(map[was.id := was]) && t.db.Keys == {was.id}
    ensures Next(t, end).db
         == if IsDue(was, end) then map[was.id := MarkStopped(was, end.passClock.stoppedAt(was.id))] else t.db
  {
    SoleMark(was, end);
  }

  /** In particular, an instance that is too old and starts running in between loses its started time. */
  lemma OverlapLosesStartedTime(was: Instance, s: Status, clock: Clock, begin: Event, end: Event)
    requires Valid(s) && s.ownerToken.Some? && s.id == was.id && was.id != "" && s.phase.Running?
    requires begin.PassBegin? && end.PassEnd? && CountsAsRunning(was, begin.installation, begin.workspaces)
    requires was.startedTime.None? && was.id !in end.managed && was.id !in end.failed
    requires was.creationTime.Some?
    requires end.passClock.checkedAt(was.id) - was.creationTime.value > 1000 * end.maxSeconds
    ensures var s0 := Initial(map[was.id := was]);
      var run := [Arrive(StatusUpdate(s)), begin, Begin(was.id), End(was.id, clock, true)];
      && IsRun(s0, run + [end])
      && was.id in After(s0, run).db && was.id in After(s0, run + [end]).db
      && After(s0, run).db[was.id].startedTime == Some(clock.phaseAt)
      && After(s0, run + [end]).db[was.id].startedTime == None
  {
    OverLimit(was, end.maxSeconds, end.passClock.checkedAt(was.id));
    PassOverwritesUpdate(was, s, clock, begin, end);
  }

  lemma OverLimit(i: Instance, maxSeconds: int, now: Time)
    requires i.creationTime.Some? && now - i.creationTime.value > 1000 * maxSeconds
    ensures ShouldStop(i, maxSeconds, now)
  {}

  /** Whether some pass of a run marks the instance. */
  predicate MarkedDuring(s: State, run: seq<Event>, i: Id)
    decreases |run|
  {
    run != [] && (MarksAt(s, run[0], i) || MarkedDuring(Next(s, run[0]), run[1..], i))
  }

  predicate MarksAt(s: State, e: Event, i: Id) {
    && e.PassEnd? && s.pass.Some?
    && i in Marked(s.pass.value, e.managed, e.passClock, e.maxSeconds, e.failed)
  }

  /** A handler has read `was`, and the record is still that, or marked by a pass; no pass has read anything else. */
  ghost predicate HandlerPending(s: State, i: Id, msg: Message, was: Instance, marked: bool) {
    && i in s.active && s.active[i] == Active(msg, Some(was)) && i in s.db
    && (if marked then IsMarkOf(s.db[i], was) && (s.pass.None? || i !in s.pass.value)
        else s.db[i] == was && (s.pass.Some? && i in s.pass.value ==> s.pass.value[i] == was))
  }

  ghost predicate IsMarkOf(now: Instance, was: Instance) {
    exists at :: now == MarkStopped(was, at)
  }

  lemma HandlerStaysPending(s: State, e: Event, i: Id, msg: Message, was: Instance, marked: bool)
    requires HandlerPending(s, i, msg, was, marked) && Enabled(s, e) && !(e.End? && e.id == i)
    ensures HandlerPending(Next(s, e), i, msg, was, marked || MarksAt(s, e, i))
  {
    hide HandleMessage;
    if e.PassEnd? && MarksAt(s, e, i) {
      assert Next(s, e).db[i] == MarkStopped(was, e.passClock.stoppedAt(i));
    }
  }

  lemma {:induction false} HandlerPendingRun(s: State, mid: seq<Event>, i: Id,
                                             msg: Message, was: Instance, marked: bool)
    requires HandlerPending(s, i, msg, was, marked) && IsRun(s, mid) && forall e | e in mid :: !(e.End? && e.id == i)
    ensures HandlerPending(After(s, mid), i, msg, was, marked || MarkedDuring(s, mid, i))
    decreases |mid|
  {
    hide HandlerPending;
    if mid != [] {
      assert mid[0] in mid;
      HandlerStaysPending(s, mid[0], i, msg, was, marked);
      HandlerPendingRun(Next(s, mid[0]), mid[1..], i, msg, was, marked || MarksAt(s, mid[0], i));
    }
  }

  /** A handler stores what it has read, updated, whatever happened in between. If no pass has marked the record, that
      keeps its lifecycle. If one has, the stop time survives if and only if the record had one before or the status
      reports a stop, and then the lifecycle is kept; the phase is the one the handler makes of what it has read. */
  lemma HandlerOverlapExactly(s: State, mid: seq<Event>, i: Id, status: Status, clock: Clock)
    requires i in s.db && HandlerPending(s, i, StatusUpdate(status), s.db[i], false)
    requires Valid(status) && status.ownerToken.Some?
    requires IsRun(s, mid) && forall e | e in mid :: !(e.End? && e.id == i)
    ensures i in After(s, mid).db && IsRun(s, mid + [End(i, clock, true)])
    ensures var was, now := s.db[i], After(s, mid).db[i];
      var final := After(s, mid + [End(i, clock, true)]).db;
      && (if MarkedDuring(s, mid, i) then IsMarkOf(now, was) else now == was)
      && i in final && final[i] == Updated(was, status, clock)
      && (Later(now, final[i]) <==> !MarkedDuring(s, mid, i) || was.stoppedTime.Some? || status.phase.Stopped?)
      && (final[i].status.phase.Stopped?
          <==> || status.phase.Stopped?
               || (was.status.phase.Stopped? && (status.phase.Unknown? || status.phase.Preparing?)))
  {
    hide MarkedDuring;
    var was := s.db[i];
    HandlerPendingRun(s, mid, i, StatusUpdate(status), was, false);
    OneMoreAtEnd(s, mid, End(i, clock, true));
    UpdateKeepsLifecycle(was, status, clock);
    var now := After(s, mid).db[i];
    if MarkedDuring(s, mid, i) {
      var at :| now == MarkStopped(was, at);
      UpdateAfterMark(was, status, clock, at);
    }
  }

  /** A pass that begins and ends while a handler is at work: the handler stores what it read before. The stop time
      survives if and only if the pass did not mark the record, the record had one already, or the status reports a
      stop; the stopped phase survives if and only if the status reports it. */
  lemma UpdateOverwritesPass(was: Instance, s: Status, clock: Clock, begin: Event, end: Event)
    requires Valid(s) && s.ownerToken.Some? && s.id == was.id && was.id != ""
    requires begin.PassBegin? && end.PassEnd? && CountsAsRunning(was, begin.installation, begin.workspaces)
    ensures var run := [Arrive(StatusUpdate(s)), Begin(was.id), begin, end];
      var marked := After(Initial(map[was.id := was]), run);
      var final := After(Initial(map[was.id := was]), run + [End(was.id, clock, true)]);
      && IsRun(Initial(map[was.id := was]), run + [End(was.id, clock, true)])
      && marked.db == map[was.id := if IsDue(was, end) then MarkStopped(was, end.passClock.stoppedAt(was.id)) else was]
      && final.db == map[was.id := Updated(was, s, clock)]
      && (Later(marked.db[was.id], final.db[was.id]) <==> !IsDue(was, end) || was.stoppedTime.Some? || s.phase.Stopped?)
      && (final.db[was.id].status.phase.Stopped? <==> s.phase.Stopped?)
  {
    var s0, run := Initial(map[was.id := was]), [Arrive(StatusUpdate(s)), Begin(was.id), begin, end];
    PassDuringHandler(was, s, begin, end);
    OneMoreAtEnd(s0, run, End(was.id, clock, true));
    HandlerStores(After(s0, run), was, s, clock);
    UpdateAfterMark(was, s, clock, end.passClock.stoppedAt(was.id));
    UpdateKeepsLifecycle(was, s, clock);
  }

  lemma PassDuringHandler(was: Instance, s: Status, begin: Event, end: Event)
    requires s.id == was.id && was.id != ""
    requires begin.PassBegin? && end.PassEnd? && CountsAsRunning(was, begin.installation, begin.workspaces)
    ensures var run := [Arrive(StatusUpdate(s)), Begin(was.id), begin, end];
      var t := After(Initial(map[was.id := was]), run);
      && IsRun(Initial(map[was.id := was]), run)
      && t.db == map[was.id := if IsDue(was, end) then MarkStopped(was, end.passClock.stoppedAt(was.id)) else was]
      && was.id in t.active && t.active[was.id] == Active(StatusUpdate(s), Some(was))
  {
    var i, msg := was.id, StatusUpdate(s);
    var s0 := Initial(map[i := was]);
    var s1 := Enqueue(s0, i, msg);
    var s2 := Start(s1, i);
    var s3 := s2.(pass := Some(map[i := was]));
    assert RunningInstances(s2.db, begin.installation, begin.workspaces) == map[i := was];
    assert Next(s0, Arrive(msg)) == s1 && Next(s1, Begin(i)) == s2 && Next(s2, begin) == s3;
    PassEndOnOne(s3, was, end);
    FourSteps(s0, Arrive(msg), Begin(i), begin, end);
  }

  lemma UpdateAfterMark(was: Instance, s: Status, clock: Clock, now: Time)
    requires Valid(s)
    ensures Later(MarkStopped(was, now), Updated(was, s, clock)) <==> was.stoppedTime.Some? || s.phase.Stopped?
  {}

  /** Whether a pass that has read the instance marks it. */
  predicate IsDue(i: Instance, end: Event)
    requires end.PassEnd?
  {
    && i.id !in end.managed && i.id !in end.failed
    && ShouldStop(i, end.maxSeconds, end.passClock.checkedAt(i.id))
  }

  lemma SoleMark(was: Instance, end: Event)
    requires end.PassEnd?
    ensures Marked(map[was.id := was], end.managed, end.passClock, end.maxSeconds, end.failed)
         == if IsDue(was, end) then map[was.id := MarkStopped(was, end.passClock.stoppedAt(was.id))] else map[]
  {}

  lemma MarkAfterUpdate(was: Instance, s: Status, clock: Clock, now: Time)
    requires Valid(s)
    ensures Later(Updated(was, s, clock), MarkStopped(was, now))
      <==> && (was.startedTime.Some? || !s.phase.Running?)
           && (was.deployedTime.Some? || !s.conditions.value.deployed.True?)
           && (Truthy(was.status.nodeName) || !Truthy(s.runtimeNode))
  {}

  lemma FourSteps(s: State, a: Event, b: Event, c: Event, d: Event)
    ensures After(s, [a, b, c, d]) == Next(Next(Next(Next(s, a), b), c), d)
    ensures (Enabled(s, a) && Enabled(Next(s, a), b) && Enabled(Next(Next(s, a), b), c)
             && Enabled(Next(Next(Next(s, a), b), c), d)) ==> IsRun(s, [a, b, c, d])
  {
    OneMore(s, a, [b, c, d]);
    OneMore(Next(s, a), b, [c, d]);
    OneMore(Next(Next(s, a), b), c, [d]);
    OneMore(Next(Next(Next(s, a), b), c), d, []);
    assert [a] + [b, c, d] == [a, b, c, d] && [b] + [c, d] == [b, c, d] && [c] + [d] == [c, d];
  }

  lemma OneMoreAtEnd(s: State, run: seq<Event>, e: Event)
    ensures After(s, run + [e]) == Next(After(s, run), e)
    ensures IsRun(s, run) && Enabled(After(s, run), e) ==> IsRun(s, run + [e])
  {
    RunConcat(s, run, [e]);
    OneMore(After(s, run), e, []);
  }

  lemma OneMore(s: State, e: Event, run: seq<Event>)
    ensures After(s, [e] + run) == After(Next(s, e), run)
    ensures Enabled(s, e) && IsRun(Next(s, e), run) ==> IsRun(s, [e] + run)
  {
    assert ([e] + run)[1..] == run;
  }

  lemma {:induction false} RunConcat(s: State, a: seq<Event>, b: seq<Event>)
    ensures After(s, a + b) == After(After(s, a), b)
    ensures IsRun(s, a) && IsRun(After(s, a), b) ==> IsRun(s, a + b)
    decreases |a|
  {
    if a == [] {
      assert a + b == b;
    } else {
      assert (a + b)[1..] == a[1..] + b;
      RunConcat(Next(s, a[0]), a[1..], b);
    }
  }

  lemma TakeOne(m: map<Id, Instance>, todo: set<Id>, i: Id)
    requires i in todo
    ensures m - (todo - {i}) == if i in m then (m - todo)[i := m[i]] else m - todo
  {}

  // ---- The class ----

  class WorkspaceManagerBridge {
    var db: map<Id, Instance>
    ghost var arrived: map<Id, seq<Message>>
    var queues: map<Id, seq<Message>>
    var handlers: map<Id, Active>
    ghost var finished: map<Id, seq<Finished>>
    var metrics: seq<Metric>
    var runningInstances: Option<map<Id, Instance>>

    constructor (db: map<Id, Instance>)
      ensures State() == Initial(db)
    {
      this.db, arrived, queues, handlers := db, map[], map[], map[];
      finished, metrics, runningInstances := map[], [], None;
    }

    ghost function State(): State reads this {
      Snapshot(db, arrived, queues, handlers, finished, metrics, runningInstances)
    }

    /** Queues a message behind the earlier ones of its instance; a message without an id is dropped. */
    method SerializeMessagesByInstanceId(msg: Message)
      modifies this`queues, this`arrived
      ensures State() == Next(old(State()), Arrive(msg))
    {
      var instanceId := InstanceId(msg);
      if instanceId == "" {
        return;
      }
      var q := if instanceId in queues then queues[instanceId] else [];
      q := q + [msg];
      queues := queues[instanceId := q];
      arrived := arrived[instanceId := Get(arrived, instanceId) + [msg]];
    }

    /** The queue starts its next operation, which reads the record. */
    method StartHandler(id: Id)
      requires id !in handlers && Get(queues, id) != []
      modifies this`queues, this`handlers
      ensures State() == Next(old(State()), Begin(id))
    {
      handlers := handlers[id := Active(queues[id][0], Find(db, id))];
      queues := queues[id := queues[id][1..]];
    }

    /** The rest of the operation. However it ends, the queue goes on with the next one. */
    method FinishHandler(id: Id, clock: Clock, stored: bool)
      requires id in handlers
      modifies this`db, this`handlers, this`finished, this`metrics
      ensures State() == Next(old(State()), End(id, clock, stored))
    {
      var handler := handlers[id];
      handlers := handlers - {id};
      finished := finished[id := Get(finished, id) + [Finished(handler.msg, clock, stored)]];
      match handler.msg {
        case StatusUpdate(status) =>
          var _ := HandleStatusUpdate(id, handler.snapshot, status, clock, stored);
        case HeadlessLog(_, _) =>
      }
    }

    /** Updates the record that was read, and stores it; false stands for a thrown error. */
    method HandleStatusUpdate(id: Id, read: Option<Instance>, status: Status, clock: Clock, stored: bool)
      returns (ok: bool)
      modifies this`db, this`metrics
      ensures var h := Handle(read, status, clock);
        && db == (if h.Store? && stored then old(db)[id := h.instance] else old(db))
        && metrics == old(metrics) + MetricsFrom(h)
      ensures ok <==>
        || read.None? || status.spec.None? || status.metadata.None? || status.conditions.None?
        || (status.ownerToken.Some? && stored)
    {
      if status.spec.None? || status.metadata.None? || status.conditions.None? || read.None? {
        return true;
      }
      var instance, authenticated := UpdateRecord(read.value, status, clock);
      if !authenticated {
        return false;
      }
      if stored {
        db := db[id := instance];
      }
      ok := stored;
    }

    /** The changes to the record, up to the access to a missing owner token, which throws. */
    method UpdateRecord(was: Instance, status: Status, clock: Clock) returns (instance: Instance, ok: bool)
      requires Valid(status)
      modifies this`metrics
      ensures ok == status.ownerToken.Some?
      ensures ok ==> instance == Updated(was, status, clock)
      ensures metrics == old(metrics) + ActivityMetrics(was, status) + if ok then StartupMetrics(was, status) else []
    {
      hide MapRepo, MapPorts;
      instance := was;
      var current := instance.status;
      if current.conditions.firstUserActivity.None? && status.conditions.value.firstUserActivity.Some? {
        ObserveFirstUserActivity(instance);
      }
      instance := instance.(ideUrl := status.spec.value.url);
      current := UpdateStatus(current, status);
      ok := status.ownerToken.Some?;
      if !ok {
        return;
      }
      current := current.(ownerToken := status.ownerToken);
      instance := CompleteRecord(instance, current, status, clock);
    }

    /** The part after the access to the owner token. */
    method CompleteRecord(was: Instance, before: InstanceStatus, status: Status, clock: Clock)
      returns (instance: Instance)
      modifies this`metrics
      ensures instance == was.(
                status := before.(
                  repo := if status.repo.Some? then Some(MapRepo(status.repo.value)) else before.repo,
                  phase := if status.phase.Unknown? || status.phase.Preparing? then before.phase else status.phase),
                deployedTime :=
                  if before.conditions.deployed == Some(true) && was.deployedTime.None? then Some(clock.deployedAt)
                  else was.deployedTime,
                startedTime :=
                  if status.phase.Running? && was.startedTime.None? then Some(clock.phaseAt) else was.startedTime,
                stoppedTime := if status.phase.Stopped? then Some(clock.phaseAt) else was.stoppedTime)
      ensures metrics == old(metrics) + StartupMetrics(was, status)
    {
      hide MapRepo;
      var current := before;
      instance := was;
      if status.repo.Some? {
        current := current.(repo := Some(MapRepo(status.repo.value)));
      }
      if current.conditions.deployed == Some(true) && instance.deployedTime.None? {
        instance := instance.(deployedTime := Some(clock.deployedAt));
      }
      instance, current := UpdatePhase(instance, current, status, clock);
      instance := instance.(status := current);
    }

    method UpdateStatus(was: InstanceStatus, status: Status) returns (current: InstanceStatus)
      requires Valid(status)
      ensures current == UpdatedStatus(was, status).(phase := was.phase, repo := was.repo, ownerToken := was.ownerToken)
    {
      current := was;
      if status.spec.value.exposedPorts.Some? {
        current := current.(exposedPorts := Some(MapPorts(status.spec.value.exposedPorts.value)));
      }
      current := current.(timeout := status.spec.value.timeout);
      var conditions := UpdateConditions(current.conditions, status.conditions.value);
      current := current.(conditions := conditions);
      current := current.(message := status.message);
      if !Truthy(current.nodeName) {
        current := current.(nodeName := status.runtimeNode);
      }
    }

    method UpdateConditions(was: InstanceConditions, reported: Conditions) returns (conditions: InstanceConditions)
      ensures conditions == UpdatedConditions(was, reported)
    {
      conditions := was.(failed := reported.failed);
      conditions := conditions.(pullingImages := ToBool(reported.pullingImages));
      conditions := conditions.(serviceExists := ToBool(reported.serviceExists));
      conditions := conditions.(deployed := ToBool(reported.deployed));
      conditions := conditions.(timeout := reported.timeout);
      conditions := conditions.(firstUserActivity := reported.firstUserActivity);
    }

    /** The switch over the reported phase. */
    method UpdatePhase(was: Instance, current: InstanceStatus, status: Status, clock: Clock)
      returns (instance: Instance, next: InstanceStatus)
      modifies this`metrics
      ensures instance == was.(
                startedTime :=
                  if status.phase.Running? && was.startedTime.None? then Some(clock.phaseAt) else was.startedTime,
                stoppedTime := if status.phase.Stopped? then Some(clock.phaseAt) else was.stoppedTime)
      ensures next == current.(
                phase := if status.phase.Unknown? || status.phase.Preparing? then current.phase else status.phase)
      ensures metrics == old(metrics) + StartupMetrics(was, status)
    {
      instance, next := was, current;
      match status.phase {
        case Running =>
          if instance.startedTime.None? {
            instance := instance.(startedTime := Some(clock.phaseAt));
            metrics := metrics + [Startup(instance.id)];
          }
          next := next.(phase := Running);
        case Stopped =>
          instance := instance.(stoppedTime := Some(clock.phaseAt));
          next := next.(phase := Stopped);
        case Unknown =>
        case Preparing =>
        case phase =>
          next := next.(phase := phase);
      }
    }

    method ObserveFirstUserActivity(instance: Instance)
      modifies this`metrics
      ensures metrics == old(metrics) + if instance.startedTime.Some? then [FirstUserActivity(instance.id)] else []
    {
      if instance.startedTime.Some? {
        metrics := metrics + [FirstUserActivity(instance.id)];
      }
    }

    /** The first half of a pass: reads what the database has as running. */
    method FindRunningInstances(installation: string, workspaces: set<string>)
      modifies this`runningInstances
      ensures State() == Next(old(State()), PassBegin(installation, workspaces))
      ensures runningInstances.Some? && forall i ::
                i in runningInstances.value
                <==> && i in db && db[i].status.phase != Stopped && !db[i].deleted && db[i].workspaceId in workspaces
                     && (installation == "" || db[i].region == installation)
      ensures forall i | i in runningInstances.value :: runningInstances.value[i] == db[i]
    {
      runningInstances := Some(RunningInstances(db, installation, workspaces));
    }

    /** The second half: drops what the manager lists, and marks the rest where it is due. */
    method ControlInstances(managed: set<Id>, clock: PassClock, maxSeconds: int, failed: set<Id>)
      requires runningInstances.Some?
      modifies this`db, this`runningInstances
      ensures State() == Next(old(State()), PassEnd(managed, clock, maxSeconds, failed))
    {
      var index := DropListed(runningInstances.value, managed);
      MarkDue(index, clock, maxSeconds, failed);
      assert Marked(index, {}, clock, maxSeconds, failed)
          == Marked(runningInstances.value, managed, clock, maxSeconds, failed);
      runningInstances := None;
    }

    method DropListed(running: map<Id, Instance>, managed: set<Id>) returns (index: map<Id, Instance>)
      ensures index == running - managed
    {
      index := running;
      var listed := managed;
      while listed != {}
        invariant listed <= managed && index == running - (managed - listed)
      {
        var id :| id in listed;
        index := index - {id};
        listed := listed - {id};
      }
    }

    method MarkDue(index: map<Id, Instance>, clock: PassClock, maxSeconds: int, failed: set<Id>)
      modifies this`db
      ensures db == old(db) + Marked(index, {}, clock, maxSeconds, failed)
    {
      ghost var marked := Marked(index, {}, clock, maxSeconds, failed);
      var todo := index.Keys;
      while todo != {}
        invariant todo <= index.Keys
        invariant db == old(db) + (marked - todo)
      {
        var id :| id in todo;
        var instance := index[id];
        ghost var before := todo;
        todo := todo - {id};
        if ShouldStop(instance, maxSeconds, clock.checkedAt(id)) {
          instance := instance.(status := instance.status.(phase := Stopped));
          instance := instance.(stoppedTime := Some(clock.stoppedAt(id)));
          if id !in failed {
            db := db[id := instance];
            assert marked[id] == instance;
          }
        }
        TakeOne(marked, before, id);
      }
      assert marked - {} == marked;
    }
  }
}
