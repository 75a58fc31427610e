/** Workspace instances, the status messages about them, and what one message does to one instance
    (components/ws-manager-bridge/src/bridge.ts). */
module Instances {
  import opened Options

  type Id = string

  /** A point in time, in milliseconds. */
  type Time = int

  datatype Phase = Unknown | Preparing | Pending | Creating | Initializing | Running | Interrupted | Stopping | Stopped

  datatype Visibility = Private | Public

  datatype Port = Port(port: int, targetPort: Option<int>, visibility: Option<Visibility>, url: string)

  datatype Repo = Repo(branch: string, latestCommit: string,
                       uncommitedFiles: Option<seq<string>>, totalUncommitedFiles: int,
                       unpushedCommits: Option<seq<string>>, totalUnpushedCommits: int,
                       untrackedFiles: Option<seq<string>>, totalUntrackedFiles: int)

  datatype InstanceConditions = InstanceConditions(
    failed: string, timeout: string, pullingImages: Option<bool>, serviceExists: Option<bool>, deployed: Option<bool>,
    neededImageBuild: Option<bool>, firstUserActivity: Option<Time>)

  datatype InstanceStatus = InstanceStatus(
    phase: Phase, conditions: InstanceConditions, message: string, exposedPorts: Option<seq<Port>>, repo: Option<Repo>,
    timeout: string, nodeName: Option<string>, ownerToken: Option<string>)

  /** The record of an instance; an unparsable creation time is None. */
  datatype Instance = Instance(
    id: Id, workspaceId: string, region: string, deleted: bool, creationTime: Option<Time>,
    deployedTime: Option<Time>, startedTime: Option<Time>, stoppedTime: Option<Time>,
    ideUrl: string, status: InstanceStatus)

  // ---- Status messages of the workspace manager ----

  datatype ConditionBool = False | True | Empty

  datatype PortSpec = PortSpec(port: int, target: int, visibility: Option<Visibility>, url: string)

  datatype Spec = Spec(url: string, timeout: string, exposedPorts: Option<seq<PortSpec>>)

  datatype Metadata = Metadata(metaId: string, owner: string)

  datatype Conditions = Conditions(
    failed: string, timeout: string, pullingImages: ConditionBool, serviceExists: ConditionBool,
    deployed: ConditionBool, firstUserActivity: Option<Time>)

  datatype RepoStatus = RepoStatus(branch: string, latestCommit: string,
                                   uncommitedFiles: seq<string>, totalUncommitedFiles: int,
                                   unpushedCommits: seq<string>, totalUnpushedCommits: int,
                                   untrackedFiles: seq<string>, totalUntrackedFiles: int)

  datatype Status = Status(id: Id, spec: Option<Spec>, metadata: Option<Metadata>, conditions: Option<Conditions>,
                           phase: Phase, message: string, runtimeNode: Option<string>, ownerToken: Option<string>,
                           repo: Option<RepoStatus>)

  /** Observations handed to the metrics exporter. */
  datatype Metric = Startup(id: Id) | FirstUserActivity(id: Id)

  /** The clock readings of one handler: for the deployed time, and for the phase. */
  datatype Clock = Clock(deployedAt: Time, phaseAt: Time)

  function ToBool(b: ConditionBool): Option<bool> {
    if b.Empty? then None else Some(b.True?)
  }

  function MapPort(p: PortSpec): Port {
    Port(p.port, if p.target != 0 then Some(p.target) else None, p.visibility, p.url)
  }

  function MapPorts(ports: seq<PortSpec>): seq<Port> {
    seq(|ports|, i requires 0 <= i < |ports| => MapPort(ports[i]))
  }

  function UndefinedIfEmpty(l: seq<string>): Option<seq<string>> {
    if l == [] then None else Some(l)
  }

  function MapRepo(r: RepoStatus): Repo {
    Repo(r.branch, r.latestCommit,
         UndefinedIfEmpty(r.uncommitedFiles), r.totalUncommitedFiles,
         UndefinedIfEmpty(r.unpushedCommits), r.totalUnpushedCommits,
         UndefinedIfEmpty(r.untrackedFiles), r.totalUntrackedFiles)
  }

  predicate Truthy(s: Option<string>) {
    s.Some? && s.value != ""
  }

  predicate Valid(s: Status) {
    s.spec.Some? && s.metadata.Some? && s.conditions.Some?
  }

  function UpdatedConditions(was: InstanceConditions, c: Conditions): InstanceConditions {
    InstanceConditions(c.failed, c.timeout, ToBool(c.pullingImages), ToBool(c.serviceExists), ToBool(c.deployed),
                       was.neededImageBuild, c.firstUserActivity)
  }

  function UpdatedStatus(was: InstanceStatus, s: Status): InstanceStatus
    requires Valid(s)
  {
    InstanceStatus(
      if s.phase.Unknown? || s.phase.Preparing? then was.phase else s.phase,
      UpdatedConditions(was.conditions, s.conditions.value),
      s.message,
      if s.spec.value.exposedPorts.Some? then Some(MapPorts(s.spec.value.exposedPorts.value)) else was.exposedPorts,
      if s.repo.Some? then Some(MapRepo(s.repo.value)) else was.repo,
      s.spec.value.timeout,
      if Truthy(was.nodeName) then was.nodeName else s.runtimeNode,
      s.ownerToken)
  }

  /** The record after a valid, authenticated status. */
  function Updated(was: Instance, s: Status, clock: Clock): Instance
    requires Valid(s)
  {
    was.(
      ideUrl := s.spec.value.url,
      status := UpdatedStatus(was.status, s),
      deployedTime :=
        if s.conditions.value.deployed.True? && was.deployedTime.None? then Some(clock.deployedAt)
        else was.deployedTime,
      startedTime := if s.phase.Running? && was.startedTime.None? then Some(clock.phaseAt) else was.startedTime,
      stoppedTime := if s.phase.Stopped? then Some(clock.phaseAt) else was.stoppedTime)
  }

  /** The exporter drops the observation for an instance that has not started. */
  function ActivityMetrics(was: Instance, s: Status): seq<Metric>
    requires Valid(s)
  {
    if && was.status.conditions.firstUserActivity.None?
       && s.conditions.value.firstUserActivity.Some? && was.startedTime.Some?
    then [FirstUserActivity(was.id)] else []
  }

  function StartupMetrics(was: Instance, s: Status): seq<Metric> {
    if s.phase.Running? && was.startedTime.None? then [Startup(was.id)] else []
  }

  /** What a handler does after reading: nothing, fail without storing, or store. */
  datatype Handled = Ignore | Fail(metrics: seq<Metric>) | Store(instance: Instance, metrics: seq<Metric>)

  function Handle(was: Option<Instance>, s: Status, clock: Clock): Handled {
    if !Valid(s) || was.None? then Ignore
    else if s.ownerToken.None? then Fail(ActivityMetrics(was.value, s))
    else Store(Updated(was.value, s, clock), ActivityMetrics(was.value, s) + StartupMetrics(was.value, s))
  }

  function MetricsFrom(h: Handled): seq<Metric> {
    if h.Ignore? then [] else h.metrics
  }

  // ---- Lifecycle ----

  /** The times that the phase and the deployed condition call for are set. */
  predicate Timed(i: Instance) {
    && (i.status.phase.Running? ==> i.startedTime.Some?)
    && (i.status.phase.Stopped? ==> i.stoppedTime.Some?)
    && (i.status.conditions.deployed == Some(true) ==> i.deployedTime.Some?)
  }

  /** Nothing that is fixed once set differs. */
  predicate Later(a: Instance, b: Instance) {
    && a.id == b.id && a.workspaceId == b.workspaceId && a.region == b.region
    && a.deleted == b.deleted && a.creationTime == b.creationTime
    && (a.startedTime.Some? ==> b.startedTime == a.startedTime)
    && (a.deployedTime.Some? ==> b.deployedTime == a.deployedTime)
    && (a.stoppedTime.Some? ==> b.stoppedTime.Some?)
    && (Truthy(a.status.nodeName) ==> b.status.nodeName == a.status.nodeName)
  }

  /** What the controller makes of an instance that the manager does not know. */
  function MarkStopped(i: Instance, now: Time): Instance {
    i.(status := i.status.(phase := Stopped), stoppedTime := Some(now))
  }

  lemma UpdateKeepsLifecycle(was: Instance, s: Status, clock: Clock)
    requires Valid(s)
    ensures Later(was, Updated(was, s, clock))
    ensures Timed(was) ==> Timed(Updated(was, s, clock))
    ensures StartupMetrics(was, s) == [Startup(was.id)]
      <==> was.startedTime.None? && Updated(was, s, clock).startedTime.Some?
  {}

  lemma MarkingKeepsLifecycle(was: Instance, now: Time)
    ensures Later(was, MarkStopped(was, now))
    ensures Timed(was) ==> Timed(MarkStopped(was, now))
  {}

  // ---- First user activity ----

  /** How many of the metrics are `m`. */
  function Count(metrics: seq<Metric>, m: Metric): nat {
    if metrics == [] then 0 else (if metrics[0] == m then 1 else 0) + Count(metrics[1..], m)
  }

  lemma {:induction false} CountConcat(a: seq<Metric>, b: seq<Metric>, m: Metric)
    ensures Count(a + b, m) == Count(a, m) + Count(b, m)
  {
    if a == [] {
      assert a + b == b;
    } else {
      assert (a + b)[1..] == a[1..] + b;
      CountConcat(a[1..], b, m);
    }
  }

  /** A message about one instance, the clock readings of its handler, and whether the database takes the record. */
  datatype Delivery = Delivery(status: Status, clock: Clock, stored: bool)

  function AfterDelivery(was: Instance, d: Delivery): Instance {
    var h := Handle(Some(was), d.status, d.clock);
    if h.Store? && d.stored then h.instance else was
  }

  /** The metrics of messages that are handled one after the other. */
  function MetricsOf(was: Instance, ds: seq<Delivery>): seq<Metric>
    decreases |ds|
  {
    if ds == [] then []
    else MetricsFrom(Handle(Some(was), ds[0].status, ds[0].clock)) + MetricsOf(AfterDelivery(was, ds[0]), ds[1..])
  }

  /** How often a started instance without activity is told of some; a message that is not stored leaves the
      instance as it was. */
  function Observations(started: bool, present: bool, ds: seq<Delivery>): nat
    decreases |ds|
  {
    if ds == [] then 0
    else if !Valid(ds[0].status) then Observations(started, present, ds[1..])
    else
      var now := ds[0].status.conditions.value.firstUserActivity.Some?;
      (if now && !present && started then 1 else 0)
      + if ds[0].stored && ds[0].status.ownerToken.Some?
        then Observations(started || ds[0].status.phase.Running?, now, ds[1..])
        else Observations(started, present, ds[1..])
  }

  /** The metric meant for the first user activity is observed exactly as often as a message tells a started
      instance without activity of some: again when activity has vanished or could not be stored, and never when it
      came with the status that started the instance. */
  lemma {:induction false} ActivityMetricCounts(was: Instance, ds: seq<Delivery>)
    ensures Count(MetricsOf(was, ds), FirstUserActivity(was.id))
         == Observations(was.startedTime.Some?, was.status.conditions.firstUserActivity.Some?, ds)
    decreases |ds|
  {
    if ds != [] {
      hide Handle, AfterDelivery, MetricsFrom;
      DeliveryEffect(was, ds[0]);
      var next := AfterDelivery(was, ds[0]);
      ActivityMetricCounts(next, ds[1..]);
      CountConcat(MetricsFrom(Handle(Some(was), ds[0].status, ds[0].clock)), MetricsOf(next, ds[1..]),
                  FirstUserActivity(was.id));
    }
  }

  lemma DeliveryEffect(was: Instance, d: Delivery)
    ensures var next, metrics := AfterDelivery(was, d), MetricsFrom(Handle(Some(was), d.status, d.clock));
      var present := was.status.conditions.firstUserActivity.Some?;
      && next.id == was.id
      && (if !Valid(d.status) then next == was && metrics == []
          else
            var now := d.status.conditions.value.firstUserActivity.Some?;
            && Count(metrics, FirstUserActivity(was.id)) == (if now && !present && was.startedTime.Some? then 1 else 0)
            && if d.stored && d.status.ownerToken.Some?
               then (next.startedTime.Some? <==> was.startedTime.Some? || d.status.phase.Running?)
                    && (next.status.conditions.firstUserActivity.Some? <==> now)
               else next == was)
  {
    if Valid(d.status) {
      CountConcat(ActivityMetrics(was, d.status), StartupMetrics(was, d.status), FirstUserActivity(was.id));
    }
  }

  /** Activity that is there before the instance has started, and stays, is never observed. */
  lemma ActivityCanBeMissed(was: Instance, ds: seq<Delivery>)
    requires was.startedTime.None?
    requires forall d | d in ds && Valid(d.status) :: d.status.conditions.value.firstUserActivity.Some?
    ensures Count(MetricsOf(was, ds), FirstUserActivity(was.id)) == 0
  {
    ActivityMetricCounts(was, ds);
    NeverObserved(false, was.status.conditions.firstUserActivity.Some?, ds);
  }

  lemma {:induction false} NeverObserved(started: bool, present: bool, ds: seq<Delivery>)
    requires started ==> present
    requires forall d | d in ds && Valid(d.status) :: d.status.conditions.value.firstUserActivity.Some?
    ensures Observations(started, present, ds) == 0
    decreases |ds|
  {
    if ds != [] {
      assert ds[0] in ds;
      NeverObserved(started, present, ds[1..]);
      NeverObserved(started || ds[0].status.phase.Running?, true, ds[1..]);
    }
  }

  lemma ObservedTwice(present: bool, a: Delivery, b: Delivery)
    requires Valid(a.status) && Valid(b.status) && !present
    requires a.status.conditions.value.firstUserActivity.Some? && b.status.conditions.value.firstUserActivity.Some?
    requires !a.stored || a.status.ownerToken.None?
    ensures Observations(true, present, [a, b]) == 2
  {
    assert [a, b][1..] == [b] && [b][1..] == [];
    assert Observations(true, false, [b]) == 1;
  }

  /** After a handler that failed, because the record was not stored or the owner token was missing, the same
      activity is observed again. */
  lemma ActivityRepeatsAfterFailure(was: Instance, s: Status, first: Clock, again: Clock)
    requires was.startedTime.Some? && was.status.conditions.firstUserActivity.None?
    requires Valid(s) && s.conditions.value.firstUserActivity.Some?
    ensures Count(MetricsOf(was, [Delivery(s, first, false), Delivery(s, again, true)]), FirstUserActivity(was.id)) == 2
    ensures var denied := s.(ownerToken := None);
      Count(MetricsOf(was, [Delivery(denied, first, true), Delivery(s, again, true)]), FirstUserActivity(was.id)) == 2
  {
    var failed, good := Delivery(s, first, false), Delivery(s, again, true);
    var denied := Delivery(s.(ownerToken := None), first, true);
    ActivityMetricCounts(was, [failed, good]);
    ActivityMetricCounts(was, [denied, good]);
    ObservedTwice(false, failed, good);
    ObservedTwice(false, denied, good);
  }

  /** Activity that is reported, missing and reported again is observed twice. */
  lemma ActivityCanRepeat(was: Instance, s: Status, c: Conditions, at: Time, clock: Clock)
    requires was.startedTime.Some? && was.status.conditions.firstUserActivity.None?
    requires s.spec.Some? && s.metadata.Some? && s.ownerToken.Some?
    ensures var active := Delivery(s.(conditions := Some(c.(firstUserActivity := Some(at)))), clock, true);
            var idle := Delivery(s.(conditions := Some(c.(firstUserActivity := None))), clock, true);
            Count(MetricsOf(was, [active, idle, active]), FirstUserActivity(was.id)) == 2
  {
    var active := Delivery(s.(conditions := Some(c.(firstUserActivity := Some(at)))), clock, true);
    var idle := Delivery(s.(conditions := Some(c.(firstUserActivity := None))), clock, true);
    var ds := [active, idle, active];
    ActivityMetricCounts(was, ds);
    assert ds[1..] == [idle, active] && ds[1..][1..] == [active] && [active][1..] == [];
    assert Observations(true, false, ds[1..][1..]) == 1;
  }
}
