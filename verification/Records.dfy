/** What the record of an instance holds after any history of its messages, field by field
    (components/ws-manager-bridge/src/bridge.ts). */
module Records {
  import opened Bridge
  import opened Instances
  import opened Options

  /** Complete, authenticated and accepted by the database; no other message changes a record. */
  predicate IsStored(f: Finished) {
    && f.msg.StatusUpdate? && f.stored
    && f.msg.status.spec.Some? && f.msg.status.metadata.Some? && f.msg.status.conditions.Some?
    && f.msg.status.ownerToken.Some?
  }

  predicate HasPorts(f: Finished) {
    IsStored(f) && f.msg.status.spec.value.exposedPorts.Some?
  }

  predicate HasRepo(f: Finished) {
    IsStored(f) && f.msg.status.repo.Some?
  }

  /** The phases unknown and preparing are not stored. */
  predicate HasPhase(f: Finished) {
    IsStored(f) && f.msg.status.phase != Unknown && f.msg.status.phase != Preparing
  }

  predicate IsRunning(f: Finished) {
    IsStored(f) && f.msg.status.phase == Running
  }

  predicate IsStopped(f: Finished) {
    IsStored(f) && f.msg.status.phase == Stopped
  }

  predicate IsDeployed(f: Finished) {
    IsStored(f) && f.msg.status.conditions.value.deployed == True
  }

  predicate IsNode(name: Option<string>) {
    name != None && name != Some("")
  }

  predicate HasNode(f: Finished) {
    IsStored(f) && IsNode(f.msg.status.runtimeNode)
  }

  predicate Tells(stored: Option<bool>, reported: ConditionBool) {
    match reported
    case Empty => stored == None
    case True => stored == Some(true)
    case False => stored == Some(false)
  }

  /** The fields that every stored status replaces. */
  predicate ShowsStatus(now: Instance, s: Status)
    requires s.spec.Some? && s.conditions.Some?
  {
    var stored, reported := now.status.conditions, s.conditions.value;
    && now.ideUrl == s.spec.value.url
    && now.status.timeout == s.spec.value.timeout
    && now.status.message == s.message
    && now.status.ownerToken == s.ownerToken
    && stored.failed == reported.failed
    && stored.timeout == reported.timeout
    && Tells(stored.pullingImages, reported.pullingImages)
    && Tells(stored.serviceExists, reported.serviceExists)
    && Tells(stored.deployed, reported.deployed)
    && stored.firstUserActivity == reported.firstUserActivity
  }

  /** The reported ports, in order; target port 0 means none. */
  predicate ShowsPorts(stored: Option<seq<Port>>, ports: seq<PortSpec>) {
    && stored.Some? && |stored.value| == |ports|
    && forall j | 0 <= j < |ports| ::
         var port := stored.value[j];
         && port.port == ports[j].port && port.url == ports[j].url && port.visibility == ports[j].visibility
         && port.targetPort == (if ports[j].target == 0 then None else Some(ports[j].target))
  }

  predicate ShowsList(stored: Option<seq<string>>, reported: seq<string>) {
    if |reported| == 0 then stored == None else stored == Some(reported)
  }

  predicate ShowsRepo(repo: Option<Repo>, r: RepoStatus) {
    && repo.Some?
    && var stored := repo.value;
    && stored.branch == r.branch && stored.latestCommit == r.latestCommit
    && ShowsList(stored.uncommitedFiles, r.uncommitedFiles) && stored.totalUncommitedFiles == r.totalUncommitedFiles
    && ShowsList(stored.unpushedCommits, r.unpushedCommits) && stored.totalUnpushedCommits == r.totalUnpushedCommits
    && ShowsList(stored.untrackedFiles, r.untrackedFiles) && stored.totalUntrackedFiles == r.totalUntrackedFiles
  }

  /** What messages keep: the fields that none of them reports, and those that are fixed once set. */
  predicate Keeps(was: Instance, now: Instance) {
    && now.id == was.id && now.workspaceId == was.workspaceId && now.region == was.region
    && now.deleted == was.deleted && now.creationTime == was.creationTime
    && now.status.conditions.neededImageBuild == was.status.conditions.neededImageBuild
    && (was.startedTime.Some? ==> now.startedTime == was.startedTime)
    && (was.deployedTime.Some? ==> now.deployedTime == was.deployedTime)
    && (IsNode(was.status.nodeName) ==> now.status.nodeName == was.status.nodeName)
  }

  // ---- One message ----

  lemma StoredIsUpdated(was: Instance, f: Finished)
    ensures Apply(Some(was), f) == if IsStored(f) then Some(Updated(was, f.msg.status, f.clock)) else Some(was)
  {
    hide Updated, ActivityMetrics, StartupMetrics;
  }

  lemma UpdateShowsStatus(was: Instance, s: Status, clock: Clock)
    requires Valid(s)
    ensures Keeps(was, Updated(was, s, clock)) && ShowsStatus(Updated(was, s, clock), s)
  {
    hide MapPorts, MapRepo;
  }

  lemma UpdateShowsLists(was: Instance, s: Status, clock: Clock)
    requires Valid(s)
    ensures var now := Updated(was, s, clock);
      && (if s.spec.value.exposedPorts.Some? then ShowsPorts(now.status.exposedPorts, s.spec.value.exposedPorts.value)
          else now.status.exposedPorts == was.status.exposedPorts)
      && (if s.repo.Some? then ShowsRepo(now.status.repo, s.repo.value) else now.status.repo == was.status.repo)
  {
    hide UpdatedConditions;
  }

  lemma UpdateShowsPhase(was: Instance, s: Status, clock: Clock)
    requires Valid(s)
    ensures var now := Updated(was, s, clock);
      && now.status.phase == (if s.phase == Unknown || s.phase == Preparing then was.status.phase else s.phase)
      && now.stoppedTime == (if s.phase == Stopped then Some(clock.phaseAt) else was.stoppedTime)
      && (was.startedTime.None? ==> now.startedTime == if s.phase == Running then Some(clock.phaseAt) else None)
      && (was.deployedTime.None? ==>
            now.deployedTime == if s.conditions.value.deployed == True then Some(clock.deployedAt) else None)
      && (!IsNode(was.status.nodeName) ==> now.status.nodeName == s.runtimeNode)
  {
    hide MapPorts, MapRepo, UpdatedConditions;
  }

  lemma OneMessage(was: Instance, f: Finished)
    ensures Apply(Some(was), f).Some?
    ensures var now := Apply(Some(was), f).value;
      && Keeps(was, now)
      && (!IsStored(f) ==> now == was)
      && (IsStored(f) ==> ShowsStatus(now, f.msg.status))
      && (if HasPorts(f) then ShowsPorts(now.status.exposedPorts, f.msg.status.spec.value.exposedPorts.value)
          else now.status.exposedPorts == was.status.exposedPorts)
      && (if HasRepo(f) then ShowsRepo(now.status.repo, f.msg.status.repo.value)
          else now.status.repo == was.status.repo)
      && now.status.phase == (if HasPhase(f) then f.msg.status.phase else was.status.phase)
      && now.stoppedTime == (if IsStopped(f) then Some(f.clock.phaseAt) else was.stoppedTime)
      && (was.startedTime.None? ==> now.startedTime == if IsRunning(f) then Some(f.clock.phaseAt) else None)
      && (was.deployedTime.None? ==> now.deployedTime == if IsDeployed(f) then Some(f.clock.deployedAt) else None)
      && (IsStored(f) && !IsNode(was.status.nodeName) ==> now.status.nodeName == f.msg.status.runtimeNode)
  {
    hide Apply, Updated, ShowsStatus, ShowsPorts, ShowsRepo;
    StoredIsUpdated(was, f);
    if IsStored(f) {
      UpdateShowsStatus(was, f.msg.status, f.clock);
      UpdateShowsLists(was, f.msg.status, f.clock);
      UpdateShowsPhase(was, f.msg.status, f.clock);
    }
  }

  // ---- Histories ----

  /** The last message with a property, and the first one. */
  function LastOf(history: seq<Finished>, p: Finished -> bool): (r: Option<Finished>)
    ensures if r.Some? then p(r.value) && r.value in history else forall f | f in history :: !p(f)
  {
    if history == [] then None
    else
      var n := |history| - 1;
      if p(history[n]) then Some(history[n]) else LastOf(history[..n], p)
  }

  function FirstOf(history: seq<Finished>, p: Finished -> bool): (r: Option<Finished>)
    ensures if r.Some? then p(r.value) && r.value in history else forall f | f in history :: !p(f)
  {
    if history == [] then None
    else
      var n := |history| - 1;
      var earlier := FirstOf(history[..n], p);
      if earlier.Some? then earlier else if p(history[n]) then Some(history[n]) else None
  }

  /** What a record was and is, before and after a history of its messages. */
  ghost predicate ShowsReports(was: Instance, now: Instance, history: seq<Finished>) {
    && (match LastOf(history, IsStored)
        case Some(f) => ShowsStatus(now, f.msg.status)
        case None => now == was)
    && (match LastOf(history, HasPorts)
        case Some(f) => ShowsPorts(now.status.exposedPorts, f.msg.status.spec.value.exposedPorts.value)
        case None => now.status.exposedPorts == was.status.exposedPorts)
    && (match LastOf(history, HasRepo)
        case Some(f) => ShowsRepo(now.status.repo, f.msg.status.repo.value)
        case None => now.status.repo == was.status.repo)
    && (match LastOf(history, HasPhase)
        case Some(f) => now.status.phase == f.msg.status.phase
        case None => now.status.phase == was.status.phase)
  }

  ghost predicate ShowsTimes(was: Instance, now: Instance, history: seq<Finished>) {
    && (match LastOf(history, IsStopped)
        case Some(f) => now.stoppedTime == Some(f.clock.phaseAt)
        case None => now.stoppedTime == was.stoppedTime)
    && (match FirstOf(history, IsRunning)
        case Some(f) => now.startedTime == if was.startedTime.Some? then was.startedTime else Some(f.clock.phaseAt)
        case None => now.startedTime == was.startedTime)
    && (match FirstOf(history, IsDeployed)
        case Some(f) =>
          now.deployedTime == if was.deployedTime.Some? then was.deployedTime else Some(f.clock.deployedAt)
        case None => now.deployedTime == was.deployedTime)
    && (match FirstOf(history, HasNode)
        case Some(f) =>
          now.status.nodeName == if IsNode(was.status.nodeName) then was.status.nodeName else f.msg.status.runtimeNode
        case None => IsNode(now.status.nodeName) ==> now.status.nodeName == was.status.nodeName)
  }

  lemma {:induction false} HistoryShows(was: Instance, history: seq<Finished>)
    ensures Fold(Some(was), history).Some?
    ensures var now := Fold(Some(was), history).value;
      Keeps(was, now) && ShowsReports(was, now, history) && ShowsTimes(was, now, history)
    decreases |history|
  {
    hide Apply, IsStored, HasPorts, HasRepo, HasPhase, IsStopped, IsRunning, IsDeployed,
      ShowsStatus, ShowsPorts, ShowsRepo, ShowsReports, ShowsTimes, Keeps, IsNode;
    if history == [] {
      EmptyHistory(was);
    } else {
      var n := |history| - 1;
      HistoryShows(was, history[..n]);
      var before := Fold(Some(was), history[..n]).value;
      OneMessage(before, history[n]);
      var now := Apply(Some(before), history[n]).value;
      KeepsOnward(was, before, now);
      ReportsOnward(was, before, now, history);
      TimesOnward(was, before, now, history);
    }
  }

  lemma EmptyHistory(was: Instance)
    ensures Keeps(was, was) && ShowsReports(was, was, []) && ShowsTimes(was, was, [])
  {}

  lemma KeepsOnward(was: Instance, before: Instance, now: Instance)
    requires Keeps(was, before) && Keeps(before, now)
    ensures Keeps(was, now)
  {}

  lemma ReportsOnward(was: Instance, before: Instance, now: Instance, history: seq<Finished>)
    requires history != [] && ShowsReports(was, before, history[..|history| - 1])
    requires Apply(Some(before), history[|history| - 1]) == Some(now)
    ensures ShowsReports(was, now, history)
  {
    hide Apply, IsStored, HasPorts, HasRepo, HasPhase, IsStopped, IsRunning, IsDeployed,
      ShowsStatus, ShowsPorts, ShowsRepo, Keeps;
    OneMessage(before, history[|history| - 1]);
  }

  lemma TimesOnward(was: Instance, before: Instance, now: Instance, history: seq<Finished>)
    requires history != [] && Keeps(was, before) && ShowsTimes(was, before, history[..|history| - 1])
    requires Apply(Some(before), history[|history| - 1]) == Some(now)
    ensures ShowsTimes(was, now, history)
  {
    hide Apply, HasPorts, HasRepo, HasPhase, IsStopped, IsRunning, IsDeployed, ShowsStatus, ShowsPorts, ShowsRepo;
    OneMessage(before, history[|history| - 1]);
  }

  /** In every run without controller passes, the record of an instance shows, field by field, what its own
      messages reported: the last stored status, the last ports and repository among the stored ones, the last phase
      other than unknown and preparing, the first start and deployment, the last stop. Messages create no record. */
  lemma RecordShowsReports(db: map<Id, Instance>, run: seq<Event>, i: Id)
    requires IsRun(Initial(db), run) && forall e | e in run :: !IsPassEvent(e)
    ensures var s := After(Initial(db), run);
      var history := Get(s.finished, i);
      && Messages(history) <= Arrivals(run, i)
      && (i !in s.active && Get(s.waiting, i) == [] ==> Messages(history) == Arrivals(run, i))
      && (i in s.db <==> i in db)
      && (i in db ==> Keeps(db[i], s.db[i]) && ShowsReports(db[i], s.db[i], history)
                      && ShowsTimes(db[i], s.db[i], history))
  {
    hide Keeps, ShowsReports, ShowsTimes, Fold, Arrivals, Messages;
    Serializable(db, run, i);
    ArrivalsRecorded(Initial(db), run, i);
    assert Get(Initial(db).arrived, i) == [];
    assert [] + Arrivals(run, i) == Arrivals(run, i);
    var history := Get(After(Initial(db), run).finished, i);
    if i in db {
      HistoryShows(db[i], history);
    } else {
      UnknownStaysUnknown(history);
    }
  }

  lemma {:induction false} UnknownStaysUnknown(history: seq<Finished>)
    ensures Fold(None, history) == None
    decreases |history|
  {
    if history != [] {
      UnknownStaysUnknown(history[..|history| - 1]);
    }
  }
}
