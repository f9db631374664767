/**
 The tables of the server database that carry the task and upgrade protocol,
 and its write lambdas as functions from one database value to the next. A
 lambda that throws is rolled back and leaves every table as it was.
 */
module ServerStore {
  import opened Prelude

  datatype TaskType = CollectBasicInventory | PackageUpdate

  datatype TaskState = Queued | Assigned | Running | Succeeded | Failed | Expired

  datatype ExecutionStatus = ExecutionSucceeded | ExecutionFailed | ExecutionExpired

  datatype UpgradeState = UpgradeQueued | WaitingReconnect | UpgradeSucceeded | UpgradeFailed

  predicate IsTerminal(s: TaskState) { s.Succeeded? || s.Failed? || s.Expired? }

  function TerminalState(status: ExecutionStatus): (r: TaskState) {
    match status
    case ExecutionSucceeded => Succeeded
    case ExecutionFailed => Failed
    case ExecutionExpired => Expired
  }

  /** A task as a caller hands it over. Instants are seconds. */
  datatype Task = Task(taskId: string, agentId: string, taskType: TaskType, createdAt: int, expiresAt: int)

  datatype TaskRow = TaskRow(
    task: Task,
    state: TaskState,
    prerequisite: Option<string>,
    assignedAt: Option<int>,
    completedAt: Option<int>)

  datatype RunningEvent = RunningEvent(taskId: string, agentId: string, taskType: TaskType, occurredAt: int)

  datatype ResultEvent = ResultEvent(
    taskId: string,
    agentId: string,
    taskType: TaskType,
    occurredAt: int,
    status: ExecutionStatus,
    hasPayload: bool,
    errorCode: Option<string>)

  datatype Registration = Registration(agentId: string, agentVersion: string, occurredAt: int)

  /** The columns that scheduling, results and reconnects write. */
  datatype Upgrade = Upgrade(
    currentPackage: Option<string>,
    desiredVersion: Option<string>,
    desiredPackage: Option<string>,
    desiredSetAt: Option<int>,
    desiredSetBy: Option<string>,
    state: Option<UpgradeState>,
    lastTask: Option<string>,
    lastError: Option<string>,
    lastAt: Option<int>)

  datatype AgentRow = AgentRow(
    firstSeenAt: int,
    lastSeenAt: int,
    lastOnlineAt: Option<int>,
    lastOfflineAt: Option<int>,
    agentVersion: string,
    online: bool,
    upgrade: Upgrade)

  datatype Store = Store(
    tasks: map<string, TaskRow>,
    results: map<string, ResultEvent>,
    agents: map<string, AgentRow>)

  datatype Write<+V> = Committed(store: Store, value: V) | Threw

  const RECONNECT_TIMEOUT: int := 10 * 60
  const NO_UPGRADE: Upgrade := Upgrade(None, None, None, None, None, None, None, None, None)

  // ------------------------------------------------------- registration

  /** SQL `column = value` as a CASE condition: NULL is never equal. */
  predicate SqlEq(column: Option<string>, value: string) { column == Some(value) }

  /** The upgrade columns after the on-conflict arms of a registration. */
  function Reconnected(u: Upgrade, version: string, at: int): (r: Upgrade) {
    if u.state != Some(WaitingReconnect) then u
    else if SqlEq(u.desiredVersion, version) then
      u.(currentPackage := u.desiredPackage, state := Some(UpgradeSucceeded), lastError := None, lastAt := Some(at))
    else if u.desiredPackage.None? then
      u.(currentPackage := None, state := Some(UpgradeSucceeded), lastError := None, lastAt := Some(at))
    else if u.desiredVersion.Some? then
      u.(state := Some(UpgradeFailed), lastError := Some("agent_reported_unexpected_version"), lastAt := Some(at))
    else u
  }

  function Registered(s: Store, r: Registration): (s': Store) {
    if r.agentId !in s.agents then
      s.(agents := s.agents[r.agentId :=
        AgentRow(r.occurredAt, r.occurredAt, Some(r.occurredAt), None, r.agentVersion, true, NO_UPGRADE)])
    else
      var a := s.agents[r.agentId];
      var seen := if a.online then a
                  else a.(lastSeenAt := r.occurredAt, lastOnlineAt := Some(r.occurredAt), lastOfflineAt := None);
      s.(agents := s.agents[r.agentId := seen.(
        agentVersion := r.agentVersion, online := true,
            upgrade := Reconnected(a.upgrade, r.agentVersion, r.occurredAt))])
  }

  function MarkedOffline(s: Store, agentId: string, at: int): (s': Store) {
    if agentId in s.agents && s.agents[agentId].online then
      s.(agents := s.agents[agentId :=
        s.agents[agentId].(lastSeenAt := at, lastOfflineAt := Some(at), online := false)])
    else s
  }

  predicate TimedOut(u: Upgrade, now: int) {
    u.state == Some(WaitingReconnect) && u.lastAt.Some? && u.lastAt.value <= now - RECONNECT_TIMEOUT
  }

  function TimeOut(u: Upgrade, now: int): (r: Upgrade) {
    if TimedOut(u, now) then u.(state := Some(UpgradeFailed), lastError := Some("waiting_reconnect_timeout")) else u
  }

  function ExpiredWaiting(s: Store, now: int): (s': Store)
    ensures s'.tasks == s.tasks && s'.results == s.results && s'.agents.Keys == s.agents.Keys
    ensures forall a :: a in s.agents ==> s'.agents[a] == s.agents[a].(upgrade := TimeOut(s.agents[a].upgrade, now))
  {
    s.(agents := map a | a in s.agents :: s.agents[a].(upgrade := TimeOut(s.agents[a].upgrade, now)))
  }

  // ------------------------------------------------------- tasks

  function QueuedRow(task: Task, prerequisite: Option<string>): (r: TaskRow) {
    TaskRow(task, Queued, prerequisite, None, None)
  }

  /** An insert into the tasks table; the task id is its primary key. */
  function InsertTask(s: Store, task: Task, prerequisite: Option<string>): (r: Write<()>) {
    if task.taskId in s.tasks then Threw
    else Committed(s.(tasks := s.tasks[task.taskId := QueuedRow(task, prerequisite)]), ())
  }

  predicate PrerequisiteMet(s: Store, row: TaskRow) {
    row.prerequisite.None?
    || (row.prerequisite.value in s.tasks && s.tasks[row.prerequisite.value].state == Succeeded)
  }

  /** The rows the claim's SELECT ranges over. */
  predicate Claimable(s: Store, id: string, agentId: string, now: int) {
    && id in s.tasks
    && s.tasks[id].task.agentId == agentId
    && s.tasks[id].state == Queued
    && s.tasks[id].task.expiresAt > now
    && PrerequisiteMet(s, s.tasks[id])
  }

  ghost predicate AnyClaimable(s: Store, agentId: string, now: int) {
    exists id :: Claimable(s, id, agentId, now)
  }

  /** What `order by created_at limit 1` may return; ties are left open. */
  ghost predicate FirstClaimable(s: Store, choice: Option<string>, agentId: string, now: int) {
    match choice
    case None => !AnyClaimable(s, agentId, now)
    case Some(id) =>
      && Claimable(s, id, agentId, now)
      && forall other :: Claimable(s, other, agentId, now) ==>
           s.tasks[id].task.createdAt <= s.tasks[other].task.createdAt
  }

  function Claimed(s: Store, choice: Option<string>, now: int): (s': Store)
    requires choice.Some? ==> choice.value in s.tasks
  {
    if choice.None? then s
    else s.(tasks := s.tasks[choice.value :=
      s.tasks[choice.value].(state := Assigned, assignedAt := Some(now))])
  }

  function MarkedRunning(s: Store, e: RunningEvent): (r: Write<()>) {
    if e.taskId !in s.tasks || s.tasks[e.taskId].state != Assigned then Threw
    else
      var row := s.tasks[e.taskId];
      Committed(s.(tasks := s.tasks[e.taskId := row.(
        state := Running,
        assignedAt := if row.assignedAt.Some? then row.assignedAt else Some(e.occurredAt))]), ())
  }

  /** The two updates of the agent row by a package_update result: of the
      current upgrade task, and of a prerequisite of the current one. */
  function OwnResult(u: Upgrade, e: ResultEvent): (r: Upgrade) {
    if u.lastTask == Some(e.taskId) then
      u.(state := Some(if e.status.ExecutionSucceeded? then WaitingReconnect else UpgradeFailed),
         lastError := e.errorCode, lastAt := Some(e.occurredAt))
    else u
  }

  function PrerequisiteResult(tasks: map<string, TaskRow>, u: Upgrade, e: ResultEvent): (r: Upgrade) {
    if !e.status.ExecutionSucceeded? && u.lastTask.Some? && u.lastTask.value in tasks
       && tasks[u.lastTask.value].prerequisite == Some(e.taskId) then
      u.(state := Some(UpgradeFailed),
         lastError := if e.errorCode.Some? then e.errorCode else Some("task_execution_failed"),
         lastAt := Some(e.occurredAt))
    else u
  }

  function ResultRecorded(s: Store, e: ResultEvent): (r: Write<()>) {
    if e.taskId in s.results || e.taskId !in s.tasks || IsTerminal(s.tasks[e.taskId].state) then Threw
    else
      var tasks := s.tasks[e.taskId :=
        s.tasks[e.taskId].(state := TerminalState(e.status), completedAt := Some(e.occurredAt))];
      var agents :=
        if e.taskType.PackageUpdate? && e.agentId in s.agents then
          s.agents[e.agentId := s.agents[e.agentId].(
            upgrade := PrerequisiteResult(tasks, OwnResult(s.agents[e.agentId].upgrade, e), e))]
        else s.agents;
      Committed(Store(tasks, s.results[e.taskId := e], agents), ())
  }

  // ------------------------------------------------------- scheduling

  function Wanted(u: Upgrade, version: string, packageId: string, at: int, setBy: Option<string>, taskId: string)
    : (r: Upgrade)
  {
    u.(desiredVersion := Some(version), desiredPackage := Some(packageId), desiredSetAt := Some(at),
       desiredSetBy := setBy, state := Some(UpgradeQueued), lastTask := Some(taskId), lastError := None)
  }

  function UpgradeScheduled(s: Store, agentId: string, version: string, packageId: string, setBy: Option<string>,
                            at: int, task: Task, prerequisite: Option<Task>): (r: Write<()>)
  {
    if agentId !in s.agents || task.taskId in s.tasks
       || (prerequisite.Some? && (prerequisite.value.taskId in s.tasks || prerequisite.value.taskId == task.taskId))
    then Threw
    else
      var a := s.agents[agentId];
      var tasks := match prerequisite
        case None => s.tasks[task.taskId := QueuedRow(task, None)]
        case Some(p) => s.tasks[p.taskId := QueuedRow(p, None)][task.taskId := QueuedRow(task, Some(p.taskId))];
      Committed(Store(tasks, s.results, s.agents[agentId := a.(
        upgrade := Wanted(a.upgrade, version, packageId, at, setBy, task.taskId))]), ())
  }

  /** The second write of a rollback: nothing is desired any more. */
  function DesiredCleared(s: Store, agentId: string, taskId: string): (s': Store) {
    if agentId in s.agents && s.agents[agentId].upgrade.lastTask == Some(taskId) then
      s.(agents := s.agents[agentId := s.agents[agentId].(
        upgrade := s.agents[agentId].upgrade.(desiredVersion := None, desiredPackage := None))])
    else s
  }

  // ------------------------------------------------------- the checks of the control service

  datatype Reply = Accepted | InvalidArgument | NotFound | InternalError

  /** What HandleTaskRunning decides from the row it read. */
  function CheckRunning(s: Store, e: RunningEvent): (r: Reply) {
    if e.taskId == "" then InvalidArgument
    else if e.taskId !in s.tasks then NotFound
    else
      var row := s.tasks[e.taskId];
      if row.task.agentId != e.agentId || row.task.taskType != e.taskType
         || IsTerminal(row.state) || row.state != Assigned
      then InvalidArgument else Accepted
  }

  /** What HandleTaskResult decides from the event and the row it read. */
  function CheckResult(s: Store, e: ResultEvent): (r: Reply) {
    if e.taskId == "" then InvalidArgument
    else if e.status.ExecutionSucceeded? && !e.hasPayload then InvalidArgument
    else if !e.status.ExecutionSucceeded? && e.errorCode.None? then InvalidArgument
    else if e.taskId !in s.tasks then NotFound
    else
      var row := s.tasks[e.taskId];
      if row.task.agentId != e.agentId || row.task.taskType != e.taskType || IsTerminal(row.state)
      then InvalidArgument else Accepted
  }

  // ------------------------------------------------------- the database object

  /** The write methods as sequences of statements over the tables. A throw
      after the first statement puts the tables back. */
  class ServerDatabase {
    var tasks: map<string, TaskRow>
    var results: map<string, ResultEvent>
    var agents: map<string, AgentRow>

    function View(): (s: Store)
      reads this
    {
      Store(tasks, results, agents)
    }

    constructor ()
      ensures View() == Store(map[], map[], map[])
    {
      tasks, results, agents := map[], map[], map[];
    }

    method UpsertAgent(r: Registration)
      modifies this`agents
      ensures View() == Registered(old(View()), r)
      ensures agents.Keys == old(agents).Keys + {r.agentId} && agents - {r.agentId} == old(agents) - {r.agentId}
      ensures agents[r.agentId].online && agents[r.agentId].agentVersion == r.agentVersion
      ensures r.agentId !in old(agents) ==>
        && agents[r.agentId].firstSeenAt == agents[r.agentId].lastSeenAt == r.occurredAt
        && agents[r.agentId].lastOnlineAt == Some(r.occurredAt) && agents[r.agentId].lastOfflineAt.None?
        && agents[r.agentId].upgrade == NO_UPGRADE
      ensures r.agentId in old(agents) ==>
        var was, now := old(agents)[r.agentId], agents[r.agentId];
        && now.firstSeenAt == was.firstSeenAt
        && (was.online ==> now == was.(agentVersion := r.agentVersion, upgrade := now.upgrade))
        && (!was.online ==>
              now.lastSeenAt == r.occurredAt && now.lastOnlineAt == Some(r.occurredAt) && now.lastOfflineAt.None?)
      ensures r.agentId in old(agents) ==>
        var was, now := old(agents)[r.agentId].upgrade, agents[r.agentId].upgrade;
        var waiting := was.state == Some(WaitingReconnect);
        && now == was.(currentPackage := now.currentPackage, state := now.state, lastError := now.lastError,
                       lastAt := now.lastAt)
        && (!waiting ==> now == was)
        && (waiting && was.desiredVersion.None? && was.desiredPackage.Some? ==> now == was)
        && (waiting && (was.desiredVersion.Some? || was.desiredPackage.None?) ==>
              && now.lastAt == Some(r.occurredAt)
              && (now.state == Some(UpgradeSucceeded) || now.state == Some(UpgradeFailed)))
        && (waiting && now.state == Some(UpgradeSucceeded) ==>
              && (was.desiredVersion == Some(r.agentVersion) || was.desiredPackage.None?)
              && now.currentPackage == was.desiredPackage && now.lastError.None?)
        && (waiting && now.state == Some(UpgradeFailed) ==>
              && was.desiredVersion.Some? && was.desiredVersion.value != r.agentVersion && was.desiredPackage.Some?
              && now.currentPackage == was.currentPackage
              && now.lastError == Some("agent_reported_unexpected_version"))
    {
      if r.agentId !in agents {
        agents := agents[r.agentId :=
          AgentRow(r.occurredAt, r.occurredAt, Some(r.occurredAt), None, r.agentVersion, true, NO_UPGRADE)];
        return;
      }
      var row := agents[r.agentId];
      var was := row.upgrade;
      if !row.online {
        row := row.(lastSeenAt := r.occurredAt, lastOnlineAt := Some(r.occurredAt), lastOfflineAt := None);
      }
      row := row.(agentVersion := r.agentVersion, online := true);
      var waiting := was.state == Some(WaitingReconnect);
      var matched := waiting && SqlEq(was.desiredVersion, r.agentVersion);
      var undesired := waiting && was.desiredPackage.None?;
      var unexpected := waiting && was.desiredVersion.Some? && was.desiredVersion.value != r.agentVersion;
      var u := was;
      u := u.(currentPackage := if matched then was.desiredPackage else if undesired then None else was.currentPackage);
      u := u.(state := if matched || undesired then Some(UpgradeSucceeded)
                       else if unexpected then Some(UpgradeFailed) else was.state);
      u := u.(lastError := if matched || undesired then None
                           else if unexpected then Some("agent_reported_unexpected_version") else was.lastError);
      u := u.(lastAt := if matched || undesired || unexpected then Some(r.occurredAt) else was.lastAt);
      agents := agents[r.agentId := row.(upgrade := u)];
    }

    method MarkAgentOffline(agentId: string, at: int)
      modifies this`agents
      ensures View() == MarkedOffline(old(View()), agentId, at)
      ensures agents.Keys == old(agents).Keys && agents - {agentId} == old(agents) - {agentId}
      ensures agentId in agents ==>
        var was, now := old(agents)[agentId], agents[agentId];
        && !now.online && now.upgrade == was.upgrade && now.agentVersion == was.agentVersion
        && now.firstSeenAt == was.firstSeenAt && now.lastOnlineAt == was.lastOnlineAt
        && (if was.online then now.lastSeenAt == at && now.lastOfflineAt == Some(at) else now == was)
    {
      if agentId in agents && agents[agentId].online {
        agents := agents[agentId := agents[agentId].(lastSeenAt := at, lastOfflineAt := Some(at), online := false)];
      }
    }

    method EnqueueTask(task: Task) returns (ok: bool)
      modifies this`tasks
      ensures InsertTask(old(View()), task, None) == if ok then Committed(View(), ()) else Threw
      ensures !ok ==> View() == old(View())
      ensures ok <==> task.taskId !in old(tasks)
      ensures ok ==> tasks == old(tasks)[task.taskId := TaskRow(task, Queued, None, None, None)]
    {
      if task.taskId in tasks {
        return false;
      }
      tasks := tasks[task.taskId := QueuedRow(task, None)];
      return true;
    }

    method MarkTaskRunning(e: RunningEvent) returns (ok: bool)
      modifies this`tasks
      ensures MarkedRunning(old(View()), e) == if ok then Committed(View(), ()) else Threw
      ensures !ok ==> View() == old(View())
      ensures ok <==> e.taskId in old(tasks) && old(tasks)[e.taskId].state == Assigned
      ensures ok ==> tasks.Keys == old(tasks).Keys && tasks - {e.taskId} == old(tasks) - {e.taskId}
      ensures ok ==>
        var was, now := old(tasks)[e.taskId], tasks[e.taskId];
        && now.state == Running && now.task == was.task && now.prerequisite == was.prerequisite
        && now.completedAt == was.completedAt
        && now.assignedAt.Some? && (was.assignedAt.Some? ==> now.assignedAt == was.assignedAt)
        && (was.assignedAt.None? ==> now.assignedAt == Some(e.occurredAt))
    {
      var changes := 0;
      if e.taskId in tasks && tasks[e.taskId].state == Assigned {
        var row := tasks[e.taskId];
        if row.assignedAt.None? {
          row := row.(assignedAt := Some(e.occurredAt));
        }
        tasks := tasks[e.taskId := row.(state := Running)];
        changes := 1;
      }
      return changes == 1;
    }

    /** Scans the table for the oldest claimable row and assigns it. */
    method ClaimNextTaskForAgent(agentId: string, assignedAt: int) returns (claimed: Option<string>)
      modifies this`tasks
      ensures FirstClaimable(old(View()), claimed, agentId, assignedAt)
      ensures View() == Claimed(old(View()), claimed, assignedAt)
      ensures claimed.None? ==> tasks == old(tasks)
      ensures claimed.Some? ==>
        && claimed.value in tasks && tasks.Keys == old(tasks).Keys
        && tasks - {claimed.value} == old(tasks) - {claimed.value}
        && var was, now := old(tasks)[claimed.value], tasks[claimed.value];
           && now.state == Assigned && now.assignedAt == Some(assignedAt)
           && now.task == was.task && now.prerequisite == was.prerequisite && now.completedAt == was.completedAt
    {
      claimed := None;
      var unseen := tasks.Keys;
      while unseen != {}
        invariant unseen <= tasks.Keys
        invariant claimed.Some? ==> Claimable(View(), claimed.value, agentId, assignedAt)
        invariant forall id :: id !in unseen && Claimable(View(), id, agentId, assignedAt) ==>
          claimed.Some? && tasks[claimed.value].task.createdAt <= tasks[id].task.createdAt
        decreases unseen
      {
        var id :| id in unseen;
        unseen := unseen - {id};
        if Claimable(View(), id, agentId, assignedAt)
           && (claimed.None? || tasks[id].task.createdAt < tasks[claimed.value].task.createdAt)
        {
          claimed := Some(id);
        }
      }
      if claimed.Some? {
        tasks := tasks[claimed.value := tasks[claimed.value].(state := Assigned, assignedAt := Some(assignedAt))];
      }
    }

    method RecordTaskResult(e: ResultEvent) returns (ok: bool)
      modifies this
      ensures ResultRecorded(old(View()), e) == if ok then Committed(View(), ()) else Threw
      ensures !ok ==> View() == old(View())
      ensures ok <==> e.taskId !in old(results) && e.taskId in old(tasks)
                      && old(tasks)[e.taskId].state in {Queued, Assigned, Running}
      ensures ok ==> results == old(results)[e.taskId := e]
      ensures ok ==> tasks.Keys == old(tasks).Keys && tasks - {e.taskId} == old(tasks) - {e.taskId}
      ensures ok ==>
        var was, now := old(tasks)[e.taskId], tasks[e.taskId];
        && (now.state == Succeeded <==> e.status == ExecutionSucceeded)
        && (now.state == Failed <==> e.status == ExecutionFailed)
        && (now.state == Expired <==> e.status == ExecutionExpired)
        && now.completedAt == Some(e.occurredAt)
        && now.task == was.task && now.prerequisite == was.prerequisite && now.assignedAt == was.assignedAt
      ensures ok ==> agents.Keys == old(agents).Keys && agents - {e.agentId} == old(agents) - {e.agentId}
      ensures ok && e.agentId in agents ==>
        var was, now := old(agents)[e.agentId], agents[e.agentId];
        var own := was.upgrade.lastTask == Some(e.taskId);
        var required := exists t {:trigger tasks[t]} ::
          was.upgrade.lastTask == Some(t) && t in tasks && tasks[t].prerequisite == Some(e.taskId);
        && now == was.(upgrade := was.upgrade.(state := now.upgrade.state, lastError := now.upgrade.lastError,
                                               lastAt := now.upgrade.lastAt))
        && (now != was ==> e.taskType == PackageUpdate && (own || required))
        && (e.taskType == PackageUpdate && own && e.status == ExecutionSucceeded ==>
              now.upgrade.state == Some(WaitingReconnect) && now.upgrade.lastError == e.errorCode
              && now.upgrade.lastAt == Some(e.occurredAt))
        && (e.taskType == PackageUpdate && (own || required) && e.status != ExecutionSucceeded ==>
              now.upgrade.state == Some(UpgradeFailed) && now.upgrade.lastAt == Some(e.occurredAt)
              && (e.errorCode.Some? ==> now.upgrade.lastError == e.errorCode)
              && (e.errorCode.None? && required ==> now.upgrade.lastError == Some("task_execution_failed"))
              && (e.errorCode.None? && !required ==> now.upgrade.lastError.None?))
        && (required && !own && e.status == ExecutionSucceeded ==> now == was)
    {
      if e.taskId in results {
        return false;
      }
      var before := results;
      results := results[e.taskId := e];
      if e.taskId !in tasks || IsTerminal(tasks[e.taskId].state) {
        results := before;
        return false;
      }
      tasks := tasks[e.taskId :=
        tasks[e.taskId].(state := TerminalState(e.status), completedAt := Some(e.occurredAt))];
      if e.taskType.PackageUpdate? && e.agentId in agents {
        var row := agents[e.agentId];
        if row.upgrade.lastTask == Some(e.taskId) {
          row := row.(upgrade := row.upgrade.(
            state := Some(if e.status.ExecutionSucceeded? then WaitingReconnect else UpgradeFailed),
            lastError := e.errorCode,
            lastAt := Some(e.occurredAt)));
        }
        if !e.status.ExecutionSucceeded? {
          var current := row.upgrade.lastTask;
          if current.Some? && current.value in tasks && tasks[current.value].prerequisite == Some(e.taskId)
          {
            row := row.(upgrade := row.upgrade.(
              state := Some(UpgradeFailed),
              lastError := if e.errorCode.Some? then e.errorCode else Some("task_execution_failed"),
              lastAt := Some(e.occurredAt)));
          }
        }
        agents := agents[e.agentId := row];
      }
      return true;
    }

    method ScheduleAgentUpgrade(agentId: string, version: string, packageId: string, setBy: Option<string>,
                                at: int, task: Task, prerequisite: Option<Task>) returns (ok: bool)
      modifies this`agents, this`tasks
      ensures UpgradeScheduled(old(View()), agentId, version, packageId, setBy, at, task, prerequisite)
              == if ok then Committed(View(), ()) else Threw
      ensures !ok ==> View() == old(View())
      ensures ok <==> agentId in old(agents) && task.taskId !in old(tasks)
                      && (prerequisite.Some? ==>
                            prerequisite.value.taskId !in old(tasks) && prerequisite.value.taskId != task.taskId)
      ensures ok ==>
        var added := {task.taskId} + if prerequisite.Some? then {prerequisite.value.taskId} else {};
        && tasks.Keys == old(tasks).Keys + added && tasks - added == old(tasks)
        && tasks[task.taskId].task == task && tasks[task.taskId].state == Queued
        && tasks[task.taskId].assignedAt.None? && tasks[task.taskId].completedAt.None?
        && (prerequisite.None? ==> tasks[task.taskId].prerequisite.None?)
        && (prerequisite.Some? ==>
              && tasks[task.taskId].prerequisite == Some(prerequisite.value.taskId)
              && tasks[prerequisite.value.taskId] == TaskRow(prerequisite.value, Queued, None, None, None))
      ensures ok ==> agents.Keys == old(agents).Keys && agents - {agentId} == old(agents) - {agentId}
      ensures ok ==>
        var was, now := old(agents)[agentId], agents[agentId];
        && now == was.(upgrade := now.upgrade)
        && now.upgrade.desiredVersion == Some(version) && now.upgrade.desiredPackage == Some(packageId)
        && now.upgrade.desiredSetAt == Some(at) && now.upgrade.desiredSetBy == setBy
        && now.upgrade.state == Some(UpgradeQueued) && now.upgrade.lastTask == Some(task.taskId)
        && now.upgrade.lastError.None? && now.upgrade.lastAt == was.upgrade.lastAt
        && now.upgrade.currentPackage == was.upgrade.currentPackage
    {
      if agentId !in agents {
        return false;
      }
      var tasksBefore, agentsBefore := tasks, agents;
      agents := agents[agentId := agents[agentId].(
        upgrade := Wanted(agents[agentId].upgrade, version, packageId, at, setBy, task.taskId))];
      if prerequisite.Some? {
        if prerequisite.value.taskId in tasks {
          agents := agentsBefore;
          return false;
        }
        tasks := tasks[prerequisite.value.taskId := QueuedRow(prerequisite.value, None)];
      }
      if task.taskId in tasks {
        tasks, agents := tasksBefore, agentsBefore;
        return false;
      }
      var prerequisiteId := if prerequisite.Some? then Some(prerequisite.value.taskId) else None;
      tasks := tasks[task.taskId := QueuedRow(task, prerequisiteId)];
      return true;
    }

    /** Two writes; other writes may fall between them (see TaskProtocol). */
    method ScheduleAgentRollback(agentId: string, setBy: Option<string>, at: int, task: Task) returns (ok: bool)
      modifies this`agents, this`tasks
      ensures ok ==> UpgradeScheduled(old(View()), agentId, "", "", setBy, at, task, None).Committed?
      ensures ok ==>
        View() == DesiredCleared(UpgradeScheduled(old(View()), agentId, "", "", setBy, at, task, None).store,
                                 agentId, task.taskId)
      ensures !ok ==> View() == old(View())
      ensures !ok ==> UpgradeScheduled(old(View()), agentId, "", "", setBy, at, task, None).Threw?
      ensures ok <==> agentId in old(agents) && task.taskId !in old(tasks)
      ensures ok ==> tasks == old(tasks)[task.taskId := TaskRow(task, Queued, None, None, None)]
      ensures ok ==> agents.Keys == old(agents).Keys && agents - {agentId} == old(agents) - {agentId}
      ensures ok ==>
        var was, now := old(agents)[agentId], agents[agentId];
        && now == was.(upgrade := now.upgrade)
        && now.upgrade.desiredVersion.None? && now.upgrade.desiredPackage.None?
        && now.upgrade.desiredSetAt == Some(at) && now.upgrade.desiredSetBy == setBy
        && now.upgrade.state == Some(UpgradeQueued) && now.upgrade.lastTask == Some(task.taskId)
        && now.upgrade.lastError.None? && now.upgrade.lastAt == was.upgrade.lastAt
        && now.upgrade.currentPackage == was.upgrade.currentPackage
    {
      ok := ScheduleAgentUpgrade(agentId, "", "", setBy, at, task, None);
      if !ok {
        return;
      }
      if agentId in agents && agents[agentId].upgrade.lastTask == Some(task.taskId) {
        agents := agents[agentId := agents[agentId].(
          upgrade := agents[agentId].upgrade.(desiredVersion := None, desiredPackage := None))];
      }
    }

    method ExpireWaitingReconnect(now: int) returns (expired: set<string>)
      modifies this`agents
      ensures View() == ExpiredWaiting(old(View()), now)
      ensures forall a :: a in expired <==>
        && a in old(agents) && old(agents)[a].upgrade.state == Some(WaitingReconnect)
        && old(agents)[a].upgrade.lastAt.Some? && now - old(agents)[a].upgrade.lastAt.value >= 600
      ensures agents.Keys == old(agents).Keys
      ensures forall a :: a in agents ==>
        var was, now := old(agents)[a], agents[a];
        if a in expired then
          now == was.(upgrade := was.upgrade.(state := Some(UpgradeFailed),
                                              lastError := Some("waiting_reconnect_timeout")))
        else now == was
    {
      expired := set a | a in agents && TimedOut(agents[a].upgrade, now);
      agents := map a | a in agents ::
        if TimedOut(agents[a].upgrade, now)
        then agents[a].(upgrade := agents[a].upgrade.(
          state := Some(UpgradeFailed), lastError := Some("waiting_reconnect_timeout")))
        else agents[a];
      assert agents == ExpiredWaiting(old(View()), now).agents;
    }

    /** The handler when no other write falls between its read and its write.
        `audited` tells whether the audit event after the write could be stored:
        if not, the answer is an error although the write stands. */
    method HandleTaskRunning(e: RunningEvent, audited: bool) returns (reply: Reply)
      modifies this`tasks
      ensures CheckRunning(old(View()), e) != Accepted ==>
          reply == CheckRunning(old(View()), e) && View() == old(View())
      ensures CheckRunning(old(View()), e) == Accepted ==>
        && MarkedRunning(old(View()), e) == Committed(View(), ())
        && reply == if audited then Accepted else InternalError
      ensures reply in {Accepted, InternalError} <==>
        && e.taskId != "" && e.taskId in old(tasks) && old(tasks)[e.taskId].state == Assigned
        && old(tasks)[e.taskId].task.agentId == e.agentId && old(tasks)[e.taskId].task.taskType == e.taskType
      ensures reply == NotFound <==> e.taskId != "" && e.taskId !in old(tasks)
      ensures reply in {Accepted, InternalError} <==> tasks != old(tasks)
    {
      reply := CheckRunning(View(), e);
      if reply == Accepted {
        var ok := MarkTaskRunning(e);
        if !ok || !audited {
          reply := InternalError;
        }
      }
    }

    method HandleTaskResult(e: ResultEvent, audited: bool) returns (reply: Reply)
      modifies this
      ensures CheckResult(old(View()), e) != Accepted ==> reply == CheckResult(old(View()), e) && View() == old(View())
      ensures CheckResult(old(View()), e) == Accepted ==>
        match ResultRecorded(old(View()), e)
        case Committed(store, _) => View() == store && reply == (if audited then Accepted else InternalError)
        case Threw => View() == old(View()) && reply == InternalError
      ensures reply in {Accepted, InternalError} <==>
        && e.taskId != "" && e.taskId in old(tasks) && old(tasks)[e.taskId].state in {Queued, Assigned, Running}
        && old(tasks)[e.taskId].task.agentId == e.agentId && old(tasks)[e.taskId].task.taskType == e.taskType
        && (if e.status == ExecutionSucceeded then e.hasPayload else e.errorCode.Some?)
      ensures reply == NotFound <==>
        && e.taskId != "" && e.taskId !in old(tasks)
        && (if e.status == ExecutionSucceeded then e.hasPayload else e.errorCode.Some?)
      ensures reply == Accepted ==> audited && e.taskId !in old(results)
    {
      reply := CheckResult(View(), e);
      if reply == Accepted {
        var ok := RecordTaskResult(e);
        if !ok || !audited {
          reply := InternalError;
        }
      }
    }
  }
}
