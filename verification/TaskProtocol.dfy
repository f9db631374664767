/**
 The task and upgrade protocol as a step system over the store. Every write of
 the single write actor is one step; control workers read a task row in one
 step and write in a later one, and a rollback clears the desired fields in a
 write of its own, so any other step may fall in between.
 */
module TaskProtocol {
  import opened Prelude
  import opened ServerStore

  /** Work that has read (or written once) and still has a write to make. */
  datatype Job =
    | RunningJob(running: RunningEvent)
    | ResultJob(result: ResultEvent)
    | ClearJob(agentId: string, taskId: string)

  datatype Claim = Claim(taskId: string, agentId: string, at: int)

  /** The store, the jobs under way, and what has happened: hand-outs, and the
      tasks whose running event or result was written and was accepted. */
  datatype System = System(
    store: Store,
    jobs: map<nat, Job>,
    claims: seq<Claim>,
    ran: seq<string>,
    finished: seq<string>,
    acceptedRunning: seq<string>,
    acceptedResults: seq<string>)

  datatype Step =
    | Register(registration: Registration)
    | Offline(agentId: string, at: int)
    | Expire(now: int)
    | Enqueue(task: Task)
    | ClaimNext(agentId: string, at: int, choice: Option<string>)
    | Upgrade(agentId: string, version: string, packageId: string, setBy: Option<string>, at: int, expiresAt: int,
              taskId: string, prerequisiteId: Option<string>)
    | Rollback(agentId: string, setBy: Option<string>, at: int, expiresAt: int, taskId: string, job: nat)
    | ReadRunning(running: RunningEvent, job: nat)
    | ReadResult(result: ResultEvent, job: nat)
    | WriteJob(job: nat, audited: bool)

  ghost predicate Enabled(s: System, step: Step) {
    match step
    case ClaimNext(agentId, at, choice) => FirstClaimable(s.store, choice, agentId, at)
    case Rollback(_, _, _, _, _, job) => job !in s.jobs
    case ReadRunning(e, job) => job !in s.jobs
    case ReadResult(e, job) => job !in s.jobs
    case WriteJob(job, _) => job in s.jobs
    case _ => true
  }

  function OrSame(s: Store, w: Write<()>): (r: Store) {
    if w.Committed? then w.store else s
  }

  function UpgradeTask(id: string, agentId: string, at: int, expiresAt: int): (r: Task) {
    Task(id, agentId, PackageUpdate, at, expiresAt)
  }

  function UpgradeWrite(s: Store, agentId: string, version: string, packageId: string, setBy: Option<string>, at: int,
                        expiresAt: int, taskId: string, prerequisiteId: Option<string>): (r: Write<()>)
  {
    UpgradeScheduled(s, agentId, version, packageId, setBy, at, UpgradeTask(taskId, agentId, at, expiresAt),
      if prerequisiteId.Some? then Some(UpgradeTask(prerequisiteId.value, agentId, at, expiresAt)) else None)
  }

  /** The reply is Accepted only if the write went through and the audit event
      after it could be stored. */
  function Finish(s: System, job: nat, audited: bool): (r: System)
    requires job in s.jobs
  {
    var rest := s.jobs - {job};
    match s.jobs[job]
    case ClearJob(agentId, taskId) => s.(store := DesiredCleared(s.store, agentId, taskId), jobs := rest)
    case RunningJob(e) =>
      (match MarkedRunning(s.store, e)
       case Threw => s.(jobs := rest)
       case Committed(store, _) =>
         s.(store := store, jobs := rest, ran := s.ran + [e.taskId],
            acceptedRunning := if audited then s.acceptedRunning + [e.taskId] else s.acceptedRunning))
    case ResultJob(e) =>
      (match ResultRecorded(s.store, e)
       case Threw => s.(jobs := rest)
       case Committed(store, _) =>
         s.(store := store, jobs := rest, finished := s.finished + [e.taskId],
            acceptedResults := if audited then s.acceptedResults + [e.taskId] else s.acceptedResults))
  }

  ghost function Next(s: System, step: Step): (r: System)
    requires Enabled(s, step)
  {
    match step
    case Register(registration) => s.(store := Registered(s.store, registration))
    case Offline(agentId, at) => s.(store := MarkedOffline(s.store, agentId, at))
    case Expire(now) => s.(store := ExpiredWaiting(s.store, now))
    case Enqueue(task) => s.(store := OrSame(s.store, InsertTask(s.store, task, None)))
    case ClaimNext(agentId, at, choice) =>
      s.(store := Claimed(s.store, choice, at),
         claims := if choice.Some? then s.claims + [Claim(choice.value, agentId, at)] else s.claims)
    case Upgrade(agentId, version, packageId, setBy, at, expiresAt, taskId, prerequisiteId) =>
      s.(store := OrSame(s.store,
          UpgradeWrite(s.store, agentId, version, packageId, setBy, at, expiresAt, taskId, prerequisiteId)))
    case Rollback(agentId, setBy, at, expiresAt, taskId, job) =>
      var w := UpgradeWrite(s.store, agentId, "", "", setBy, at, expiresAt, taskId, None);
      if w.Committed? then s.(store := w.store, jobs := s.jobs[job := ClearJob(agentId, taskId)]) else s
    case ReadRunning(e, job) =>
      if CheckRunning(s.store, e) == Accepted then s.(jobs := s.jobs[job := RunningJob(e)]) else s
    case ReadResult(e, job) =>
      if CheckResult(s.store, e) == Accepted then s.(jobs := s.jobs[job := ResultJob(e)]) else s
    case WriteJob(job, audited) => Finish(s, job, audited)
  }

  /** The state after the steps that were possible when they came up. */
  ghost function RunFrom(s: System, steps: seq<Step>): (r: System)
    decreases |steps|
  {
    if steps == [] then s
    else
      var t, step := RunFrom(s, steps[..|steps| - 1]), steps[|steps| - 1];
      if Enabled(t, step) then Next(t, step) else t
  }

  const INITIAL: System := System(Store(map[], map[], map[]), map[], [], [], [], [], [])

  // ------------------------------------------------------- task rows

  function Rank(state: TaskState): (r: nat) {
    match state
    case Queued => 0
    case Assigned => 1
    case Running => 2
    case _ => 3
  }

  /** A later version of a row: the same task, in the same or a later state. */
  predicate Later(before: TaskRow, after: TaskRow) {
    && after.task == before.task
    && after.prerequisite == before.prerequisite
    && Rank(before.state) <= Rank(after.state)
    && (IsTerminal(before.state) ==> after == before)
  }

  ghost predicate StoreAdvances(s: Store, s': Store) {
    && (forall t :: t in s.tasks ==> t in s'.tasks && Later(s.tasks[t], s'.tasks[t]))
    && (forall t :: t in s.results ==> t in s'.results && s'.results[t] == s.results[t])
  }

  lemma FinishAdvances(s: System, job: nat, audited: bool)
    requires job in s.jobs
    ensures StoreAdvances(s.store, Finish(s, job, audited).store)
  {
    match s.jobs[job]
    case RunningJob(e) =>
    case ResultJob(e) =>
    case ClearJob(agentId, taskId) =>
  }

  lemma UpgradeAdvances(s: System, step: Step)
    requires (step.Upgrade? || step.Rollback?) && Enabled(s, step)
    ensures StoreAdvances(s.store, Next(s, step).store)
  {
  }

  lemma NextAdvances(s: System, step: Step)
    requires Enabled(s, step)
    ensures StoreAdvances(s.store, Next(s, step).store)
  {
    if step.WriteJob? {
      FinishAdvances(s, step.job, step.audited);
    } else if step.Upgrade? || step.Rollback? {
      UpgradeAdvances(s, step);
    } else {
      hide Finish, Registered, MarkedOffline;
      assert step.Enqueue? || step.ClaimNext? || Next(s, step).store.tasks == s.store.tasks;
    }
  }

  /** Task states only move forward, finished tasks and stored results are
      never touched again. */
  lemma {:induction false} RunAdvances(s: System, steps: seq<Step>)
    ensures StoreAdvances(s.store, RunFrom(s, steps).store)
    decreases |steps|
  {
    if steps != [] {
      var before := RunFrom(s, steps[..|steps| - 1]);
      RunAdvances(s, steps[..|steps| - 1]);
      if Enabled(before, steps[|steps| - 1]) {
        NextAdvances(before, steps[|steps| - 1]);
      }
    }
  }

  // ------------------------------------------------------- the tasks' invariant

  predicate Distinct<T(==)>(log: seq<T>) {
    forall i, j :: 0 <= i < j < |log| ==> log[i] != log[j]
  }

  /** The state a task ended in is the one its stored result reports. */
  predicate EndsAs(state: TaskState, status: ExecutionStatus) {
    && (state.Succeeded? <==> status.ExecutionSucceeded?)
    && (state.Failed? <==> status.ExecutionFailed?)
    && (state.Expired? <==> status.ExecutionExpired?)
  }

  /** `task_results` has a row for exactly the terminal tasks, filed under its
      own task, and each of them ended as its row reports. */
  ghost predicate ResultsMatch(s: Store) {
    && (forall t :: t in s.results <==> t in s.tasks && IsTerminal(s.tasks[t].state))
    && (forall t :: t in s.results ==>
          s.results[t].taskId == t && EndsAs(s.tasks[t].state, s.results[t].status)
          && s.results[t].agentId == s.tasks[t].task.agentId && s.results[t].taskType == s.tasks[t].task.taskType
          && s.tasks[t].completedAt == Some(s.results[t].occurredAt))
  }

  /** A prerequisite is a package update for the same agent, was inserted
      together with its one dependent, and has no prerequisite itself. */
  ghost predicate PrerequisitesFormed(s: Store) {
    && (forall t :: t in s.tasks ==> s.tasks[t].task.taskId == t)
    && (forall t :: t in s.tasks && s.tasks[t].prerequisite.Some? ==>
          var p := s.tasks[t].prerequisite.value;
          && p in s.tasks && p != t
          && s.tasks[p].prerequisite.None?
          && s.tasks[p].task.agentId == s.tasks[t].task.agentId
          && s.tasks[p].task.taskType.PackageUpdate?)
    && (forall t, u ::
          (t in s.tasks && u in s.tasks && s.tasks[t].prerequisite.Some?
           && s.tasks[t].prerequisite == s.tasks[u].prerequisite) ==> t == u)
  }

  /** A hand-out was to the task's own agent, before it expired, after its
      prerequisite had succeeded; the task has left the queue since. */
  ghost predicate ClaimJustified(s: Store, c: Claim) {
    && c.taskId in s.tasks
    && s.tasks[c.taskId].task.agentId == c.agentId
    && c.at < s.tasks[c.taskId].task.expiresAt
    && Rank(s.tasks[c.taskId].state) >= 1
    && PrerequisiteMet(s, s.tasks[c.taskId])
  }

  ghost predicate ClaimsFormed(s: System) {
    && (forall i :: 0 <= i < |s.claims| ==> ClaimJustified(s.store, s.claims[i]))
    && (forall i, j :: 0 <= i < j < |s.claims| ==> s.claims[i].taskId != s.claims[j].taskId)
  }

  ghost predicate LogsFormed(s: System) {
    && Distinct(s.ran) && Distinct(s.finished) && Distinct(s.acceptedRunning) && Distinct(s.acceptedResults)
    && (forall t :: t in s.ran ==> t in s.store.tasks && Rank(s.store.tasks[t].state) >= 2)
    && (forall t :: t in s.finished <==> t in s.store.results)
    && (forall t :: t in s.acceptedRunning ==> t in s.ran)
    && (forall t :: t in s.acceptedResults ==> t in s.finished)
  }

  /** A worker waiting to write carries the agent and type of the stored task. */
  ghost predicate JobsChecked(s: System) {
    forall j :: j in s.jobs ==>
      match s.jobs[j]
      case RunningJob(e) => e.taskId in s.store.tasks
      case ResultJob(e) =>
        e.taskId in s.store.tasks && s.store.tasks[e.taskId].task.agentId == e.agentId
        && s.store.tasks[e.taskId].task.taskType == e.taskType
      case ClearJob(_, t) => t in s.store.tasks
  }

  ghost predicate TaskInv(s: System) {
    ResultsMatch(s.store) && PrerequisitesFormed(s.store) && ClaimsFormed(s) && LogsFormed(s) && JobsChecked(s)
  }

  lemma ResultsMatchRecorded(s: Store, e: ResultEvent)
    requires ResultsMatch(s) && ResultRecorded(s, e).Committed?
    requires s.tasks[e.taskId].task.agentId == e.agentId && s.tasks[e.taskId].task.taskType == e.taskType
    ensures ResultsMatch(ResultRecorded(s, e).store)
  {
    var s' := ResultRecorded(s, e).store;
    assert s'.results.Keys == s.results.Keys + {e.taskId} && s'.tasks.Keys == s.tasks.Keys;
  }

  lemma ResultsMatchFinish(s: System, job: nat, audited: bool)
    requires ResultsMatch(s.store) && JobsChecked(s) && job in s.jobs
    ensures ResultsMatch(Finish(s, job, audited).store)
  {
    if s.jobs[job].ResultJob? && ResultRecorded(s.store, s.jobs[job].result).Committed? {
      ResultsMatchRecorded(s.store, s.jobs[job].result);
    }
    hide ResultRecorded, ResultsMatch;
    if s.jobs[job].RunningJob? && MarkedRunning(s.store, s.jobs[job].running).Committed? {
      ResultsMatchSameEnds(s.store, Finish(s, job, audited).store);
    } else if s.jobs[job].ClearJob? {
      ResultsMatchSameEnds(s.store, Finish(s, job, audited).store);
    }
  }

  /** Results still match where no result is added, no task comes to its end and
      none that has is touched. */
  lemma ResultsMatchSameEnds(s: Store, s': Store)
    requires ResultsMatch(s) && s'.results == s.results
    requires forall t :: t in s.tasks ==>
        t in s'.tasks && s'.tasks[t].task == s.tasks[t].task
        && (if IsTerminal(s.tasks[t].state) then s'.tasks[t] == s.tasks[t] else !IsTerminal(s'.tasks[t].state))
    requires forall t :: t in s'.tasks && t !in s.tasks ==> !IsTerminal(s'.tasks[t].state)
    ensures ResultsMatch(s')
  {
  }

  lemma ResultsMatchUpgrade(s: System, step: Step)
    requires ResultsMatch(s.store) && (step.Upgrade? || step.Rollback?) && Enabled(s, step)
    ensures ResultsMatch(Next(s, step).store)
  {
    ResultsMatchSameEnds(s.store, Next(s, step).store);
  }

  lemma ResultsMatchNext(s: System, step: Step)
    requires ResultsMatch(s.store) && JobsChecked(s) && Enabled(s, step)
    ensures ResultsMatch(Next(s, step).store)
  {
    hide ResultsMatch;
    if step.WriteJob? {
      ResultsMatchFinish(s, step.job, step.audited);
    } else if step.Upgrade? || step.Rollback? {
      ResultsMatchUpgrade(s, step);
    } else {
      hide Registered, MarkedOffline, Finish;
      ResultsMatchSameEnds(s.store, Next(s, step).store);
    }
  }

  lemma PrerequisitesSchedule(s: Store, w: Write<()>, agentId: string, version: string, packageId: string,
                              setBy: Option<string>, at: int, expiresAt: int, taskId: string,
                                  prerequisiteId: Option<string>)
    requires PrerequisitesFormed(s)
    requires w == UpgradeWrite(s, agentId, version, packageId, setBy, at, expiresAt, taskId, prerequisiteId)
    requires w.Committed?
    ensures PrerequisitesFormed(w.store)
  {
    hide Wanted;
  }

  lemma PrerequisitesEnqueue(s: Store, task: Task)
    requires PrerequisitesFormed(s) && task.taskId !in s.tasks
    ensures PrerequisitesFormed(s.(tasks := s.tasks[task.taskId := QueuedRow(task, None)]))
  {
  }

  /** A store whose task rows only changed state keeps its prerequisites. */
  lemma PrerequisitesKept(s: Store, s': Store)
    requires PrerequisitesFormed(s) && s'.tasks.Keys == s.tasks.Keys
    requires forall t :: t in s.tasks ==>
        s'.tasks[t].task == s.tasks[t].task && s'.tasks[t].prerequisite == s.tasks[t].prerequisite
    ensures PrerequisitesFormed(s')
  {
  }

  lemma PrerequisitesUpgrade(s: System, step: Step)
    requires PrerequisitesFormed(s.store) && (step.Upgrade? || step.Rollback?) && Enabled(s, step)
    ensures PrerequisitesFormed(Next(s, step).store)
  {
    var (version, packageId, prerequisiteId) :=
      if step.Upgrade? then (step.version, step.packageId, step.prerequisiteId) else ("", "", None);
    var w := UpgradeWrite(s.store, step.agentId, version, packageId, step.setBy, step.at, step.expiresAt, step.taskId,
        prerequisiteId);
    assert Next(s, step).store == if w.Committed? then w.store else s.store;
    if w.Committed? {
      PrerequisitesSchedule(s.store, w, step.agentId, version, packageId, step.setBy, step.at, step.expiresAt,
                            step.taskId, prerequisiteId);
    }
  }

  lemma PrerequisitesFinish(s: System, job: nat, audited: bool)
    requires PrerequisitesFormed(s.store) && job in s.jobs
    ensures PrerequisitesFormed(Finish(s, job, audited).store)
  {
    var s' := Finish(s, job, audited).store;
    assert s'.tasks.Keys == s.store.tasks.Keys;
    PrerequisitesKept(s.store, s');
  }

  lemma PrerequisitesStates(s: System, step: Step)
    requires PrerequisitesFormed(s.store) && Enabled(s, step) && !step.Upgrade? && !step.Rollback? && !step.Enqueue?
    ensures PrerequisitesFormed(Next(s, step).store)
  {
    if step.WriteJob? {
      PrerequisitesFinish(s, step.job, step.audited);
    } else {
      var s' := Next(s, step).store;
      assert s'.tasks.Keys == s.store.tasks.Keys;
      PrerequisitesKept(s.store, s');
    }
  }

  lemma PrerequisitesNext(s: System, step: Step)
    requires PrerequisitesFormed(s.store) && Enabled(s, step)
    ensures PrerequisitesFormed(Next(s, step).store)
  {
    if step.Upgrade? || step.Rollback? {
      PrerequisitesUpgrade(s, step);
    } else if step.Enqueue? {
      if step.task.taskId !in s.store.tasks {
        PrerequisitesEnqueue(s.store, step.task);
      }
    } else {
      PrerequisitesStates(s, step);
    }
  }

  lemma StaysJustified(s: Store, s': Store, c: Claim)
    requires ClaimJustified(s, c) && StoreAdvances(s, s')
    ensures ClaimJustified(s', c)
  {
  }

  /** A step hands out nothing, or one task that was still queued. */
  lemma ClaimsStep(s: System, step: Step)
    requires Enabled(s, step)
    ensures var s' := Next(s, step);
      if step.ClaimNext? && step.choice.Some? then
        var c := Claim(step.choice.value, step.agentId, step.at);
        s'.claims == s.claims + [c] && ClaimJustified(s'.store, c)
        && c.taskId in s.store.tasks && Rank(s.store.tasks[c.taskId].state) == 0
      else s'.claims == s.claims
  {
    hide UpgradeWrite, InsertTask, Registered, ExpiredWaiting, MarkedOffline, MarkedRunning, ResultRecorded;
  }

  lemma ClaimsNext(s: System, step: Step)
    requires ClaimsFormed(s) && Enabled(s, step)
    ensures ClaimsFormed(Next(s, step))
  {
    var s' := Next(s, step);
    NextAdvances(s, step);
    ClaimsStep(s, step);
    hide Next, Enabled, StoreAdvances, PrerequisiteMet;
    forall i | 0 <= i < |s.claims| ensures ClaimJustified(s'.store, s.claims[i]) {
      StaysJustified(s.store, s'.store, s.claims[i]);
    }
  }

  lemma LogsRunning(s: System, s': System, id: string, audited: bool)
    requires LogsFormed(s) && id in s.store.tasks && s.store.tasks[id].state == Assigned
    requires s'.store.results == s.store.results && s'.finished == s.finished && s'.acceptedResults == s.acceptedResults
    requires s'.ran == s.ran + [id]
    requires s'.acceptedRunning == if audited then s.acceptedRunning + [id] else s.acceptedRunning
    requires forall t :: t in s.store.tasks ==>
        t in s'.store.tasks && Rank(s.store.tasks[t].state) <= Rank(s'.store.tasks[t].state)
    requires Rank(s'.store.tasks[id].state) >= 2
    ensures LogsFormed(s')
  {
    assert id !in s.ran && id !in s.acceptedRunning;
  }

  lemma LogsResult(s: System, s': System, id: string, audited: bool)
    requires LogsFormed(s) && id !in s.store.results
    requires s'.store.results.Keys == s.store.results.Keys + {id} && s'.ran == s.ran
    requires s'.acceptedRunning == s.acceptedRunning
    requires s'.finished == s.finished + [id]
    requires s'.acceptedResults == if audited then s.acceptedResults + [id] else s.acceptedResults
    requires forall t :: t in s.store.tasks ==>
        t in s'.store.tasks && Rank(s.store.tasks[t].state) <= Rank(s'.store.tasks[t].state)
    ensures LogsFormed(s')
  {
    assert id !in s.finished && id !in s.acceptedResults;
  }

  lemma LogsWrite(s: System, job: nat, audited: bool)
    requires LogsFormed(s) && job in s.jobs
    requires StoreAdvances(s.store, Finish(s, job, audited).store)
    ensures LogsFormed(Finish(s, job, audited))
  {
    var s' := Finish(s, job, audited);
    match s.jobs[job]
    case RunningJob(e) =>
      if MarkedRunning(s.store, e).Committed? {
        LogsRunning(s, s', e.taskId, audited);
      }
    case ResultJob(e) =>
      if ResultRecorded(s.store, e).Committed? {
        LogsResult(s, s', e.taskId, audited);
      }
    case ClearJob(agentId, taskId) =>
      assert s'.ran == s.ran && s'.finished == s.finished && s'.store.results == s.store.results;
  }

  lemma LogsNext(s: System, step: Step)
    requires LogsFormed(s) && Enabled(s, step)
    ensures LogsFormed(Next(s, step))
  {
    NextAdvances(s, step);
    if step.WriteJob? {
      LogsWrite(s, step.job, step.audited);
    } else {
      var s' := Next(s, step);
      assert s'.ran == s.ran && s'.finished == s.finished && s'.store.results == s.store.results;
    }
  }

  lemma JobsNext(s: System, step: Step)
    requires JobsChecked(s) && Enabled(s, step)
    ensures JobsChecked(Next(s, step))
  {
    NextAdvances(s, step);
  }

  lemma TaskInvNext(s: System, step: Step)
    requires TaskInv(s) && Enabled(s, step)
    ensures TaskInv(Next(s, step))
  {
    ResultsMatchNext(s, step);
    PrerequisitesNext(s, step);
    ClaimsNext(s, step);
    LogsNext(s, step);
    JobsNext(s, step);
  }

  lemma {:induction false} RunTaskInv(steps: seq<Step>)
    ensures TaskInv(RunFrom(INITIAL, steps))
    decreases |steps|
  {
    if steps != [] {
      var s, step := RunFrom(INITIAL, steps[..|steps| - 1]), steps[|steps| - 1];
      RunTaskInv(steps[..|steps| - 1]);
      if Enabled(s, step) {
        TaskInvNext(s, step);
      }
    }
  }

  lemma {:induction false} RunConcat(s: System, steps: seq<Step>, more: seq<Step>)
    ensures RunFrom(s, steps + more) == RunFrom(RunFrom(s, steps), more)
    decreases |more|
  {
    if more == [] {
      assert steps + more == steps;
    } else {
      assert (steps + more)[..|steps + more| - 1] == steps + more[..|more| - 1];
      RunConcat(s, steps, more[..|more| - 1]);
    }
  }

  // ------------------------------------------------------- what every run keeps

  /** A worker has read this result for its task. */
  ghost predicate WasReported(steps: seq<Step>, e: ResultEvent) {
    exists i :: 0 <= i < |steps| && steps[i].ReadResult? && steps[i].result == e
  }

  /** Every result under way or stored is one a worker has read. */
  ghost predicate AllReported(s: System, steps: seq<Step>) {
    && (forall j :: j in s.jobs && s.jobs[j].ResultJob? ==> WasReported(steps, s.jobs[j].result))
    && (forall t :: t in s.store.results ==> WasReported(steps, s.store.results[t]))
  }

  lemma ReportedFinish(s: System, job: nat, audited: bool, steps: seq<Step>)
    requires AllReported(s, steps) && job in s.jobs
    ensures AllReported(Finish(s, job, audited), steps)
  {
    RunningKeepsResults(s, job);
    hide WasReported, MarkedRunning, DesiredCleared;
  }

  lemma RunningKeepsResults(s: System, job: nat)
    requires job in s.jobs
    ensures s.jobs[job].RunningJob? && MarkedRunning(s.store, s.jobs[job].running).Committed? ==>
      MarkedRunning(s.store, s.jobs[job].running).store.results == s.store.results
    ensures s.jobs[job].ClearJob? ==>
      DesiredCleared(s.store, s.jobs[job].agentId, s.jobs[job].taskId).results == s.store.results
  {
  }

  lemma ReportedLonger(s: System, steps: seq<Step>, step: Step)
    requires AllReported(s, steps)
    ensures AllReported(s, steps + [step])
  {
    forall e: ResultEvent | WasReported(steps, e) ensures WasReported(steps + [step], e) {
      var i :| 0 <= i < |steps| && steps[i].ReadResult? && steps[i].result == e;
      assert (steps + [step])[i] == steps[i];
    }
  }

  lemma ReportedNext(s: System, step: Step, steps: seq<Step>)
    requires AllReported(s, steps) && Enabled(s, step)
    ensures AllReported(Next(s, step), steps + [step])
  {
    if step.WriteJob? {
      ReportedFinish(s, step.job, step.audited, steps);
      assert Next(s, step) == Finish(s, step.job, step.audited);
      ReportedLonger(Next(s, step), steps, step);
    } else {
      ReportedLonger(s, steps, step);
      assert step.ReadResult? ==> WasReported(steps + [step], step.result) by {
        assert (steps + [step])[|steps|] == step;
      }
      hide WasReported, Finish;
      assert Next(s, step).store.results == s.store.results;
    }
  }

  lemma {:induction false} RunReported(steps: seq<Step>)
    ensures AllReported(RunFrom(INITIAL, steps), steps)
    decreases |steps|
  {
    if steps != [] {
      var before, step := steps[..|steps| - 1], steps[|steps| - 1];
      var s := RunFrom(INITIAL, before);
      RunReported(before);
      assert before + [step] == steps;
      if Enabled(s, step) {
        ReportedNext(s, step, before);
      } else {
        ReportedLonger(s, before, step);
      }
    }
  }

  /** However workers interleave, a task has at most one accepted running event
      and at most one accepted result, and each accepted event was written. */
  lemma AcceptedAtMostOnce(steps: seq<Step>)
    ensures var s := RunFrom(INITIAL, steps);
      && Distinct(s.acceptedRunning) && Distinct(s.acceptedResults)
      && (forall t :: t in s.acceptedRunning ==>
            t in s.store.tasks && s.store.tasks[t].state != Queued && s.store.tasks[t].state != Assigned)
      && (forall t :: t in s.acceptedResults ==> t in s.store.results)
  {
    RunTaskInv(steps);
  }

  /** In every run a task has a stored result exactly if it has ended; the row is
      one a worker reported for that very task, and the task ended as it says. */
  lemma EndedAsReported(steps: seq<Step>, t: string)
    ensures var s := RunFrom(INITIAL, steps).store;
      && (t in s.results <==> t in s.tasks && s.tasks[t].state in {Succeeded, Failed, Expired})
      && (t in s.results ==>
            && (exists i :: 0 <= i < |steps| && steps[i].ReadResult? && steps[i].result == s.results[t])
            && s.results[t].taskId == t
            && s.results[t].agentId == s.tasks[t].task.agentId && s.results[t].taskType == s.tasks[t].task.taskType
            && (s.tasks[t].state == Succeeded <==> s.results[t].status == ExecutionSucceeded)
            && (s.tasks[t].state == Failed <==> s.results[t].status == ExecutionFailed)
            && (s.tasks[t].state == Expired <==> s.results[t].status == ExecutionExpired)
            && s.tasks[t].completedAt == Some(s.results[t].occurredAt))
  {
    RunTaskInv(steps);
    RunReported(steps);
    var s := RunFrom(INITIAL, steps).store;
    if t in s.results {
      assert WasReported(steps, s.results[t]);
    }
  }

  /** A task is handed out by at most one claim, to its own agent, before it
      expires, and not before a result reported the success of its
      prerequisite. */
  lemma HandedOutOnce(steps: seq<Step>)
    ensures var s := RunFrom(INITIAL, steps);
      && (forall i, j :: 0 <= i < j < |s.claims| ==> s.claims[i].taskId != s.claims[j].taskId)
      && (forall c :: c in s.claims ==>
            && c.taskId in s.store.tasks
            && var row := s.store.tasks[c.taskId];
               && row.task.agentId == c.agentId && c.at < row.task.expiresAt && row.state != Queued
               && (row.prerequisite.Some? ==>
                     row.prerequisite.value in s.store.results
                     && s.store.results[row.prerequisite.value].status == ExecutionSucceeded))
  {
    RunTaskInv(steps);
    var s := RunFrom(INITIAL, steps);
    hide RunFrom, PrerequisitesFormed, LogsFormed, JobsChecked;
    forall c | c in s.claims ensures ClaimJustified(s.store, c) {
      var i :| 0 <= i < |s.claims| && s.claims[i] == c;
    }
  }

  /** The task waits for its agent: it is queued, not expired, and its
      prerequisite, if any, was reported as succeeded. */
  ghost predicate Ready(s: Store, t: string, agentId: string, at: int) {
    && t in s.tasks && s.tasks[t].state == Queued
    && s.tasks[t].task.agentId == agentId && at < s.tasks[t].task.expiresAt
    && (s.tasks[t].prerequisite.Some? ==>
          s.tasks[t].prerequisite.value in s.results
          && s.results[s.tasks[t].prerequisite.value].status == ExecutionSucceeded)
  }

  /** In every run a claim hands out a longest-waiting task that is ready, and
      comes back empty exactly when none is. */
  lemma OldestReadyIsClaimed(steps: seq<Step>, agentId: string, at: int, choice: Option<string>)
    ensures var s := RunFrom(INITIAL, steps);
      Enabled(s, ClaimNext(agentId, at, choice)) <==>
        match choice
        case None => forall t :: !Ready(s.store, t, agentId, at)
        case Some(id) =>
          && Ready(s.store, id, agentId, at)
          && forall t :: Ready(s.store, t, agentId, at) ==>
               s.store.tasks[id].task.createdAt <= s.store.tasks[t].task.createdAt
  {
    RunTaskInv(steps);
    var s := RunFrom(INITIAL, steps);
    hide RunFrom, ClaimsFormed, LogsFormed, JobsChecked;
    forall t ensures Claimable(s.store, t, agentId, at) <==> Ready(s.store, t, agentId, at) {
    }
  }

  /** Once a result reported that a prerequisite did not succeed, its dependent
      is never handed out, in any continuation. */
  lemma DeadPrerequisite(steps: seq<Step>, more: seq<Step>, taskId: string)
    requires var s := RunFrom(INITIAL, steps).store;
      && taskId in s.tasks && s.tasks[taskId].prerequisite.Some?
      && s.tasks[taskId].prerequisite.value in s.results
      && s.results[s.tasks[taskId].prerequisite.value].status != ExecutionSucceeded
    ensures forall c :: c in RunFrom(RunFrom(INITIAL, steps), more).claims ==> c.taskId != taskId
  {
    var s := RunFrom(INITIAL, steps);
    RunConcat(INITIAL, steps, more);
    HandedOutOnce(steps + more);
    RunAdvances(s, more);
    hide RunFrom;
  }

  // ------------------------------------------------------- what steps bring about

  /** The step puts this task, with this prerequisite, into the table. */
  ghost predicate Inserts(s: Store, step: Step, t: string, task: Task, prerequisite: Option<string>) {
    match step
    case Enqueue(queued) => queued.taskId == t && t !in s.tasks && task == queued && prerequisite.None?
    case Upgrade(agentId, _, _, _, at, expiresAt, taskId, needed) =>
      && agentId in s.agents && taskId !in s.tasks
      && (needed.Some? ==> needed.value !in s.tasks && needed.value != taskId)
      && task == Task(t, agentId, PackageUpdate, at, expiresAt)
      && ((t == taskId && prerequisite == needed) || (needed == Some(t) && prerequisite.None?))
    case Rollback(agentId, _, at, expiresAt, taskId, _) =>
      && agentId in s.agents && taskId !in s.tasks
      && task == Task(t, agentId, PackageUpdate, at, expiresAt) && t == taskId && prerequisite.None?
    case _ => false
  }

  /** Some step of the run inserted the task. */
  ghost predicate WasInserted(steps: seq<Step>, t: string, task: Task, prerequisite: Option<string>) {
    exists i {:trigger steps[i]} :: 0 <= i < |steps|
      && Enabled(RunFrom(INITIAL, steps[..i]), steps[i])
      && Inserts(RunFrom(INITIAL, steps[..i]).store, steps[i], t, task, prerequisite)
  }

  lemma InsertedSnoc(steps: seq<Step>, step: Step, t: string, task: Task, prerequisite: Option<string>)
    ensures WasInserted(steps + [step], t, task, prerequisite) <==>
      || WasInserted(steps, t, task, prerequisite)
      || (Enabled(RunFrom(INITIAL, steps), step) && Inserts(RunFrom(INITIAL, steps).store, step, t, task, prerequisite))
  {
    var all := steps + [step];
    hide RunFrom, Enabled, Inserts;
    assert all[..|steps|] == steps && all[|steps|] == step;
    forall i | 0 <= i < |steps| ensures all[..i] == steps[..i] && all[i] == steps[i] {
    }
    if WasInserted(steps, t, task, prerequisite) {
      var i :| 0 <= i < |steps| && Enabled(RunFrom(INITIAL, steps[..i]), steps[i])
        && Inserts(RunFrom(INITIAL, steps[..i]).store, steps[i], t, task, prerequisite);
      assert all[i] == steps[i];
    }
  }

  lemma RowsNext(s: System, step: Step, t: string)
    requires Enabled(s, step)
    ensures var s' := Next(s, step).store;
      && (t in s'.tasks && t !in s.store.tasks ==>
            Inserts(s.store, step, t, s'.tasks[t].task, s'.tasks[t].prerequisite) && s'.tasks[t].state == Queued)
      && (forall task, prerequisite :: Inserts(s.store, step, t, task, prerequisite) ==>
            t !in s.store.tasks && t in s'.tasks
            && s'.tasks[t].task == task && s'.tasks[t].prerequisite == prerequisite)
  {
    if step.WriteJob? {
      hide MarkedRunning, ResultRecorded;
      FinishAdvances(s, step.job, step.audited);
      assert Next(s, step) == Finish(s, step.job, step.audited);
      FinishKeepsRows(s, step.job, step.audited);
    }
  }

  lemma FinishKeepsRows(s: System, job: nat, audited: bool)
    requires job in s.jobs
    ensures Finish(s, job, audited).store.tasks.Keys == s.store.tasks.Keys
  {
  }

  /** In every run the table holds a task exactly if a step of the run inserted
      it, and then that very task with that prerequisite. */
  lemma {:induction false} InTableExactly(steps: seq<Step>, t: string, task: Task, prerequisite: Option<string>)
    ensures var tasks := RunFrom(INITIAL, steps).store.tasks;
      (t in tasks && tasks[t].task == task && tasks[t].prerequisite == prerequisite) <==>
        WasInserted(steps, t, task, prerequisite)
    decreases |steps|
  {
    if steps != [] {
      var before, step := steps[..|steps| - 1], steps[|steps| - 1];
      var s := RunFrom(INITIAL, before);
      assert before + [step] == steps;
      InTableExactly(before, t, task, prerequisite);
      InsertedSnoc(before, step, t, task, prerequisite);
      hide WasInserted, Inserts;
      if Enabled(s, step) {
        NextAdvances(s, step);
        RowsNext(s, step, t);
      }
      hide Enabled, Next;
    }
  }

  /** An event of the agent of an assigned task that no other step interferes
      with is accepted, and the task runs. */
  lemma RunningIsAccepted(s: System, e: RunningEvent, job: nat)
    requires job !in s.jobs && e.taskId != "" && e.taskId in s.store.tasks
    requires var row := s.store.tasks[e.taskId];
      row.state == Assigned && row.task.agentId == e.agentId && row.task.taskType == e.taskType
    ensures var s' := RunFrom(s, [ReadRunning(e, job), WriteJob(job, true)]);
      && s'.acceptedRunning == s.acceptedRunning + [e.taskId]
      && e.taskId in s'.store.tasks && s'.store.tasks[e.taskId].state == Running
  {
    RunTwo(s, ReadRunning(e, job), WriteJob(job, true));
  }

  /** So is a result for a task that has not ended, and it is stored. */
  lemma ResultIsAccepted(s: System, e: ResultEvent, job: nat)
    requires TaskInv(s) && job !in s.jobs && e.taskId != "" && e.taskId in s.store.tasks
    requires var row := s.store.tasks[e.taskId];
      row.state in {Queued, Assigned, Running} && row.task.agentId == e.agentId && row.task.taskType == e.taskType
    requires if e.status == ExecutionSucceeded then e.hasPayload else e.errorCode.Some?
    ensures var s' := RunFrom(s, [ReadResult(e, job), WriteJob(job, true)]);
      s'.acceptedResults == s.acceptedResults + [e.taskId] && s'.store.results == s.store.results[e.taskId := e]
  {
    RunTwo(s, ReadResult(e, job), WriteJob(job, true));
  }

  lemma RunTwo(s: System, a: Step, b: Step)
    requires Enabled(s, a) && Enabled(Next(s, a), b)
    ensures RunFrom(s, [a, b]) == Next(Next(s, a), b)
  {
    assert [a, b][..1] == [a] && [a][..0] == [];
    assert RunFrom(s, [a]) == Next(s, a) by {
      assert RunFrom(s, []) == s;
    }
  }
}
