/**
 What the upgrade columns of an agent say about its tasks, over every run of
 the step system of TaskProtocol.
 */
module UpgradeProtocol {
  import opened Prelude
  import opened ServerStore
  import opened TaskProtocol

  predicate Dead(state: TaskState) { state.Failed? || state.Expired? }

  /** The upgrade state agrees with the task table. */
  ghost predicate Agrees(s: Store, agentId: string, u: Upgrade) {
    && (u.desiredVersion.None? <==> u.desiredPackage.None?)
    && (u.state.Some? ==> u.lastTask.Some?)
    && (u.lastTask.Some? ==>
          var t := u.lastTask.value;
          && t in s.tasks
          && s.tasks[t].task.agentId == agentId
          && s.tasks[t].task.taskType.PackageUpdate?
          && (u.state == Some(UpgradeQueued) ==>
                && !IsTerminal(s.tasks[t].state)
                && (s.tasks[t].prerequisite.Some? && s.tasks[t].prerequisite.value in s.tasks ==>
                      !Dead(s.tasks[s.tasks[t].prerequisite.value].state)))
          && (u.state == Some(WaitingReconnect) || u.state == Some(UpgradeSucceeded) ==> s.tasks[t].state == Succeeded))
  }

  ghost predicate AllAgree(s: Store) {
    forall a :: a in s.agents ==> Agrees(s, a, s.agents[a].upgrade)
  }

  /** Steps that finish no task and schedule nothing keep the agreement of an
      agent whose upgrade columns they leave alone. */
  lemma AgreesKept(s: Store, s': Store, agentId: string, u: Upgrade)
    requires Agrees(s, agentId, u)
    requires forall t :: t in s.tasks ==> t in s'.tasks && Later(s.tasks[t], s'.tasks[t])
    requires forall t :: t in s.tasks && IsTerminal(s'.tasks[t].state) ==> IsTerminal(s.tasks[t].state)
    requires PrerequisitesFormed(s)
    ensures Agrees(s', agentId, u)
  {
  }

  lemma ReconnectAgrees(s: Store, agentId: string, u: Upgrade, version: string, at: int)
    requires Agrees(s, agentId, u)
    ensures Agrees(s, agentId, Reconnected(u, version, at))
  {
  }

  lemma ResultAgrees(s: Store, e: ResultEvent, agentId: string)
    requires AllAgree(s) && PrerequisitesFormed(s)
    requires ResultRecorded(s, e).Committed?
    requires s.tasks[e.taskId].task.agentId == e.agentId && s.tasks[e.taskId].task.taskType == e.taskType
    requires agentId in s.agents
    ensures var s' := ResultRecorded(s, e).store;
      agentId in s'.agents && Agrees(s', agentId, s'.agents[agentId].upgrade)
  {
    var s' := ResultRecorded(s, e).store;
    var u, u' := s.agents[agentId].upgrade, s'.agents[agentId].upgrade;
    assert Agrees(s, agentId, u);
    if u.lastTask.Some? {
      var t := u.lastTask.value;
      if t == e.taskId {
        assert agentId == e.agentId;
        assert s.tasks[t].prerequisite != Some(t);
        assert u' == OwnResult(u, e);
      } else if s.tasks[t].prerequisite == Some(e.taskId) {
        assert agentId == e.agentId;
      } else {
        assert u' == u;
      }
    }
  }

  lemma ScheduleAgrees(s: Store, w: Write<()>, agentId: string, version: string, packageId: string,
                       setBy: Option<string>,
                       at: int, expiresAt: int, taskId: string, prerequisiteId: Option<string>)
    requires AllAgree(s) && PrerequisitesFormed(s)
    requires w == UpgradeWrite(s, agentId, version, packageId, setBy, at, expiresAt, taskId, prerequisiteId)
    requires w.Committed?
    ensures AllAgree(w.store)
  {
    forall a | a in w.store.agents ensures Agrees(w.store, a, w.store.agents[a].upgrade) {
      if a != agentId {
        assert Agrees(s, a, s.agents[a].upgrade);
        AgreesKept(s, w.store.(agents := s.agents), a, s.agents[a].upgrade);
      }
    }
  }

  lemma RunningAgrees(s: System, job: nat, audited: bool)
    requires AllAgree(s.store) && PrerequisitesFormed(s.store) && job in s.jobs && s.jobs[job].RunningJob?
    ensures AllAgree(Finish(s, job, audited).store)
  {
    var s' := Finish(s, job, audited).store;
    FinishAdvances(s, job, audited);
    hide Agrees, PrerequisitesFormed;
    forall a | a in s'.agents ensures Agrees(s', a, s'.agents[a].upgrade) {
      AgreesKept(s.store, s', a, s.store.agents[a].upgrade);
    }
  }

  lemma ClearAgrees(s: System, job: nat, audited: bool)
    requires AllAgree(s.store) && job in s.jobs && s.jobs[job].ClearJob?
    ensures AllAgree(Finish(s, job, audited).store)
  {
    var s' := Finish(s, job, audited).store;
    forall a | a in s'.agents ensures Agrees(s', a, s'.agents[a].upgrade) {
      assert Agrees(s.store, a, s.store.agents[a].upgrade);
    }
  }

  lemma WriteAgrees(s: System, job: nat, audited: bool)
    requires AllAgree(s.store) && PrerequisitesFormed(s.store) && JobsChecked(s) && job in s.jobs
    ensures AllAgree(Finish(s, job, audited).store)
  {
    if s.jobs[job].RunningJob? {
      RunningAgrees(s, job, audited);
    } else if s.jobs[job].ClearJob? {
      ClearAgrees(s, job, audited);
    } else {
      var e, s' := s.jobs[job].result, Finish(s, job, audited).store;
      hide ResultRecorded, Agrees, PrerequisitesFormed;
      if ResultRecorded(s.store, e).Committed? {
        forall a | a in s'.agents ensures Agrees(s', a, s'.agents[a].upgrade) {
          ResultKeepsAgents(s.store, e);
          ResultAgrees(s.store, e, a);
        }
      }
    }
  }

  lemma ResultKeepsAgents(s: Store, e: ResultEvent)
    requires ResultRecorded(s, e).Committed?
    ensures ResultRecorded(s, e).store.agents.Keys == s.agents.Keys
  {
  }

  lemma UpgradeAgrees(s: System, step: Step)
    requires AllAgree(s.store) && PrerequisitesFormed(s.store) && (step.Upgrade? || step.Rollback?) && Enabled(s, step)
    ensures AllAgree(Next(s, step).store)
  {
    var (version, packageId, prerequisiteId) :=
      if step.Upgrade? then (step.version, step.packageId, step.prerequisiteId) else ("", "", None);
    var w := UpgradeWrite(s.store, step.agentId, version, packageId, step.setBy, step.at, step.expiresAt, step.taskId,
        prerequisiteId);
    assert Next(s, step).store == if w.Committed? then w.store else s.store;
    if w.Committed? {
      ScheduleAgrees(s.store, w, step.agentId, version, packageId, step.setBy, step.at, step.expiresAt, step.taskId,
          prerequisiteId);
    }
  }

  /** Agreement with the new tables of the columns an agent had before. */
  lemma OldColumnsAgree(s: System, step: Step, a: string)
    requires AllAgree(s.store) && PrerequisitesFormed(s.store) && Enabled(s, step)
    requires !step.WriteJob? && !step.Upgrade? && !step.Rollback? && a in s.store.agents
    ensures Agrees(Next(s, step).store, a, s.store.agents[a].upgrade)
  {
    NextAdvances(s, step);
    hide Enabled, Finish, UpgradeWrite, Reconnected, TimeOut;
    AgreesKept(s.store, Next(s, step).store, a, s.store.agents[a].upgrade);
  }

  lemma AgreesNext(s: System, step: Step)
    requires AllAgree(s.store) && PrerequisitesFormed(s.store) && JobsChecked(s) && Enabled(s, step)
    ensures AllAgree(Next(s, step).store)
  {
    if step.WriteJob? {
      WriteAgrees(s, step.job, step.audited);
    } else if step.Upgrade? || step.Rollback? {
      UpgradeAgrees(s, step);
    } else {
      var s' := Next(s, step).store;
      forall a | a in s'.agents ensures Agrees(s', a, s'.agents[a].upgrade) {
        if a in s.store.agents {
          OldColumnsAgree(s, step, a);
          if step.Register? && step.registration.agentId == a {
            ReconnectAgrees(s', a, s.store.agents[a].upgrade, step.registration.agentVersion,
                step.registration.occurredAt);
          }
        }
      }
    }
  }

  /** In every run: queued means the current upgrade task is not finished and
      its prerequisite has not failed; waiting for the reconnect, or succeeded,
      means that task succeeded. */
  lemma {:induction false} UpgradeStateAgrees(steps: seq<Step>)
    ensures AllAgree(RunFrom(INITIAL, steps).store)
    decreases |steps|
  {
    if steps != [] {
      var s, step := RunFrom(INITIAL, steps[..|steps| - 1]), steps[|steps| - 1];
      UpgradeStateAgrees(steps[..|steps| - 1]);
      RunTaskInv(steps[..|steps| - 1]);
      if Enabled(s, step) {
        AgreesNext(s, step);
      }
    }
  }

  /** A registration while waiting for the reconnect always resolves the
      upgrade, and to success exactly on the desired version or when nothing is
      desired, as after a rollback. */
  lemma RegistrationResolves(steps: seq<Step>, r: Registration)
    requires var s := RunFrom(INITIAL, steps).store;
      r.agentId in s.agents && s.agents[r.agentId].upgrade.state == Some(WaitingReconnect)
    ensures var u := RunFrom(INITIAL, steps).store.agents[r.agentId].upgrade;
      var u' := Registered(RunFrom(INITIAL, steps).store, r).agents[r.agentId].upgrade;
      && (u'.state == Some(UpgradeSucceeded) || u'.state == Some(UpgradeFailed))
      && (u'.state == Some(UpgradeSucceeded) <==> u.desiredVersion == Some(r.agentVersion) || u.desiredPackage.None?)
      && (u'.state == Some(UpgradeSucceeded) ==> u'.currentPackage == u.desiredPackage)
  {
    UpgradeStateAgrees(steps);
    assert Agrees(RunFrom(INITIAL, steps).store, r.agentId, RunFrom(INITIAL, steps).store.agents[r.agentId].upgrade);
  }

  // ------------------------------------------------------- superseded upgrades

  /** `taskId` is, or is the prerequisite of, an upgrade of the agent that is
      no longer its current one. */
  ghost predicate Superseded(s: Store, agentId: string, taskId: string) {
    && agentId in s.agents
    && taskId in s.tasks
    && s.agents[agentId].upgrade.lastTask != Some(taskId)
    && (s.agents[agentId].upgrade.lastTask.Some? ==>
          var current := s.agents[agentId].upgrade.lastTask.value;
          current in s.tasks && s.tasks[current].prerequisite != Some(taskId))
  }

  /** The current upgrade task of an agent changes only to a task that was not
      in the table before, and so does its prerequisite. */
  lemma CurrentNext(s: System, step: Step, agentId: string)
    requires agentId in s.store.agents && Enabled(s, step)
    ensures var s' := Next(s, step).store;
      && agentId in s'.agents
      && var was, now := s.store.agents[agentId].upgrade.lastTask, s'.agents[agentId].upgrade.lastTask;
         now == was ||
         (now.Some? && now.value !in s.store.tasks && now.value in s'.tasks
          && (s'.tasks[now.value].prerequisite.Some? ==> s'.tasks[now.value].prerequisite.value !in s.store.tasks))
  {
    if step.WriteJob? {
      assert Finish(s, step.job, step.audited) == Next(s, step);
    }
  }

  lemma SupersededNext(s: System, step: Step, agentId: string, taskId: string)
    requires Superseded(s.store, agentId, taskId) && Enabled(s, step)
    ensures Superseded(Next(s, step).store, agentId, taskId)
  {
    CurrentNext(s, step, agentId);
    NextAdvances(s, step);
  }

  lemma {:induction false} StaysSuperseded(s: System, steps: seq<Step>, agentId: string, taskId: string)
    requires Superseded(s.store, agentId, taskId)
    ensures Superseded(RunFrom(s, steps).store, agentId, taskId)
    decreases |steps|
  {
    if steps != [] {
      var before := RunFrom(s, steps[..|steps| - 1]);
      StaysSuperseded(s, steps[..|steps| - 1], agentId, taskId);
      if Enabled(before, steps[|steps| - 1]) {
        SupersededNext(before, steps[|steps| - 1], agentId, taskId);
      }
    }
  }

  /** Scheduling a newer upgrade supersedes the task of the older one and that
      task's prerequisite. */
  lemma SchedulingSupersedes(steps: seq<Step>, w: Write<()>, agentId: string, version: string, packageId: string,
                             setBy: Option<string>, at: int, expiresAt: int, taskId: string,
                                 prerequisiteId: Option<string>)
    requires var s := RunFrom(INITIAL, steps).store;
      && agentId in s.agents
      && w == UpgradeWrite(s, agentId, version, packageId, setBy, at, expiresAt, taskId, prerequisiteId)
      && w.Committed?
    ensures w.store.tasks[taskId].task == Task(taskId, agentId, PackageUpdate, at, expiresAt)
    ensures prerequisiteId.Some? ==>
      w.store.tasks[prerequisiteId.value].task == Task(prerequisiteId.value, agentId, PackageUpdate, at, expiresAt)
    ensures var s := RunFrom(INITIAL, steps).store;
      var older := s.agents[agentId].upgrade.lastTask;
      older.Some? ==>
        && Superseded(w.store, agentId, older.value)
        && (s.tasks[older.value].prerequisite.Some? ==>
            Superseded(w.store, agentId, s.tasks[older.value].prerequisite.value))
  {
    var s := RunFrom(INITIAL, steps).store;
    UpgradeStateAgrees(steps);
    RunTaskInv(steps);
    assert Agrees(s, agentId, s.agents[agentId].upgrade);
  }

  predicate WritesFor(job: Job, taskId: string) {
    match job
    case ResultJob(e) => e.taskId == taskId
    case ClearJob(a, t) => t == taskId
    case RunningJob(_) => false
  }

  /** Once superseded, in every continuation: neither a result of that task nor
      the delayed second write of its rollback changes anything in the agent's
      row. */
  lemma SupersededIsInert(s: System, steps: seq<Step>, agentId: string, taskId: string, job: nat, audited: bool)
    requires Superseded(s.store, agentId, taskId)
    requires job in RunFrom(s, steps).jobs && WritesFor(RunFrom(s, steps).jobs[job], taskId)
    ensures var t := RunFrom(s, steps);
      agentId in t.store.agents && agentId in Finish(t, job, audited).store.agents
      && Finish(t, job, audited).store.agents[agentId] == t.store.agents[agentId]
  {
    StaysSuperseded(s, steps, agentId, taskId);
  }

  // ------------------------------------------------------- between the two writes of a rollback

  /** While its second write is owed, a current rollback desires the empty
      version of the empty package. */
  ghost predicate ClearsPending(s: System) {
    && (forall j :: j in s.jobs && s.jobs[j].ClearJob? ==>
          var a := s.jobs[j].agentId;
          s.jobs[j].taskId in s.store.tasks
          && (a in s.store.agents && s.store.agents[a].upgrade.lastTask == Some(s.jobs[j].taskId) ==>
                s.store.agents[a].upgrade.desiredVersion == Some("")
                    && s.store.agents[a].upgrade.desiredPackage == Some("")))
    && (forall i, j ::
          (i in s.jobs && j in s.jobs && s.jobs[i].ClearJob? && s.jobs[j].ClearJob?
           && s.jobs[i].taskId == s.jobs[j].taskId) ==> i == j)
  }

  lemma DesiredFinish(s: System, job: nat, audited: bool, agentId: string)
    requires agentId in s.store.agents && job in s.jobs
    ensures agentId in Finish(s, job, audited).store.agents
    ensures var u, u' := s.store.agents[agentId].upgrade, Finish(s, job, audited).store.agents[agentId].upgrade;
      && u'.lastTask == u.lastTask
      && ((u'.desiredVersion == u.desiredVersion && u'.desiredPackage == u.desiredPackage)
          || (s.jobs[job].ClearJob? && u.lastTask == Some(s.jobs[job].taskId)
              && u'.desiredVersion.None? && u'.desiredPackage.None?))
  {
    match s.jobs[job]
    case ClearJob(a, t) =>
    case RunningJob(e) =>
    case ResultJob(e) =>
  }

  lemma DesiredScheduled(s: System, step: Step, agentId: string)
    requires agentId in s.store.agents && Enabled(s, step) && (step.Upgrade? || step.Rollback?)
    ensures agentId in Next(s, step).store.agents
    ensures var u, u' := s.store.agents[agentId].upgrade, Next(s, step).store.agents[agentId].upgrade;
      u' == u || (u'.lastTask.Some? && u'.lastTask.value !in s.store.tasks)
  {
    hide Finish, Reconnected;
  }

  /** Only scheduling a new current task, or clearing for the current one,
      changes what is desired. */
  lemma DesiredNext(s: System, step: Step, agentId: string)
    requires agentId in s.store.agents && Enabled(s, step)
    ensures agentId in Next(s, step).store.agents
    ensures var u, u' := s.store.agents[agentId].upgrade, Next(s, step).store.agents[agentId].upgrade;
      || (u'.desiredVersion == u.desiredVersion && u'.desiredPackage == u.desiredPackage && u'.lastTask == u.lastTask)
      || (u'.lastTask.Some? && u'.lastTask.value !in s.store.tasks)
      || (step.WriteJob? && s.jobs[step.job].ClearJob? && u.lastTask == Some(s.jobs[step.job].taskId)
          && u'.desiredVersion.None? && u'.desiredPackage.None? && u'.lastTask == u.lastTask)
  {
    if step.WriteJob? {
      DesiredFinish(s, step.job, step.audited, agentId);
      assert Finish(s, step.job, step.audited) == Next(s, step);
      hide Finish, Next;
    } else if step.Upgrade? || step.Rollback? {
      DesiredScheduled(s, step, agentId);
      hide Next, UpgradeWrite;
    } else {
      hide Finish, UpgradeWrite, UpgradeScheduled, Claimed, InsertTask;
      assert step.Register? || step.Offline? || step.Expire? || Next(s, step).store.agents == s.store.agents;
    }
  }

  /** A rollback whose second write was already owed before the step. */
  lemma OlderClear(s: System, step: Step, j: nat)
    requires ClearsPending(s) && Enabled(s, step)
    requires j in s.jobs && s.jobs[j].ClearJob? && j in Next(s, step).jobs && Next(s, step).jobs[j] == s.jobs[j]
    requires s.jobs[j].agentId in s.store.agents && s.jobs[j].agentId in Next(s, step).store.agents
    requires Next(s, step).store.agents[s.jobs[j].agentId].upgrade.lastTask == Some(s.jobs[j].taskId)
    ensures Next(s, step).store.agents[s.jobs[j].agentId].upgrade.desiredVersion == Some("")
    ensures Next(s, step).store.agents[s.jobs[j].agentId].upgrade.desiredPackage == Some("")
  {
    DesiredNext(s, step, s.jobs[j].agentId);
  }

  lemma ClearsDistinct(s: System, step: Step)
    requires ClearsPending(s) && Enabled(s, step)
    ensures var jobs := Next(s, step).jobs;
      forall i, j :: (i in jobs && j in jobs && jobs[i].ClearJob? && jobs[j].ClearJob?
                      && jobs[i].taskId == jobs[j].taskId) ==> i == j
  {
    if step.WriteJob? {
      assert Next(s, step).jobs == s.jobs - {step.job};
    } else if !step.Rollback? {
      assert forall j :: j in Next(s, step).jobs && Next(s, step).jobs[j].ClearJob? ==>
          j in s.jobs && Next(s, step).jobs[j] == s.jobs[j];
    }
  }

  lemma ClearsNext(s: System, step: Step)
    requires ClearsPending(s) && Enabled(s, step)
    ensures ClearsPending(Next(s, step))
  {
    var s' := Next(s, step);
    ClearsDistinct(s, step);
    NextAdvances(s, step);
    assert step.WriteJob? ==> s'.jobs == s.jobs - {step.job};
    forall j | j in s'.jobs && s'.jobs[j].ClearJob? && s'.jobs[j].agentId in s'.store.agents
      && s'.store.agents[s'.jobs[j].agentId].upgrade.lastTask == Some(s'.jobs[j].taskId)
      ensures s'.store.agents[s'.jobs[j].agentId].upgrade.desiredVersion == Some("")
      ensures s'.store.agents[s'.jobs[j].agentId].upgrade.desiredPackage == Some("")
    {
      if j in s.jobs && s'.jobs[j] == s.jobs[j] && s.jobs[j].agentId in s.store.agents {
        OlderClear(s, step, j);
      }
    }
  }

  lemma {:induction false} RunClears(steps: seq<Step>)
    ensures ClearsPending(RunFrom(INITIAL, steps))
    decreases |steps|
  {
    if steps != [] {
      var s, step := RunFrom(INITIAL, steps[..|steps| - 1]), steps[|steps| - 1];
      RunClears(steps[..|steps| - 1]);
      if Enabled(s, step) {
        ClearsNext(s, step);
      }
    }
  }

  /** Nothing is desired once the second write is made, for as long as the
      rollback is the agent's current upgrade. */
  ghost predicate ClearedWhile(s: System, agentId: string, taskId: string) {
    && taskId in s.store.tasks && agentId in s.store.agents
    && var u := s.store.agents[agentId].upgrade;
       u.lastTask == Some(taskId) ==> u.desiredVersion.None? && u.desiredPackage.None?
  }

  lemma {:induction false} StaysCleared(s: System, steps: seq<Step>, agentId: string, taskId: string)
    requires ClearedWhile(s, agentId, taskId)
    ensures ClearedWhile(RunFrom(s, steps), agentId, taskId)
    decreases |steps|
  {
    if steps != [] {
      var before, step := RunFrom(s, steps[..|steps| - 1]), steps[|steps| - 1];
      StaysCleared(s, steps[..|steps| - 1], agentId, taskId);
      if Enabled(before, step) {
        DesiredNext(before, step, agentId);
        NextAdvances(before, step);
      }
    }
  }

  lemma ClearClears(s: System, job: nat, audited: bool, agentId: string, taskId: string)
    requires job in s.jobs && s.jobs[job] == ClearJob(agentId, taskId)
    requires agentId in s.store.agents && taskId in s.store.tasks
    ensures ClearedWhile(Finish(s, job, audited), agentId, taskId)
  {
  }

  lemma NothingDesiredSucceeds(s: Store, r: Registration)
    requires r.agentId in s.agents && s.agents[r.agentId].upgrade.state == Some(WaitingReconnect)
    requires s.agents[r.agentId].upgrade.desiredVersion.None? && s.agents[r.agentId].upgrade.desiredPackage.None?
    ensures Registered(s, r).agents[r.agentId].upgrade.state == Some(UpgradeSucceeded)
  {
  }

  /** An agent that rolled back and reconnects before the second write is
      recorded as failed, exactly if it reports a non-empty version. After the
      second write, in every later state in which the rollback is still current
      and waits for the reconnect, it is recorded as succeeded. */
  lemma ReconnectInsideRollback(steps: seq<Step>, r: Registration, job: nat, audited: bool, more: seq<Step>)
    requires var s := RunFrom(INITIAL, steps);
      && r.agentId in s.store.agents
      && s.store.agents[r.agentId].upgrade.lastTask.Some?
      && job in s.jobs && s.jobs[job] == ClearJob(r.agentId, s.store.agents[r.agentId].upgrade.lastTask.value)
    ensures var s := RunFrom(INITIAL, steps);
      s.store.agents[r.agentId].upgrade.state == Some(WaitingReconnect) ==>
        (Registered(s.store, r).agents[r.agentId].upgrade.state == Some(UpgradeFailed) <==> r.agentVersion != "")
    ensures var s := RunFrom(INITIAL, steps);
      var t := RunFrom(Finish(s, job, audited), more).store;
      r.agentId in t.agents && t.agents[r.agentId].upgrade.state == Some(WaitingReconnect)
      && t.agents[r.agentId].upgrade.lastTask == s.store.agents[r.agentId].upgrade.lastTask ==>
        Registered(t, r).agents[r.agentId].upgrade.state == Some(UpgradeSucceeded)
  {
    RunClears(steps);
    var s := RunFrom(INITIAL, steps);
    var taskId := s.store.agents[r.agentId].upgrade.lastTask.value;
    ClearClears(s, job, audited, r.agentId, taskId);
    StaysCleared(Finish(s, job, audited), more, r.agentId, taskId);
    hide Finish, RunFrom, ClearsPending;
    var t := RunFrom(Finish(s, job, audited), more).store;
    if r.agentId in t.agents && t.agents[r.agentId].upgrade.state == Some(WaitingReconnect)
       && t.agents[r.agentId].upgrade.lastTask == Some(taskId) {
      NothingDesiredSucceeds(t, r);
    }
  }

  // ------------------------------------------------------- what the agents' rows say about the run

  predicate Registers(step: Step, agentId: string) { step.Register? && step.registration.agentId == agentId }

  predicate Leaves(step: Step, agentId: string) { step.Offline? && step.agentId == agentId }

  /** The `i`-th step is the agent's last registration. */
  ghost predicate LastRegistration(steps: seq<Step>, agentId: string, i: nat)
    requires i < |steps|
  {
    Registers(steps[i], agentId) && forall j :: i < j < |steps| ==> !Registers(steps[j], agentId)
  }

  /** The two stores have the same agents, up to their upgrades. */
  ghost predicate SamePresence(s: Store, s': Store, agentId: string) {
    && (agentId in s'.agents <==> agentId in s.agents)
    && (agentId in s'.agents ==> s'.agents[agentId] == s.agents[agentId].(upgrade := s'.agents[agentId].upgrade))
  }

  lemma FinishKeepsPresence(s: System, job: nat, audited: bool, agentId: string)
    requires job in s.jobs
    ensures SamePresence(s.store, Finish(s, job, audited).store, agentId)
  {
    match s.jobs[job]
    case RunningJob(e) =>
    case ResultJob(e) =>
    case ClearJob(a, t) =>
  }

  lemma OtherStepsKeepPresence(s: System, step: Step, agentId: string)
    requires Enabled(s, step) && !Registers(step, agentId) && !Leaves(step, agentId)
    ensures SamePresence(s.store, Next(s, step).store, agentId)
  {
    if step.WriteJob? {
      FinishKeepsPresence(s, step.job, step.audited, agentId);
      assert Finish(s, step.job, step.audited) == Next(s, step);
      hide Finish;
    } else {
      hide Finish, Reconnected, Wanted;
    }
  }

  lemma OwnStepsSetPresence(s: System, step: Step, agentId: string)
    requires Enabled(s, step) && (Registers(step, agentId) || Leaves(step, agentId))
    ensures var agents, agents' := s.store.agents, Next(s, step).store.agents;
      && (Registers(step, agentId) ==>
            agentId in agents' && agents'[agentId].agentVersion == step.registration.agentVersion
            && agents'[agentId].online)
      && (Leaves(step, agentId) ==>
            && (agentId in agents' <==> agentId in agents)
            && (agentId in agents ==>
                  && agents'[agentId].agentVersion == agents[agentId].agentVersion && !agents'[agentId].online
                  && (agents[agentId].online ==>
                        agents'[agentId].lastOfflineAt == Some(step.at) && agents'[agentId].lastSeenAt == step.at)
                  && (!agents[agentId].online ==> agents'[agentId] == agents[agentId])))
  {
    hide Finish, UpgradeWrite, Reconnected;
  }

  /** The agent left at the `j`-th step, for the first time after the `i`-th. */
  ghost predicate FirstLeft(steps: seq<Step>, agentId: string, i: nat, j: nat)
    requires j < |steps|
  {
    i < j && Leaves(steps[j], agentId) && forall k :: i < k < j ==> !Leaves(steps[k], agentId)
  }

  /** The agent has a row exactly if it registered; the row has the version of
      its last registration, and is online exactly if the agent did not leave
      after it. If it did, the row has the time it first did. */
  ghost predicate PresenceTold(steps: seq<Step>, agentId: string, agents: map<string, AgentRow>) {
    && (agentId in agents <==> exists i :: 0 <= i < |steps| && Registers(steps[i], agentId))
    && (forall i :: 0 <= i < |steps| && LastRegistration(steps, agentId, i) ==>
          && agentId in agents
          && agents[agentId].agentVersion == steps[i].registration.agentVersion
          && (agents[agentId].online <==> forall j :: i < j < |steps| ==> !Leaves(steps[j], agentId))
          && (forall j :: 0 <= j < |steps| && FirstLeft(steps, agentId, i, j) ==>
                agents[agentId].lastOfflineAt == Some(steps[j].at) && agents[agentId].lastSeenAt == steps[j].at))
  }

  lemma SameSteps(before: seq<Step>, step: Step, agentId: string)
    ensures var steps := before + [step];
      && (forall i :: 0 <= i < |before| ==> steps[i] == before[i])
      && (forall i :: 0 <= i < |before| ==>
            (LastRegistration(steps, agentId, i) <==>
               LastRegistration(before, agentId, i) && !Registers(step, agentId)))
      && (forall i: nat, j :: 0 <= j < |before| ==>
            (FirstLeft(steps, agentId, i, j) <==> FirstLeft(before, agentId, i, j)))
  {
    var steps := before + [step];
    assert steps[|before|] == step && forall i :: 0 <= i < |before| ==> steps[i] == before[i];
  }

  lemma ToldAfterOther(before: seq<Step>, step: Step, agentId: string, s: Store, s': Store)
    requires PresenceTold(before, agentId, s.agents) && SamePresence(s, s', agentId)
    requires !Registers(step, agentId) && !Leaves(step, agentId)
    ensures PresenceTold(before + [step], agentId, s'.agents)
  {
    SameSteps(before, step, agentId);
    var steps := before + [step];
    assert steps[|before|] == step;
    if agentId in s.agents {
      var i :| 0 <= i < |before| && Registers(before[i], agentId);
      assert Registers(steps[i], agentId);
    }
    hide LastRegistration, FirstLeft, Leaves, Registers;
    assert forall j :: 0 <= j < |before| ==> steps[j] == before[j];
    assert forall i: nat :: !FirstLeft(steps, agentId, i, |before|) by {
      NotFirst(steps, agentId, |before|);
    }
    assert !LastRegistration(steps, agentId, |before|) by {
      NotFirst(steps, agentId, |before|);
    }
  }

  lemma NotFirst(steps: seq<Step>, agentId: string, j: nat)
    requires j < |steps|
    ensures !Leaves(steps[j], agentId) ==> forall i: nat :: !FirstLeft(steps, agentId, i, j)
    ensures !Registers(steps[j], agentId) ==> !LastRegistration(steps, agentId, j)
  {
  }

  lemma ToldAfterOwn(before: seq<Step>, s: System, step: Step, agentId: string)
    requires PresenceTold(before, agentId, s.store.agents) && Enabled(s, step)
    requires Registers(step, agentId) || Leaves(step, agentId)
    ensures PresenceTold(before + [step], agentId, Next(s, step).store.agents)
  {
    OwnStepsSetPresence(s, step, agentId);
    SameSteps(before, step, agentId);
    var steps := before + [step];
    assert steps[|before|] == step;
    hide Next, Enabled;
    if Registers(step, agentId) {
      assert forall i :: 0 <= i < |steps| && LastRegistration(steps, agentId, i) ==> i == |before|;
    } else {
      NotFirst(steps, agentId, |before|);
      if agentId in s.store.agents {
        var i :| 0 <= i < |before| && Registers(before[i], agentId);
        assert Registers(steps[i], agentId);
      }
    }
  }

  lemma {:induction false} PresenceFollowsRun(steps: seq<Step>, agentId: string)
    ensures PresenceTold(steps, agentId, RunFrom(INITIAL, steps).store.agents)
    decreases |steps|
  {
    if steps != [] {
      var before, step := steps[..|steps| - 1], steps[|steps| - 1];
      var s := RunFrom(INITIAL, before);
      assert before + [step] == steps;
      PresenceFollowsRun(before, agentId);
      assert Registers(step, agentId) || Leaves(step, agentId) ==> Enabled(s, step);
      hide PresenceTold;
      if Registers(step, agentId) || Leaves(step, agentId) {
        ToldAfterOwn(before, s, step, agentId);
      } else if Enabled(s, step) {
        OtherStepsKeepPresence(s, step, agentId);
        ToldAfterOther(before, step, agentId, s.store, Next(s, step).store);
      } else {
        ToldAfterOther(before, step, agentId, s.store, s.store);
      }
    }
  }

  /** After an expiry no agent has waited ten minutes or longer: those that had
      are failed, and every other row is as it was. */
  lemma ExpiryLeavesNone(s: System, now: int, agentId: string)
    requires agentId in s.store.agents
    ensures agentId in Next(s, Expire(now)).store.agents
    ensures var was, u := s.store.agents[agentId].upgrade, Next(s, Expire(now)).store.agents[agentId].upgrade;
      if was.state == Some(WaitingReconnect) && was.lastAt.Some? && was.lastAt.value + 600 <= now then
        u.state == Some(UpgradeFailed) && u.lastError == Some("waiting_reconnect_timeout")
      else Next(s, Expire(now)).store.agents[agentId] == s.store.agents[agentId]
  {
  }
}
