/**
 A wake-up that is lost, step by step from the start: a connection settles
 without work, its agent registers on a second connection, a task for the agent
 is enqueued and announced to the first connection, and the agent comes back to
 it with an event of a stream that has not ended. Whatever was written along the
 way is on the wire, and nothing is left that would make the stream ask.
 */
module CommandSleepingRun {
  import opened Prelude
  import opened ServerStore
  import opened CommandSession
  import opened CommandSystem
  import opened CommandWakeUp
  import opened CommandQuiet
  import opened CommandLoss
  import opened CommandSleep
  import P = TaskProtocol

  const CALLER: SessionId := SessionId(0)
  const OTHER: SessionId := SessionId(1)
  const STREAM: StreamId := StreamId(1)
  const KEY: StreamKey := StreamKey(CALLER, STREAM)
  const CLAIM: Ticket := Ticket(CALLER, STREAM, 1)
  const TOLD: NoticeId := NoticeId(0)
  const MESSAGE: PostId := PostId(0)
  const AGENT: Option<string> := Some("agent")
  const ASKING_STREAM: CommandStream := CommandStream(false, true, false, [], 0)
  const IDLE_STREAM: CommandStream := CommandStream(false, false, false, [], 0)
  const READY_STREAM: CommandStream := CommandStream(true, false, false, [], 0)

  /** The first connection: its agent, its command stream, and whether it is writing. */
  function Caller(agent: Option<string>, streams: map<StreamId, CommandStream>, writing: bool): (s: Session) {
    Session(false, agent, streams, writing, if writing then 1 else 0)
  }

  /** Before the command stream is opened. */
  function Early(s: Session, serial: nat, replies: map<PostId, SessionId>): (w: System) {
    INITIAL.(sessions := map[CALLER := s], serial := serial, replies := replies)
  }

  /** Afterwards. */
  function Scene(core: P.System, sessions: map<SessionId, Session>, serial: nat, claims: map<Ticket, Phase>,
                 notices: map<NoticeId, Notice>, posted: map<PostId, SessionId>): (w: System)
  {
    System(core, 0, sessions, claims, serial, notices, posted, map[], map[KEY := Log([], [])], [], map[KEY := "agent"])
  }

  lemma NothingSubmitted(sid: SessionId, serial: nat, agentId: string, now: int)
    ensures Submitted(NewTickets(sid, {}, serial), agentId, now) == map[] && AskedBy(sid, {}, agentId) == map[]
  {
    assert NewTickets(sid, {}, serial) == {};
  }

  /** A start of claims that finds none to start. */
  lemma StartsNone(w: System, sid: SessionId)
    requires sid in w.sessions && Started(w.sessions[sid]) == {}
    ensures StartIn(w, sid) == if w.sessions[sid].agent.None? then w else w.(serial := w.serial + 1)
  {
    var s := w.sessions[sid];
    if s.agent.Some? {
      assert TryStart(s).streams == s.streams;
      NothingSubmitted(sid, w.serial, s.agent.value, w.now);
      hide TryStart, Started, Submitted, NewTickets, AskedBy, Startable;
      assert w.sessions[sid := s] == w.sessions;
      assert w.claims + map[] == w.claims && w.asked + map[] == w.asked;
    }
  }

  lemma StepConnect()
    ensures Enabled(INITIAL, Connect(CALLER))
    ensures Next(INITIAL, Connect(CALLER)) == Early(Caller(None, map[], false), 0, map[])
  {
  }

  lemma StepEarlyOutput()
    ensures var w := Early(Caller(None, map[], false), 0, map[]);
      Enabled(w, Output(CALLER)) && Next(w, Output(CALLER)) == Early(Caller(None, map[], true), 0, map[])
  {
    var w := Early(Caller(None, map[], false), 0, map[]);
    assert w.sessions[CALLER := Caller(None, map[], true)] == map[CALLER := Caller(None, map[], true)];
  }

  lemma StepEarlyWrote(agent: Option<string>)
    ensures var w := Early(Caller(agent, map[], true), 0, map[]);
      && Enabled(w, Wrote(CALLER))
      && Next(w, Wrote(CALLER)) == Early(Caller(agent, map[], false), if agent.None? then 0 else 1, map[])
  {
    var w := Early(Caller(agent, map[], true), 0, map[]);
    assert Written(w.sessions[CALLER]) == Caller(agent, map[], false) by {
      assert Written(w.sessions[CALLER]).streams == map[];
    }
    assert SentOut(w, CALLER).sessions == map[CALLER := Caller(agent, map[], false)];
    StartsNone(SentOut(w, CALLER), CALLER);
  }

  lemma StepRegister()
    ensures var w := Early(Caller(None, map[], false), 0, map[]);
      && Enabled(w, Bind(CALLER, AGENT, Some(MESSAGE)))
      && Next(w, Bind(CALLER, AGENT, Some(MESSAGE))) == Early(Caller(AGENT, map[], false), 0, map[MESSAGE := CALLER])
  {
    var w := Early(Caller(None, map[], false), 0, map[]);
    assert Rebound(w.sessions, CALLER, AGENT) == map[CALLER := Caller(AGENT, map[], false)];
  }

  lemma StepReply()
    ensures var w := Early(Caller(AGENT, map[], false), 0, map[MESSAGE := CALLER]);
      && Enabled(w, HearReply(MESSAGE)) && Next(w, HearReply(MESSAGE)) == Early(Caller(AGENT, map[], true), 0, map[])
  {
    var w := Early(Caller(AGENT, map[], false), 0, map[MESSAGE := CALLER]);
    assert w.replies - {MESSAGE} == map[];
    assert w.sessions[CALLER := Caller(AGENT, map[], true)] == map[CALLER := Caller(AGENT, map[], true)];
  }

  const OPENING: Session := Caller(AGENT, map[STREAM := READY_STREAM], false)

  lemma StartOpening()
    ensures Started(OPENING) == {STREAM} && TryStart(OPENING).streams == map[STREAM := ASKING_STREAM]
    ensures Submitted(NewTickets(CALLER, {STREAM}, 1), "agent", 0) == map[CLAIM := InQueue("agent", 0)]
    ensures AskedBy(CALLER, {STREAM}, "agent") == map[KEY := "agent"]
  {
    assert NewTickets(CALLER, {STREAM}, 1) == {CLAIM};
  }

  lemma StepOpen()
    ensures var w := Early(Caller(AGENT, map[], false), 1, map[]);
      && Enabled(w, OpenStream(CALLER, STREAM))
      && Next(w, OpenStream(CALLER, STREAM)) == Claiming(false, 2, InQueue("agent", 0))
  {
    StartOpening();
    hide Started, TryStart, Submitted, NewTickets, AskedBy, Startable;
    var w := Early(Caller(AGENT, map[], false), 1, map[]);
    assert Opened(w.sessions[CALLER], STREAM) == OPENING;
    assert Joined(w, CALLER, STREAM).sessions == map[CALLER := OPENING];
    assert Joined(w, CALLER, STREAM).logs == map[KEY := Log([], [])];
  }

  function Claiming(writing: bool, serial: nat, phase: Phase): (w: System) {
    Scene(P.INITIAL, map[CALLER := Caller(AGENT, map[STREAM := ASKING_STREAM], writing)], serial, map[CLAIM := phase],
          map[], map[])
  }

  lemma StepOutput()
    ensures var w := Claiming(false, 2, InQueue("agent", 0));
      Enabled(w, Output(CALLER)) && Next(w, Output(CALLER)) == Claiming(true, 2, InQueue("agent", 0))
  {
    var w := Claiming(false, 2, InQueue("agent", 0));
    var s := Caller(AGENT, map[STREAM := ASKING_STREAM], true);
    assert w.sessions[CALLER := s] == map[CALLER := s];
  }

  lemma StepWrote()
    ensures var w := Claiming(true, 2, InQueue("agent", 0));
      Enabled(w, Wrote(CALLER)) && Next(w, Wrote(CALLER)) == Claiming(false, 3, InQueue("agent", 0))
  {
    var w := Claiming(true, 2, InQueue("agent", 0));
    var s := Caller(AGENT, map[STREAM := ASKING_STREAM], false);
    assert Written(w.sessions[CALLER]) == s by {
      assert Written(w.sessions[CALLER]).streams == map[STREAM := ASKING_STREAM];
    }
    assert SentOut(w, CALLER).sessions == map[CALLER := s];
    StartsNone(SentOut(w, CALLER), CALLER);
  }

  lemma StepExecute()
    ensures var w := Claiming(false, 3, InQueue("agent", 0));
      Enabled(w, Execute(CLAIM, None, TOLD)) && Next(w, Execute(CLAIM, None, TOLD)) == Claiming(false, 3, Done(None))
  {
    assert Claiming(false, 3, InQueue("agent", 0)).claims[CLAIM := Done(None)] == map[CLAIM := Done(None)];
  }

  /** After the empty claim: the caller's stream, and a second connection. */
  function Later(core: P.System, agent: Option<string>, stream: CommandStream, others: map<SessionId, Session>,
                 notices: map<NoticeId, Notice>, posted: map<PostId, SessionId>): (w: System)
  {
    Scene(core, map[CALLER := Caller(agent, map[STREAM := stream], false)] + others, 3, map[], notices, posted)
  }

  lemma HeardNothing()
    ensures Answered(Caller(AGENT, map[STREAM := ASKING_STREAM], false), STREAM, NoTask)
         == Caller(AGENT, map[STREAM := IDLE_STREAM], false)
  {
    assert map[STREAM := ASKING_STREAM][STREAM := IDLE_STREAM] == map[STREAM := IDLE_STREAM];
  }

  lemma HeardScene()
    ensures Heard(Claiming(false, 3, Done(None)), CLAIM, []) ==
        Later(P.INITIAL, AGENT, IDLE_STREAM, map[], map[], map[])
  {
    HeardNothing();
    hide Answered;
    var w := Claiming(false, 3, Done(None));
    assert w.claims - {CLAIM} == map[];
    assert Heard(w, CLAIM, []).sessions == map[CALLER := Caller(AGENT, map[STREAM := IDLE_STREAM], false)];
  }

  lemma StepHearClaim()
    ensures var w := Claiming(false, 3, Done(None));
      && Enabled(w, HearClaim(CLAIM, []))
      && Next(w, HearClaim(CLAIM, [])) == Later(P.INITIAL, AGENT, IDLE_STREAM, map[], map[], map[])
  {
    HeardScene();
    hide Heard, StartIn;
  }

  lemma StepConnectOther()
    ensures var w := Later(P.INITIAL, AGENT, IDLE_STREAM, map[], map[], map[]);
      && Enabled(w, Connect(OTHER))
      && Next(w, Connect(OTHER))
         == Later(P.INITIAL, AGENT, IDLE_STREAM, map[OTHER := Caller(None, map[], false)], map[], map[])
  {
    var w := Later(P.INITIAL, AGENT, IDLE_STREAM, map[], map[], map[]);
    assert w.sessions[OTHER := Caller(None, map[], false)] == w.sessions + map[OTHER := Caller(None, map[], false)];
  }

  /** The agent registers on the second connection, and the first one loses it. */
  lemma StepMoveAway()
    ensures var w := Later(P.INITIAL, AGENT, IDLE_STREAM, map[OTHER := Caller(None, map[], false)], map[], map[]);
      && Enabled(w, Bind(OTHER, AGENT, None))
      && Next(w, Bind(OTHER, AGENT, None))
         == Later(P.INITIAL, None, IDLE_STREAM, map[OTHER := Caller(AGENT, map[], false)], map[], map[])
  {
    var w := Later(P.INITIAL, AGENT, IDLE_STREAM, map[OTHER := Caller(None, map[], false)], map[], map[]);
    assert Rebound(w.sessions, OTHER, AGENT)
      == map[CALLER := Caller(None, map[STREAM := IDLE_STREAM], false), OTHER := Caller(AGENT, map[], false)];
  }

  /** Then a task is enqueued and announced to the first connection. */
  function Announced(core: P.System, stream: CommandStream, notices: map<NoticeId, Notice>,
                     posted: map<PostId, SessionId>): (w: System)
  {
    Later(core, None, stream, map[OTHER := Caller(AGENT, map[], false)], notices, posted)
  }

  lemma StepEnqueue(task: Task)
    ensures var w := Announced(P.INITIAL, IDLE_STREAM, map[], map[]);
      && Enabled(w, Core(P.Enqueue(task), TOLD))
      && Next(w, Core(P.Enqueue(task), TOLD))
         == Announced(P.Next(P.INITIAL, P.Enqueue(task)), IDLE_STREAM, map[TOLD := Notice.Unread], map[])
  {
    var none: map<NoticeId, Notice> := map[];
    assert none[TOLD := Notice.Unread] == map[TOLD := Notice.Unread];
  }

  lemma StepCopy(core: P.System)
    ensures var w := Announced(core, IDLE_STREAM, map[TOLD := Notice.Unread], map[]);
      && Enabled(w, Copy(TOLD))
      && Next(w, Copy(TOLD)) == Announced(core, IDLE_STREAM, map[TOLD := Posting({CALLER, OTHER})], map[])
  {
    var w := Announced(core, IDLE_STREAM, map[TOLD := Notice.Unread], map[]);
    var todo := set sid | sid in w.sessions && Live(w, sid);
    assert todo == {CALLER, OTHER};
    assert w.notices[TOLD := Posting(todo)] == map[TOLD := Posting({CALLER, OTHER})];
  }

  lemma StepPost(core: P.System)
    ensures var w := Announced(core, IDLE_STREAM, map[TOLD := Posting({CALLER, OTHER})], map[]);
      && Enabled(w, Post(TOLD, CALLER, MESSAGE))
      && Next(w, Post(TOLD, CALLER, MESSAGE))
         == Announced(core, IDLE_STREAM, map[TOLD := Posting({OTHER})], map[MESSAGE := CALLER])
  {
    var w := Announced(core, IDLE_STREAM, map[TOLD := Posting({CALLER, OTHER})], map[]);
    assert {CALLER, OTHER} - {CALLER} == {OTHER};
    assert w.notices[TOLD := Posting({OTHER})] == map[TOLD := Posting({OTHER})];
    assert w.posted[MESSAGE := CALLER] == map[MESSAGE := CALLER];
  }

  lemma StepHearNotice(core: P.System)
    ensures var w := Announced(core, IDLE_STREAM, map[TOLD := Posting({OTHER})], map[MESSAGE := CALLER]);
      && Enabled(w, HearNotice(MESSAGE))
      && Next(w, HearNotice(MESSAGE)) == Announced(core, READY_STREAM, map[TOLD := Posting({OTHER})], map[])
  {
    var w := Announced(core, IDLE_STREAM, map[TOLD := Posting({OTHER})], map[MESSAGE := CALLER]);
    assert w.posted - {MESSAGE} == map[];
    var s := Caller(None, map[STREAM := READY_STREAM], false);
    assert QueueChanged(w.sessions[CALLER]) == s by {
      assert QueueChanged(w.sessions[CALLER]).streams == map[STREAM := READY_STREAM];
    }
    assert w.sessions[CALLER := s] == map[CALLER := s] + map[OTHER := Caller(AGENT, map[], false)];
  }

  /** The agent comes back to the first connection with an event of a stream that goes on. */
  lemma StepMoveBack(core: P.System)
    ensures var w := Announced(core, READY_STREAM, map[TOLD := Posting({OTHER})], map[]);
      && Enabled(w, Bind(CALLER, AGENT, None))
      && Next(w, Bind(CALLER, AGENT, None))
         == Later(core, AGENT, READY_STREAM, map[OTHER := Caller(None, map[], false)], map[TOLD := Posting({OTHER})],
             map[])
  {
    var w := Announced(core, READY_STREAM, map[TOLD := Posting({OTHER})], map[]);
    assert Rebound(w.sessions, CALLER, AGENT)
      == map[CALLER := Caller(AGENT, map[STREAM := READY_STREAM], false), OTHER := Caller(None, map[], false)];
  }

  lemma BackIsQuiet(core: P.System)
    requires core.jobs == map[]
    ensures AllQuiet(Later(core, AGENT, READY_STREAM, map[OTHER := Caller(None, map[], false)],
                           map[TOLD := Posting({OTHER})], map[]))
  {
    hide AnyClaimable;
    var w := Later(core, AGENT, READY_STREAM, map[OTHER := Caller(None, map[], false)], map[TOLD := Posting({OTHER})],
        map[]);
    assert !Owed(w, CALLER);
  }

  /** A connection greets, registers an agent and is answered. */
  const REGISTER_STEPS: seq<Step> :=
    [Connect(CALLER), Output(CALLER), Wrote(CALLER), Bind(CALLER, AGENT, Some(MESSAGE)), HearReply(MESSAGE)]

  /** It opens a command stream, and the response is written. */
  const OPEN_STEPS: seq<Step> := [Wrote(CALLER), OpenStream(CALLER, STREAM), Output(CALLER), Wrote(CALLER)]

  /** The first claim finds nothing, and the agent moves to a second connection. */
  const MOVE_STEPS: seq<Step> :=
    [Execute(CLAIM, None, TOLD), HearClaim(CLAIM, []), Connect(OTHER), Bind(OTHER, AGENT, None)]

  /** A task is enqueued and announced to the first connection. */
  function AnnounceSteps(task: Task): (steps: seq<Step>) {
    [Core(P.Enqueue(task), TOLD), Copy(TOLD), Post(TOLD, CALLER, MESSAGE), HearNotice(MESSAGE)]
  }

  /** And the agent comes back. */
  function SleepingRun(task: Task): (steps: seq<Step>) {
    REGISTER_STEPS + OPEN_STEPS + MOVE_STEPS + AnnounceSteps(task) + [Bind(CALLER, AGENT, None)]
  }

  lemma RunToRegistered()
    ensures Run(REGISTER_STEPS) == Early(Caller(AGENT, map[], true), 0, map[])
  {
    StepConnect();
    StepEarlyOutput();
    StepEarlyWrote(None);
    StepRegister();
    StepReply();
    var steps: seq<Step> := [];
    assert Run(steps) == INITIAL;
    hide Enabled, Next, Run, Early, Caller;
    RunStep(steps, Connect(CALLER));
    steps := steps + [Connect(CALLER)];
    RunStep(steps, Output(CALLER));
    steps := steps + [Output(CALLER)];
    RunStep(steps, Wrote(CALLER));
    steps := steps + [Wrote(CALLER)];
    RunStep(steps, Bind(CALLER, AGENT, Some(MESSAGE)));
    steps := steps + [Bind(CALLER, AGENT, Some(MESSAGE))];
    RunStep(steps, HearReply(MESSAGE));
    assert steps + [HearReply(MESSAGE)] == REGISTER_STEPS;
  }

  lemma RunToOpen()
    ensures Run(REGISTER_STEPS + OPEN_STEPS) == Claiming(false, 3, InQueue("agent", 0))
  {
    RunToRegistered();
    StepEarlyWrote(AGENT);
    StepOpen();
    StepOutput();
    StepWrote();
    hide Enabled, Next, Run, Early, Caller, Claiming;
    var steps := REGISTER_STEPS;
    RunStep(steps, Wrote(CALLER));
    steps := steps + [Wrote(CALLER)];
    RunStep(steps, OpenStream(CALLER, STREAM));
    steps := steps + [OpenStream(CALLER, STREAM)];
    RunStep(steps, Output(CALLER));
    steps := steps + [Output(CALLER)];
    RunStep(steps, Wrote(CALLER));
    assert steps + [Wrote(CALLER)] == REGISTER_STEPS + OPEN_STEPS;
  }

  lemma RunToMoved()
    ensures Run(REGISTER_STEPS + OPEN_STEPS + MOVE_STEPS) == Announced(P.INITIAL, IDLE_STREAM, map[], map[])
  {
    RunToOpen();
    StepExecute();
    StepHearClaim();
    StepConnectOther();
    StepMoveAway();
    hide Enabled, Next, Run, Claiming, Later;
    var steps := REGISTER_STEPS + OPEN_STEPS;
    RunStep(steps, Execute(CLAIM, None, TOLD));
    steps := steps + [Execute(CLAIM, None, TOLD)];
    RunStep(steps, HearClaim(CLAIM, []));
    steps := steps + [HearClaim(CLAIM, [])];
    RunStep(steps, Connect(OTHER));
    steps := steps + [Connect(OTHER)];
    RunStep(steps, Bind(OTHER, AGENT, None));
    assert steps + [Bind(OTHER, AGENT, None)] == REGISTER_STEPS + OPEN_STEPS + MOVE_STEPS;
  }

  /** From where the task is enqueued to where the notification was heard. */
  lemma RunAnnounce(steps: seq<Step>, task: Task)
    requires Run(steps) == Announced(P.INITIAL, IDLE_STREAM, map[], map[])
    ensures Run(steps + AnnounceSteps(task))
      == Announced(P.Next(P.INITIAL, P.Enqueue(task)), READY_STREAM, map[TOLD := Posting({OTHER})], map[])
  {
    var core := P.Next(P.INITIAL, P.Enqueue(task));
    var enqueue := Core(P.Enqueue(task), TOLD);
    StepEnqueue(task);
    hide Enabled, Next, Run, Announced, P.Next;
    RunStep(steps, enqueue);
    RunCopied(steps + [enqueue], core);
    assert steps + [enqueue] + [Copy(TOLD), Post(TOLD, CALLER, MESSAGE), HearNotice(MESSAGE)]
      == steps + AnnounceSteps(task);
  }

  lemma RunCopied(steps: seq<Step>, core: P.System)
    requires Run(steps) == Announced(core, IDLE_STREAM, map[TOLD := Notice.Unread], map[])
    ensures Run(steps + [Copy(TOLD), Post(TOLD, CALLER, MESSAGE), HearNotice(MESSAGE)])
      == Announced(core, READY_STREAM, map[TOLD := Posting({OTHER})], map[])
  {
    StepCopy(core);
    StepPost(core);
    StepHearNotice(core);
    hide Enabled, Next, Run, Announced;
    RunStep(steps, Copy(TOLD));
    var copied := steps + [Copy(TOLD)];
    RunStep(copied, Post(TOLD, CALLER, MESSAGE));
    var posted := copied + [Post(TOLD, CALLER, MESSAGE)];
    RunStep(posted, HearNotice(MESSAGE));
    assert posted + [HearNotice(MESSAGE)] == steps + [Copy(TOLD), Post(TOLD, CALLER, MESSAGE), HearNotice(MESSAGE)];
  }

  lemma RunToBack(task: Task)
    ensures Run(SleepingRun(task))
      == Later(P.Next(P.INITIAL, P.Enqueue(task)), AGENT, READY_STREAM, map[OTHER := Caller(None, map[], false)],
               map[TOLD := Posting({OTHER})], map[])
  {
    RunToMoved();
    RunAnnounce(REGISTER_STEPS + OPEN_STEPS + MOVE_STEPS, task);
    StepMoveBack(P.Next(P.INITIAL, P.Enqueue(task)));
    hide Enabled, Next, Run, Later, Announced, P.Next;
    RunStep(REGISTER_STEPS + OPEN_STEPS + MOVE_STEPS + AnnounceSteps(task), Bind(CALLER, AGENT, None));
  }

  /** In this run the agent is bound at the end and has a claimable task, and
      whatever is delivered, its stream does not ask for it. */
  lemma SleepingRunIsLost(task: Task)
    requires task.agentId == "agent" && task.expiresAt > 0
    ensures Lost(Run(SleepingRun(task)), CALLER, STREAM)
  {
    var core := P.Next(P.INITIAL, P.Enqueue(task));
    RunToBack(task);
    assert Claimable(core.store, task.taskId, "agent", 0);
    BackIsQuiet(core);
    var w := Run(SleepingRun(task));
    assert Open(w, CALLER, STREAM) && w.sessions[CALLER].agent == AGENT && NoneFailed(w, CALLER);
    hide Run, AllQuiet, SleepingRun, P.Next;
    LostExactly(SleepingRun(task), CALLER, STREAM);
  }
}
