/**
 From the task table to the bytes an agent receives. The step system joins the
 store protocol with the claims waiting for the write actor or for delivery,
 the queue-change notifications on their way to the sessions, and the sessions
 themselves. Every session callback is one step; commits, posts, claim
 executions, reads and write completions interleave freely.
 */
module CommandSystem {
  import opened Prelude
  import opened ServerStore
  import opened CommandSession
  import FrameCodec
  import P = TaskProtocol

  datatype SessionId = SessionId(number: nat)
  datatype NoticeId = NoticeId(number: nat)
  datatype PostId = PostId(number: nat)

  /** One submitted claim; `serial` keeps claims of the same stream apart. */
  datatype Ticket = Ticket(session: SessionId, stream: StreamId, serial: nat)

  datatype Phase = InQueue(agentId: string, at: int) | Done(task: Option<string>) | Broken

  /** A call of NotifyTaskQueueChanged: before it copied the observers, then
      with the sessions it has yet to post to. */
  datatype Notice = Unread | Posting(todo: set<SessionId>)

  datatype StreamKey = StreamKey(session: SessionId, stream: StreamId)

  datatype Delivery = Delivery(taskId: string, payload: Bytes)

  /** What the session has read from a stream, and the commands put on it. */
  datatype Log = Log(read: Bytes, commands: seq<Delivery>)

  datatype Hand = Hand(key: StreamKey, taskId: string)

  /** `replies` are the completions of event chunks that will answer their stream,
      `asked` is the agent the latest claim of a stream was submitted for. */
  datatype System = System(
    core: P.System,
    now: int,
    sessions: map<SessionId, Session>,
    claims: map<Ticket, Phase>,
    serial: nat,
    notices: map<NoticeId, Notice>,
    posted: map<PostId, SessionId>,
    replies: map<PostId, SessionId>,
    logs: map<StreamKey, Log>,
    handed: seq<Hand>,
    asked: map<StreamKey, string>)

  datatype Step =
    | Core(step: P.Step, notice: NoticeId)
    | Tick(seconds: nat)
    | Connect(session: SessionId)
    | Bind(session: SessionId, agent: Option<string>, reply: Option<PostId>)
    | Shut(session: SessionId)
    | OpenStream(session: SessionId, stream: StreamId)
    | CloseStream(session: SessionId, stream: StreamId)
    | Execute(ticket: Ticket, choice: Option<string>, notice: NoticeId)
    | Break(ticket: Ticket)
    | Copy(notice: NoticeId)
    | Post(notice: NoticeId, session: SessionId, post: PostId)
    | Drop(notice: NoticeId)
    | HearNotice(post: PostId)
    | HearReply(post: PostId)
    | HearClaim(ticket: Ticket, payload: Bytes)
    | ReadSome(session: SessionId, stream: StreamId, count: nat)
    | Output(session: SessionId)
    | Wrote(session: SessionId)

  predicate Live(w: System, sid: SessionId) {
    sid in w.sessions && !w.sessions[sid].closed
  }

  predicate Open(w: System, sid: SessionId, k: StreamId) {
    Live(w, sid) && k in w.sessions[sid].streams
  }

  /** Writes that end in NotifyTaskQueueChanged, when they commit. */
  predicate Notifies(s: P.System, step: P.Step) {
    match step
    case Enqueue(task) => InsertTask(s.store, task, None).Committed?
    case Upgrade(agentId, version, packageId, setBy, at, expiresAt, taskId, prerequisiteId) =>
      P.UpgradeWrite(s.store, agentId, version, packageId, setBy, at, expiresAt, taskId, prerequisiteId).Committed?
    case Rollback(agentId, setBy, at, expiresAt, taskId, job) =>
      P.UpgradeWrite(s.store, agentId, "", "", setBy, at, expiresAt, taskId, None).Committed?
    case WriteJob(job, _) =>
      job in s.jobs && s.jobs[job].ResultJob? && ResultRecorded(s.store, s.jobs[job].result).Committed?
    case _ => false
  }

  ghost predicate Enabled(w: System, step: Step) {
    match step
    case Core(p, n) => !p.ClaimNext? && P.Enabled(w.core, p) && n !in w.notices
    case Tick(_) => true
    case Connect(sid) => sid !in w.sessions
    case Bind(sid, agent, reply) =>
      Live(w, sid) && (reply.Some? ==> agent.Some? && reply.value !in w.replies)
    case Shut(sid) => Live(w, sid)
    case OpenStream(sid, k) => Live(w, sid) && StreamKey(sid, k) !in w.logs
    case CloseStream(sid, k) => Open(w, sid, k)
    case Execute(t, choice, n) =>
      t in w.claims && w.claims[t].InQueue? && n !in w.notices
      && FirstClaimable(w.core.store, choice, w.claims[t].agentId, w.claims[t].at)
    case Break(t) => t in w.claims && w.claims[t].InQueue?
    case Copy(n) => n in w.notices && w.notices[n].Unread?
    case Post(n, sid, m) => n in w.notices && w.notices[n].Posting? && sid in w.notices[n].todo && m !in w.posted
    case Drop(n) => n in w.notices && w.notices[n] == Posting({})
    case HearNotice(m) => m in w.posted
    case HearReply(m) => m in w.replies
    case HearClaim(t, payload) => t in w.claims && !w.claims[t].InQueue? && |payload| <= U32_MAX
    case ReadSome(sid, k, n) =>
      Open(w, sid, k) && n > 0 && w.sessions[sid].streams[k].offset + n <= |w.sessions[sid].streams[k].body|
    case Output(sid) => Live(w, sid)
    case Wrote(sid) => sid in w.sessions && w.sessions[sid].writing
  }

  function WithSession(w: System, sid: SessionId, s: Session): (r: System) {
    w.(sessions := w.sessions[sid := s])
  }

  /** An event binds its connection, and drops the one its agent had before. */
  function Rebound(sessions: map<SessionId, Session>, sid: SessionId, agent: Option<string>)
    : (r: map<SessionId, Session>)
    requires sid in sessions
    ensures r.Keys == sessions.Keys && r[sid].agent == agent
    ensures forall s :: s in sessions ==> r[s] == sessions[s].(agent := r[s].agent)
  {
    map s | s in sessions ::
      if s == sid then sessions[s].(agent := agent)
      else if agent.Some? && sessions[s].agent == agent then sessions[s].(agent := None)
      else sessions[s]
  }

  /** Submitting the claims of TryStartQueuedCommands. */
  function NewTickets(sid: SessionId, started: set<StreamId>, serial: nat): (r: set<Ticket>) {
    set k | k in started :: Ticket(sid, k, serial)
  }

  function Submitted(tickets: set<Ticket>, agentId: string, now: int): (r: map<Ticket, Phase>) {
    map t | t in tickets :: InQueue(agentId, now)
  }

  function AskedBy(sid: SessionId, started: set<StreamId>, agentId: string): (r: map<StreamKey, string>) {
    var keys := set k | k in started :: StreamKey(sid, k);
    map key | key in keys :: agentId
  }

  function StartIn(w: System, sid: SessionId): (r: System)
    requires sid in w.sessions
  {
    var s := w.sessions[sid];
    if s.agent.None? then w
    else
      w.(
        sessions := w.sessions[sid := TryStart(s)],
        claims := w.claims + Submitted(NewTickets(sid, Started(s), w.serial), s.agent.value, w.now),
        serial := w.serial + 1,
        asked := w.asked + AskedBy(sid, Started(s), s.agent.value))
  }

  function ToAnswer(phase: Phase, payload: Bytes): (r: Answer)
    requires !phase.InQueue? && |payload| <= U32_MAX
  {
    match phase
    case Broken => ClaimError
    case Done(None) => NoTask
    case Done(Some(_)) => Command(FrameCodec.Frame(payload))
  }

  /** A claim completion before anything is started: the ticket is used up, and
      a delivered task is noted in the stream's log. */
  function Heard(w: System, t: Ticket, payload: Bytes): (r: System)
    requires t in w.claims && !w.claims[t].InQueue? && |payload| <= U32_MAX
    ensures r.sessions.Keys == w.sessions.Keys
  {
    w.(claims := w.claims - {t},
       sessions :=
         if Open(w, t.session, t.stream) then
           w.sessions[t.session := Answered(w.sessions[t.session], t.stream, ToAnswer(w.claims[t], payload))]
         else w.sessions,
       logs := HeardLogs(w, t, payload))
  }

  function HeardLogs(w: System, t: Ticket, payload: Bytes): (r: map<StreamKey, Log>)
    requires t in w.claims
    ensures r.Keys == w.logs.Keys
    ensures forall key :: key in w.logs && key != StreamKey(t.session, t.stream) ==> r[key] == w.logs[key]
  {
    var key := StreamKey(t.session, t.stream);
    if Open(w, t.session, t.stream) && key in w.logs && w.claims[t].Done? && w.claims[t].task.Some? then
      w.logs[key := w.logs[key].(commands := w.logs[key].commands + [Delivery(w.claims[t].task.value, payload)])]
    else w.logs
  }

  function HeardStarts(w: System, t: Ticket): (r: bool)
    requires t in w.claims
  {
    Open(w, t.session, t.stream) && w.claims[t] == Done(None) && w.sessions[t.session].streams[t.stream].refreshPending
  }

  // What each step leaves; where a callback goes on to start claims, the state before that.

  ghost function Stored(w: System, p: P.Step, n: NoticeId): (r: System)
    requires P.Enabled(w.core, p)
  {
    w.(core := P.Next(w.core, p), notices := if Notifies(w.core, p) then w.notices[n := Unread] else w.notices)
  }

  ghost function Executed(w: System, t: Ticket, choice: Option<string>, n: NoticeId): (r: System)
    requires Enabled(w, Execute(t, choice, n))
  {
    w.(core := P.Next(w.core, P.ClaimNext(w.claims[t].agentId, w.claims[t].at, choice)),
       claims := w.claims[t := Done(choice)],
       notices := if choice.Some? then w.notices[n := Unread] else w.notices,
       handed := if choice.Some? then w.handed + [Hand(StreamKey(t.session, t.stream), choice.value)] else w.handed)
  }

  function BoundTo(w: System, sid: SessionId, agent: Option<string>, reply: Option<PostId>): (r: System)
    requires sid in w.sessions
  {
    w.(sessions := Rebound(w.sessions, sid, agent),
       replies := if reply.Some? then w.replies[reply.value := sid] else w.replies)
  }

  function Joined(w: System, sid: SessionId, k: StreamId): (r: System)
    requires sid in w.sessions
  {
    w.(sessions := w.sessions[sid := Opened(w.sessions[sid], k)], logs := w.logs[StreamKey(sid, k) := Log([], [])])
  }

  function Notified(w: System, m: PostId): (r: System)
    requires m in w.posted && Live(w, w.posted[m])
    ensures w.posted[m] in r.sessions
  {
    w.(sessions := w.sessions[w.posted[m] := QueueChanged(w.sessions[w.posted[m]])], posted := w.posted - {m})
  }

  function Replied(w: System, m: PostId): (r: System)
    requires m in w.replies
  {
    var sid := w.replies[m];
    w.(sessions := if Live(w, sid) then w.sessions[sid := Flushed(w.sessions[sid])] else w.sessions,
       replies := w.replies - {m})
  }

  function ReadOn(w: System, sid: SessionId, k: StreamId, n: nat): (r: System)
    requires Open(w, sid, k) && w.sessions[sid].streams[k].offset + n <= |w.sessions[sid].streams[k].body|
  {
    var c, key := w.sessions[sid].streams[k], StreamKey(sid, k);
    w.(sessions := w.sessions[sid := ReadBytes(w.sessions[sid], k, n)],
       logs :=
         if key !in w.logs then w.logs
         else w.logs[key := w.logs[key].(read := w.logs[key].read + c.body[c.offset..c.offset + n])])
  }

  function SentOut(w: System, sid: SessionId): (r: System)
    requires sid in w.sessions
    ensures sid in r.sessions
  {
    WithSession(w, sid, Written(w.sessions[sid]))
  }

  ghost function Next(w: System, step: Step): (r: System)
    requires Enabled(w, step)
  {
    match step
    case Core(p, n) => Stored(w, p, n)
    case Tick(seconds) => w.(now := w.now + seconds)
    case Connect(sid) => WithSession(w, sid, Session(false, None, map[], false, 0))
    case Bind(sid, agent, reply) => BoundTo(w, sid, agent, reply)
    case Shut(sid) => WithSession(w, sid, w.sessions[sid].(closed := true))
    case OpenStream(sid, k) => if w.sessions[sid].agent.None? then w else StartIn(Joined(w, sid, k), sid)
    case CloseStream(sid, k) => WithSession(w, sid, w.sessions[sid].(streams := w.sessions[sid].streams - {k}))
    case Execute(t, choice, n) => Executed(w, t, choice, n)
    case Break(t) => w.(claims := w.claims[t := Broken])
    case Copy(n) => w.(notices := w.notices[n := Posting(set sid | sid in w.sessions && Live(w, sid))])
    case Post(n, sid, m) =>
      w.(notices := w.notices[n := Posting(w.notices[n].todo - {sid})], posted := w.posted[m := sid])
    case Drop(n) => w.(notices := w.notices - {n})
    case HearNotice(m) =>
      if Live(w, w.posted[m]) then StartIn(Notified(w, m), w.posted[m]) else w.(posted := w.posted - {m})
    case HearReply(m) => Replied(w, m)
    case HearClaim(t, payload) =>
      if HeardStarts(w, t) then StartIn(Heard(w, t, payload), t.session) else Heard(w, t, payload)
    case ReadSome(sid, k, n) => ReadOn(w, sid, k, n)
    case Output(sid) => WithSession(w, sid, Flushed(w.sessions[sid]))
    case Wrote(sid) => if w.sessions[sid].closed then SentOut(w, sid) else StartIn(SentOut(w, sid), sid)
  }

  const INITIAL: System := System(P.INITIAL, 0, map[], map[], 0, map[], map[], map[], map[], [], map[])

  ghost function Run(steps: seq<Step>): (w: System)
    decreases |steps|
  {
    if steps == [] then INITIAL
    else
      var w, step := Run(steps[..|steps| - 1]), steps[|steps| - 1];
      if Enabled(w, step) then Next(w, step) else w
  }

  // ------------------------------------------------------- one claim at a time

  predicate For(t: Ticket, sid: SessionId, k: StreamId) { t.session == sid && t.stream == k }

  /** The flags of a stream mean what they say: the claim flag stands for one
      ticket, the data flag for a body not yet given up, never both. */
  ghost predicate FlagsHonest(w: System, sid: SessionId, k: StreamId)
    requires Open(w, sid, k)
  {
    var c := w.sessions[sid].streams[k];
    && (c.claimInFlight <==> exists t :: t in w.claims && For(t, sid, k))
    && (forall t, u :: t in w.claims && u in w.claims && For(t, sid, k) && For(u, sid, k) ==> t == u)
    && (c.dataInFlight <==> c.body != [])
    && c.offset <= |c.body|
    && !(c.claimInFlight && c.dataInFlight)
    && (FullyRead(c) ==> w.sessions[sid].writing)
    && StreamKey(sid, k) in w.logs
  }

  ghost predicate Flags(w: System) {
    && (forall t :: t in w.claims ==> t.serial < w.serial)
    && (forall t :: t in w.claims ==> StreamKey(t.session, t.stream) in w.logs)
    && (forall sid :: Live(w, sid) ==> (w.sessions[sid].writing <==> w.sessions[sid].pendingWrites > 0))
    && (forall sid, k :: Open(w, sid, k) ==> FlagsHonest(w, sid, k))
  }

  /** The session of a stream is the only thing about sessions its flags read. */
  lemma FlagsFrame(w: System, w': System, sid: SessionId, k: StreamId)
    requires Open(w, sid, k) && FlagsHonest(w, sid, k)
    requires Open(w', sid, k) && w'.sessions[sid].streams[k] == w.sessions[sid].streams[k]
    requires w.sessions[sid].writing ==> w'.sessions[sid].writing
    requires forall t :: For(t, sid, k) ==> (t in w.claims <==> t in w'.claims)
    requires w.logs.Keys <= w'.logs.Keys
    ensures FlagsHonest(w', sid, k)
  {
  }

  lemma SubmittedElsewhere(w: System, sid: SessionId, started: set<StreamId>, agentId: string, t: Ticket)
    requires !(t.session == sid && t.stream in started)
    ensures t !in Submitted(NewTickets(sid, started, w.serial), agentId, w.now)
    ensures StreamKey(t.session, t.stream) !in AskedBy(sid, started, agentId)
  {
  }

  /** A start of claims does not reach a stream that was not ready. */
  lemma StartPassesBy(w: System, sid: SessionId, sid': SessionId, k: StreamId)
    requires sid in w.sessions && (Open(w, sid', k) || Open(StartIn(w, sid), sid', k))
    requires !(sid' == sid && k in Started(w.sessions[sid]))
    ensures var w' := StartIn(w, sid);
      && w' == w.(sessions := w'.sessions, claims := w'.claims, serial := w'.serial, asked := w'.asked)
      && Open(w, sid', k) && Open(w', sid', k)
      && w'.sessions[sid'] == w.sessions[sid'].(streams := w'.sessions[sid'].streams)
      && w'.sessions[sid'].streams[k] == w.sessions[sid'].streams[k]
      && (forall t :: For(t, sid', k) ==>
            (t in w'.claims <==> t in w.claims) && (t in w.claims ==> w'.claims[t] == w.claims[t]))
      && (StreamKey(sid', k) in w.asked ==>
            StreamKey(sid', k) in w'.asked && w'.asked[StreamKey(sid', k)] == w.asked[StreamKey(sid', k)])
  {
    hide TryStart, Startable, Started, Submitted, NewTickets, AskedBy;
    var s := w.sessions[sid];
    if s.agent.Some? {
      forall t | For(t, sid', k)
        ensures t !in Submitted(NewTickets(sid, Started(s), w.serial), s.agent.value, w.now)
      {
        SubmittedElsewhere(w, sid, Started(s), s.agent.value, t);
      }
      SubmittedElsewhere(w, sid, Started(s), s.agent.value, Ticket(sid', k, 0));
      var w' := StartIn(w, sid);
      assert w' == w.(sessions := w.sessions[sid := TryStart(s)], claims := w'.claims, serial := w'.serial,
          asked := w'.asked);
      assert w'.claims == w.claims + Submitted(NewTickets(sid, Started(s), w.serial), s.agent.value, w.now);
      assert w'.asked == w.asked + AskedBy(sid, Started(s), s.agent.value);
      hide StartIn;
    }
  }

  lemma FlagsStarted(w: System, sid: SessionId, k: StreamId)
    requires Flags(w) && sid in w.sessions && k in Started(w.sessions[sid])
    ensures Open(StartIn(w, sid), sid, k) && FlagsHonest(StartIn(w, sid), sid, k)
  {
    hide TryStart, AskedBy;
    var w' := StartIn(w, sid);
    assert Open(w, sid, k) && FlagsHonest(w, sid, k);
    var t := Ticket(sid, k, w.serial);
    assert t in w'.claims && For(t, sid, k);
  }

  lemma FlagsNotStarted(w: System, sid: SessionId, sid': SessionId, k: StreamId)
    requires Flags(w) && sid in w.sessions && Open(StartIn(w, sid), sid', k)
    requires !(sid' == sid && k in Started(w.sessions[sid]))
    ensures FlagsHonest(StartIn(w, sid), sid', k)
  {
    StartPassesBy(w, sid, sid', k);
    hide StartIn, FlagsHonest, Flags;
    assert Open(w, sid', k) && FlagsHonest(w, sid', k) by { FlagsOf(w, sid', k); }
    FlagsFrame(w, StartIn(w, sid), sid', k);
  }

  lemma FlagsOf(w: System, sid: SessionId, k: StreamId)
    requires Flags(w) && Open(w, sid, k)
    ensures FlagsHonest(w, sid, k)
  {
  }

  lemma StartWrites(w: System, sid: SessionId)
    requires sid in w.sessions
    ensures var w' := StartIn(w, sid);
      && w'.logs == w.logs
      && (forall s :: Live(w', s) ==>
            Live(w, s) && w'.sessions[s].writing == w.sessions[s].writing
            && w'.sessions[s].pendingWrites == w.sessions[s].pendingWrites)
      && (forall s, k :: Open(w', s, k) ==> Open(w, s, k))
  {
    hide Startable, Started, Submitted, AskedBy;
  }

  lemma FlagsStart(w: System, sid: SessionId)
    requires Flags(w) && sid in w.sessions
    ensures Flags(StartIn(w, sid))
  {
    hide FlagsHonest, Startable, TryStart, AskedBy;
    var w' := StartIn(w, sid);
    StartWrites(w, sid);
    forall t | t in w'.claims
      ensures t.serial < w'.serial && StreamKey(t.session, t.stream) in w'.logs
    {
      if t !in w.claims {
        StartedLogged(w, sid, t.stream);
      }
    }
    forall sid', k | Open(w', sid', k) ensures FlagsHonest(w', sid', k) {
      if sid' == sid && k in Started(w.sessions[sid]) {
        FlagsStarted(w, sid, k);
      } else {
        FlagsNotStarted(w, sid, sid', k);
      }
    }
  }

  lemma StartedLogged(w: System, sid: SessionId, k: StreamId)
    requires Flags(w) && sid in w.sessions && k in Started(w.sessions[sid])
    ensures StreamKey(sid, k) in w.logs
  {
    assert Open(w, sid, k);
  }

  /** Replacing one session by a version whose streams are as honest. */
  lemma FlagsReplace(w: System, w': System, sid: SessionId)
    requires Flags(w) && sid in w.sessions && sid in w'.sessions
    requires w'.sessions == w.sessions[sid := w'.sessions[sid]]
    requires w'.claims == w.claims && w'.serial == w.serial && w.logs.Keys <= w'.logs.Keys
    requires !w'.sessions[sid].closed ==> !w.sessions[sid].closed
    requires !w'.sessions[sid].closed ==> (w'.sessions[sid].writing <==> w'.sessions[sid].pendingWrites > 0)
    requires forall k :: Open(w', sid, k) ==> FlagsHonest(w', sid, k)
    ensures Flags(w')
  {
    forall sid', k | Open(w', sid', k) ensures FlagsHonest(w', sid', k) {
      if sid' != sid {
        FlagsFrame(w, w', sid', k);
      }
    }
  }

  lemma FlagsNotified(w: System, m: PostId)
    requires Flags(w) && m in w.posted && Live(w, w.posted[m])
    ensures Flags(Notified(w, m))
  {
    var w', sid := Notified(w, m), w.posted[m];
    forall k | Open(w', sid, k) ensures FlagsHonest(w', sid, k) {
      assert FlagsHonest(w, sid, k);
    }
    FlagsReplace(w, w', sid);
  }

  lemma FlagsJoined(w: System, sid: SessionId, k: StreamId)
    requires Flags(w) && Live(w, sid) && w.sessions[sid].agent.Some? && StreamKey(sid, k) !in w.logs
    ensures Flags(Joined(w, sid, k))
  {
    var w' := Joined(w, sid, k);
    forall k' | Open(w', sid, k') ensures FlagsHonest(w', sid, k') {
      if k' == k {
        assert forall t :: t in w.claims ==> !For(t, sid, k);
      } else {
        FlagsFrame(w, w', sid, k');
      }
    }
    FlagsReplace(w, w', sid);
  }

  lemma FlagsSent(w: System, sid: SessionId)
    requires Flags(w) && sid in w.sessions
    ensures Flags(SentOut(w, sid))
  {
    var w' := SentOut(w, sid);
    forall k | Open(w', sid, k) ensures FlagsHonest(w', sid, k) {
      assert FlagsHonest(w, sid, k);
    }
    FlagsReplace(w, w', sid);
  }

  lemma FlagsRead(w: System, sid: SessionId, k: StreamId, n: nat)
    requires Flags(w) && Enabled(w, ReadSome(sid, k, n))
    ensures Flags(ReadOn(w, sid, k, n))
  {
    var w' := ReadOn(w, sid, k, n);
    forall k' | Open(w', sid, k') ensures FlagsHonest(w', sid, k') {
      assert FlagsHonest(w, sid, k');
    }
    FlagsReplace(w, w', sid);
  }

  lemma FlagsHeardStream(w: System, t: Ticket, payload: Bytes)
    requires Flags(w) && Enabled(w, HearClaim(t, payload)) && Open(w, t.session, t.stream)
    ensures Open(Heard(w, t, payload), t.session, t.stream) ==> FlagsHonest(Heard(w, t, payload), t.session, t.stream)
  {
    assert |FrameCodec.Frame(payload)| >= 4;
    hide FrameCodec.Frame, HeardLogs, Startable;
    assert FlagsHonest(w, t.session, t.stream);
    assert For(t, t.session, t.stream);
    assert forall u :: u in Heard(w, t, payload).claims ==> !For(u, t.session, t.stream);
  }

  lemma FlagsHeard(w: System, t: Ticket, payload: Bytes)
    requires Flags(w) && Enabled(w, HearClaim(t, payload))
    ensures Flags(Heard(w, t, payload))
  {
    hide FlagsHonest, ToAnswer, HeardLogs;
    var w' := Heard(w, t, payload);
    if Open(w, t.session, t.stream) {
      FlagsHeardStream(w, t, payload);
      forall sid, k | Open(w', sid, k) ensures FlagsHonest(w', sid, k) {
        if !For(t, sid, k) {
          FlagsFrame(w, w', sid, k);
        }
      }
    } else {
      forall sid, k | Open(w', sid, k) ensures FlagsHonest(w', sid, k) {
        FlagsFrame(w, w', sid, k);
      }
    }
  }

  /** Steps that leave every stream of a session that stays open as it is. */
  predicate LeavesStreams(step: Step) {
    step.Connect? || step.Bind? || step.Shut? || step.CloseStream? || step.Output? || step.HearReply?
  }

  /** Steps outside the sessions. */
  predicate LeavesSessions(step: Step) {
    step.Core? || step.Tick? || step.Execute? || step.Break? || step.Copy? || step.Post? || step.Drop?
  }

  /** Only sessions and replies change, and streams that stay open do not. */
  ghost predicate SameStreams(w: System, w': System) {
    && w' == w.(sessions := w'.sessions, replies := w'.replies)
    && (forall sid, k :: Open(w', sid, k) ==>
          && Open(w, sid, k)
          && w'.sessions[sid].streams[k] == w.sessions[sid].streams[k]
          && (w.sessions[sid].writing ==> w'.sessions[sid].writing))
    && (forall sid :: Live(w', sid) ==>
          || (Live(w, sid) && w'.sessions[sid].writing == w.sessions[sid].writing
              && w'.sessions[sid].pendingWrites == w.sessions[sid].pendingWrites)
          || (w'.sessions[sid].writing <==> w'.sessions[sid].pendingWrites > 0))
  }

  lemma SameReplaced(w: System, sid: SessionId, s: Session)
    requires !s.closed ==>
      || (s.writing <==> s.pendingWrites > 0)
      || (Live(w, sid) && s.writing == w.sessions[sid].writing && s.pendingWrites == w.sessions[sid].pendingWrites)
    requires !s.closed && s.streams != map[] ==>
      && Live(w, sid) && s.streams.Keys <= w.sessions[sid].streams.Keys
      && (forall k :: k in s.streams ==> s.streams[k] == w.sessions[sid].streams[k])
      && (w.sessions[sid].writing ==> s.writing)
    ensures SameStreams(w, WithSession(w, sid, s))
  {
  }

  lemma StreamsLeft(w: System, step: Step)
    requires Enabled(w, step) && LeavesStreams(step)
    ensures SameStreams(w, Next(w, step))
  {
    if step.Bind? || step.HearReply? {
      hide StartIn, P.Next, P.Enabled, Heard, Joined, SentOut, ReadOn, Notified, Executed, Stored;
    } else {
      hide SameStreams, WithSession;
      var sid := step.session;
      match step
      case Connect(_) => SameReplaced(w, sid, Session(false, None, map[], false, 0));
      case Shut(_) => SameReplaced(w, sid, w.sessions[sid].(closed := true));
      case CloseStream(_, k) =>
        SameReplaced(w, sid, w.sessions[sid].(streams := w.sessions[sid].streams - {k}));
      case Output(_) => SameReplaced(w, sid, Flushed(w.sessions[sid]));
    }
  }

  lemma SessionsLeft(w: System, step: Step)
    requires Enabled(w, step) && LeavesSessions(step)
    ensures var w' := Next(w, step);
      && w' == w.(core := w'.core, now := w'.now, claims := w'.claims, notices := w'.notices, posted := w'.posted,
                  handed := w'.handed)
      && w'.claims.Keys == w.claims.Keys
  {
    hide StartIn, P.Next, P.Enabled, FirstClaimable, Heard, Joined, SentOut, ReadOn, Notified, BoundTo, Replied;
  }

  lemma ExecuteShape(w: System, t: Ticket, choice: Option<string>, n: NoticeId)
    requires Enabled(w, Execute(t, choice, n))
    ensures var w', p := Next(w, Execute(t, choice, n)), P.ClaimNext(w.claims[t].agentId, w.claims[t].at, choice);
      && P.Enabled(w.core, p) && !Notifies(w.core, p)
      && w' == w.(core := P.Next(w.core, p), claims := w.claims[t := Done(choice)], notices := w'.notices,
                  handed := w'.handed)
      && w'.handed == w.handed + (if choice.Some? then [Hand(StreamKey(t.session, t.stream), choice.value)] else [])
      && w'.core.claims ==
           w.core.claims + (if choice.Some? then [P.Claim(choice.value, w.claims[t].agentId, w.claims[t].at)] else [])
      && (forall x :: x in w.notices ==> x in w'.notices && w'.notices[x] == w.notices[x])
  {
    hide StartIn, FirstClaimable, ReadOn, SentOut, Joined, Heard, Claimed;
  }

  lemma FlagsSessionsLeft(w: System, w': System)
    requires Flags(w) && w'.sessions == w.sessions && w'.serial == w.serial && w'.logs == w.logs
    requires w'.claims.Keys == w.claims.Keys
    ensures Flags(w')
  {
    hide FlagsHonest;
    forall sid, k | Open(w', sid, k) ensures FlagsHonest(w', sid, k) {
      FlagsFrame(w, w', sid, k);
    }
  }

  lemma FlagsStreamsLeft(w: System, step: Step)
    requires Flags(w) && Enabled(w, step) && LeavesStreams(step)
    ensures Flags(Next(w, step))
  {
    StreamsLeft(w, step);
    hide FlagsHonest, Next;
    var w' := Next(w, step);
    forall sid, k | Open(w', sid, k) ensures FlagsHonest(w', sid, k) {
      FlagsFrame(w, w', sid, k);
    }
  }

  lemma FlagsNext(w: System, step: Step)
    requires Flags(w) && Enabled(w, step)
    ensures Flags(Next(w, step))
  {
    hide Flags, StartIn, Joined, Notified, Heard, SentOut, ReadOn;
    if LeavesStreams(step) {
      FlagsStreamsLeft(w, step);
    } else if LeavesSessions(step) {
      SessionsLeft(w, step);
      FlagsSessionsLeft(w, Next(w, step));
    } else {
      FlagsCallback(w, step);
    }
  }

  lemma FlagsCallback(w: System, step: Step)
    requires Flags(w) && Enabled(w, step) && !LeavesStreams(step) && !LeavesSessions(step)
    ensures Flags(Next(w, step))
  {
    hide Flags, StartIn, Notified, Heard, SentOut, ReadOn;
    match step
    case OpenStream(sid, k) =>
      if w.sessions[sid].agent.Some? {
        FlagsJoined(w, sid, k);
        FlagsStart(Joined(w, sid, k), sid);
      }
    case HearNotice(m) =>
      if Live(w, w.posted[m]) {
        FlagsNotified(w, m);
        FlagsStart(Notified(w, m), w.posted[m]);
      } else {
        FlagsSessionsLeft(w, w.(posted := w.posted - {m}));
      }
    case HearClaim(t, payload) =>
      FlagsHeard(w, t, payload);
      if HeardStarts(w, t) {
        FlagsStart(Heard(w, t, payload), t.session);
      }
    case ReadSome(sid, k, n) => FlagsRead(w, sid, k, n);
    case Wrote(sid) =>
      FlagsSent(w, sid);
      if Live(w, sid) {
        FlagsStart(SentOut(w, sid), sid);
      }
  }
}
