/**
 What it means for a wake-up to be lost: whatever is under way anywhere in the
 system is delivered, in any order, and still the stream never asks for the
 task its agent has. Quiet states are of this kind.
 */
module CommandQuiet {
  import opened Prelude
  import opened ServerStore
  import opened CommandSession
  import opened CommandSystem
  import opened CommandWakeUp
  import opened CommandStranding
  import FrameCodec
  import P = TaskProtocol

  // ------------------------------------------------------- lost wake-ups

  /** Steps that bring what is already under way: a claim executes or its
      completion is heard, a notification travels, a checked event is written or
      an event chunk answered, output is read or its write completes. Nothing
      new arrives, and no claim fails. */
  predicate Delivers(step: Step) {
    || step.Execute? || step.HearClaim? || step.Copy? || step.Post? || step.Drop? || step.HearNotice?
    || step.HearReply? || step.ReadSome? || step.Wrote? || (step.Core? && step.step.WriteJob?)
  }

  predicate Delivered(steps: seq<Step>) { forall step :: step in steps ==> Delivers(step) }

  ghost function RunFrom(w: System, steps: seq<Step>): (r: System)
    decreases |steps|
  {
    if steps == [] then w
    else RunFrom(if Enabled(w, steps[0]) then Next(w, steps[0]) else w, steps[1..])
  }

  ghost predicate Asking(w: System, sid: SessionId, k: StreamId, agentId: string) {
    exists t :: t in w.claims && For(t, sid, k) && w.claims[t].InQueue? && w.claims[t].agentId == agentId
  }

  /** The stream asks for the agent, or its session is over and the agent has to
      connect again. */
  ghost predicate Woken(w: System, sid: SessionId, k: StreamId, agentId: string) {
    !Live(w, sid) || Asking(w, sid, k, agentId)
  }

  ghost predicate CanWake(w: System, sid: SessionId, k: StreamId, agentId: string) {
    exists more: seq<Step> :: Delivered(more) && Woken(RunFrom(w, more), sid, k, agentId)
  }

  /** The bound agent has a claimable task, and no deliveries make the stream ask for it. */
  ghost predicate Lost(w: System, sid: SessionId, k: StreamId) {
    && Open(w, sid, k)
    && w.sessions[sid].agent.Some?
    && AnyClaimable(w.core.store, w.sessions[sid].agent.value, w.now)
    && !CanWake(w, sid, k, w.sessions[sid].agent.value)
  }

  // ------------------------------------------------------- quiet states

  ghost predicate FailedClaim(w: System, sid: SessionId, k: StreamId) {
    exists t :: t in w.claims && For(t, sid, k) && w.claims[t].Broken?
  }

  ghost predicate NoneFailed(w: System, sid: SessionId) {
    forall t :: t in w.claims && t.session == sid && Open(w, sid, t.stream) ==> !w.claims[t].Broken?
  }

  predicate Unanswered(w: System, sid: SessionId) { forall m :: m in w.replies ==> w.replies[m] != sid }

  /** The stream could serve a claimable task of the agent its connection is bound to. */
  ghost predicate HasWork(w: System, sid: SessionId, k: StreamId) {
    && Open(w, sid, k)
    && w.sessions[sid].agent.Some?
    && AnyClaimable(w.core.store, w.sessions[sid].agent.value, w.now)
    && !FailedClaim(w, sid, k)
  }

  /** Nothing is owed to the session and no command is being sent; a claim found
      or can find nothing and has no refresh behind it; and if the stream is
      stranded, no write completion or answer is to come. */
  ghost predicate Settled(w: System, sid: SessionId, k: StreamId)
    requires Open(w, sid, k)
  {
    var c := w.sessions[sid].streams[k];
    && !Owed(w, sid)
    && !c.dataInFlight
    && (forall t :: t in w.claims && For(t, sid, k) ==>
          !c.refreshPending && (w.claims[t].InQueue? || w.claims[t] == Done(None)))
    && (Startable(c) ==> !w.sessions[sid].writing && Unanswered(w, sid))
  }

  /** A checked result that will still be written. */
  predicate Reporting(core: P.System, job: nat) {
    job in core.jobs && core.jobs[job].ResultJob? && ResultRecorded(core.store, core.jobs[job].result).Committed?
  }

  /** No result is about to be written, no claim in the queue will find a task,
      and every stream that could serve one is settled. Every hand-out and every
      result notifies every session, so a wake-up anywhere is one everywhere. */
  ghost predicate AllQuiet(w: System) {
    && (forall job :: !Reporting(w.core, job))
    && (forall t :: t in w.claims && w.claims[t].InQueue? ==>
          !AnyClaimable(w.core.store, w.claims[t].agentId, w.claims[t].at))
    && (forall sid, k :: HasWork(w, sid, k) ==> Settled(w, sid, k))
  }

  // ------------------------------------------------------- quiet states stay quiet

  /** A write that does not notify leaves claimable tasks claimable. */
  lemma SilentKeeps(core: P.System, p: P.Step, id: string, agentId: string, now: int)
    requires p.WriteJob? && P.Enabled(core, p) && !Notifies(core, p) && Claimable(core.store, id, agentId, now)
    ensures Claimable(P.Next(core, p).store, id, agentId, now)
  {
    assert P.Next(core, p) == P.Finish(core, p.job, p.audited);
  }

  lemma SilentSame(core: P.System, p: P.Step, agentId: string, now: int)
    requires p.WriteJob? && P.Enabled(core, p) && !Notifies(core, p)
    ensures AnyClaimable(P.Next(core, p).store, agentId, now) <==> AnyClaimable(core.store, agentId, now)
  {
    if AnyClaimable(P.Next(core, p).store, agentId, now) {
      SilentShrinksAny(core, p, agentId, now);
    }
    if id :| Claimable(core.store, id, agentId, now) {
      SilentKeeps(core, p, id, agentId, now);
    }
  }

  lemma SilentReports(core: P.System, p: P.Step, job: nat)
    requires p.WriteJob? && P.Enabled(core, p) && !Notifies(core, p) && Reporting(P.Next(core, p), job)
    ensures Reporting(core, job)
  {
    assert P.Next(core, p) == P.Finish(core, p.job, p.audited);
  }

  lemma QuietJob(w: System, p: P.Step, n: NoticeId)
    requires AllQuiet(w) && Enabled(w, Core(p, n)) && p.WriteJob?
    ensures !Notifies(w.core, p) && AllQuiet(Next(w, Core(p, n)))
  {
    assert !Reporting(w.core, p.job);
    var w' := Next(w, Core(p, n));
    assert w' == w.(core := w'.core);
    forall job ensures !Reporting(w'.core, job) {
      if Reporting(w'.core, job) {
        SilentReports(w.core, p, job);
      }
    }
    hide Next, AnyClaimable, Notifies, P.Next, P.Enabled;
    forall t | t in w'.claims && w'.claims[t].InQueue?
      ensures !AnyClaimable(w'.core.store, w'.claims[t].agentId, w'.claims[t].at)
    {
      SilentSame(w.core, p, w.claims[t].agentId, w.claims[t].at);
    }
    forall sid, k | HasWork(w', sid, k) ensures Settled(w', sid, k) {
      SilentSame(w.core, p, w.sessions[sid].agent.value, w.now);
      assert HasWork(w, sid, k) && Settled(w, sid, k);
    }
  }

  lemma SameFailed(w: System, w': System, t: Ticket, sid: SessionId, k: StreamId)
    requires t in w.claims && w.claims[t].InQueue? && w'.claims == w.claims[t := Done(None)]
    ensures FailedClaim(w', sid, k) <==> FailedClaim(w, sid, k)
  {
    if u :| u in w.claims && For(u, sid, k) && w.claims[u].Broken? {
      assert u in w'.claims && w'.claims[u].Broken?;
    }
  }

  lemma QuietExecute(w: System, t: Ticket, choice: Option<string>, n: NoticeId)
    requires AllQuiet(w) && Enabled(w, Execute(t, choice, n))
    ensures choice.None? && AllQuiet(Next(w, Execute(t, choice, n)))
  {
    var w' := Next(w, Execute(t, choice, n));
    assert w' == w.(claims := w.claims[t := Done(None)]);
    hide Next, AnyClaimable;
    forall sid, k | HasWork(w', sid, k) ensures Settled(w', sid, k) {
      SameFailed(w, w', t, sid, k);
      assert HasWork(w, sid, k) && Settled(w, sid, k);
    }
  }

  /** Copying, posting and finishing a notification owe nothing to anyone new. */
  lemma OwedBack(w: System, step: Step, sid: SessionId)
    requires Enabled(w, step) && (step.Copy? || step.Post? || step.Drop?) && Owed(Next(w, step), sid)
    ensures Owed(w, sid)
  {
    var w' := Next(w, step);
    if m :| m in w'.posted && w'.posted[m] == sid {
      if !(m in w.posted && w.posted[m] == sid) {
        assert step.Post? && step.session == sid && step.notice in w.notices && sid in w.notices[step.notice].todo;
      }
    } else {
      var n :| n in w'.notices && (w'.notices[n].Unread? || sid in w'.notices[n].todo);
      assert n in w.notices && (w.notices[n].Unread? || sid in w.notices[n].todo);
    }
  }

  lemma QuietNotice(w: System, step: Step)
    requires AllQuiet(w) && Enabled(w, step) && (step.Copy? || step.Post? || step.Drop?)
    ensures AllQuiet(Next(w, step))
  {
    var w' := Next(w, step);
    assert w' == w.(notices := w'.notices, posted := w'.posted);
    forall sid, k | HasWork(w', sid, k) ensures Settled(w', sid, k) {
      assert HasWork(w, sid, k) && Settled(w, sid, k);
      if Owed(w', sid) {
        OwedBack(w, step, sid);
      }
    }
  }

  lemma OwedSame(w: System, w': System, sid: SessionId)
    requires w'.posted == w.posted && w'.notices == w.notices
    ensures Owed(w', sid) <==> Owed(w, sid)
  {
  }

  lemma QuietReply(w: System, m: PostId)
    requires AllQuiet(w) && Enabled(w, HearReply(m))
    ensures AllQuiet(Next(w, HearReply(m)))
  {
    var w' := Replied(w, m);
    hide AnyClaimable, Owed, FailedClaim;
    forall sid, k | HasWork(w', sid, k) ensures Settled(w', sid, k) {
      assert FailedClaim(w', sid, k) <==> FailedClaim(w, sid, k);
      assert HasWork(w, sid, k) && Settled(w, sid, k);
      OwedSame(w, w', sid);
    }
  }

  /** Starting claims where no stream that could serve a task is ready for one. */
  lemma QuietStart(w: System, sid: SessionId)
    requires Flags(w) && AllQuiet(w) && sid in w.sessions
    requires forall k :: HasWork(w, sid, k) ==> !Startable(w.sessions[sid].streams[k])
    ensures AllQuiet(StartIn(w, sid))
  {
    var w', s := StartIn(w, sid), w.sessions[sid];
    hide AnyClaimable, TryStart, AskedBy;
    forall t | t in w'.claims && w'.claims[t].InQueue?
      ensures !AnyClaimable(w'.core.store, w'.claims[t].agentId, w'.claims[t].at)
    {
      if t !in w.claims {
        StartedHasWork(w, sid, t.stream);
      }
    }
    forall sid', k | HasWork(w', sid', k) ensures Settled(w', sid', k) {
      QuietStartStream(w, sid, sid', k);
    }
  }

  lemma StartedHasWork(w: System, sid: SessionId, k: StreamId)
    requires Flags(w) && sid in w.sessions && k in Started(w.sessions[sid])
    ensures Open(w, sid, k) && Startable(w.sessions[sid].streams[k])
    ensures AnyClaimable(w.core.store, w.sessions[sid].agent.value, w.now) ==> HasWork(w, sid, k)
  {
    assert Open(w, sid, k) && FlagsHonest(w, sid, k);
  }

  lemma QuietStartStream(w: System, sid: SessionId, sid': SessionId, k: StreamId)
    requires Flags(w) && AllQuiet(w) && sid in w.sessions && HasWork(StartIn(w, sid), sid', k)
    requires forall k :: HasWork(w, sid, k) ==> !Startable(w.sessions[sid].streams[k])
    ensures Settled(StartIn(w, sid), sid', k)
  {
    var w' := StartIn(w, sid);
    assert w' == w.(sessions := w'.sessions, claims := w'.claims, serial := w'.serial, asked := w'.asked);
    hide AnyClaimable, StartIn;
    if sid' == sid && k in Started(w.sessions[sid]) {
      StartedHasWork(w, sid, k);
      StartKeepsAgent(w, sid);
      assert false;
    }
    StartPassesBy(w, sid, sid', k);
    SameSettled(w, w', sid', k);
  }

  lemma StartKeepsAgent(w: System, sid: SessionId)
    requires sid in w.sessions
    ensures sid in StartIn(w, sid).sessions && StartIn(w, sid).sessions[sid].agent == w.sessions[sid].agent
  {
  }

  /** What a stream's being settled depends on. */
  lemma SameSettled(w: System, w': System, sid: SessionId, k: StreamId)
    requires AllQuiet(w) && HasWork(w', sid, k) && Open(w, sid, k)
    requires w'.core == w.core && w'.now == w.now && w'.replies == w.replies
    requires w'.posted == w.posted && w'.notices == w.notices
    requires w'.sessions[sid].streams[k] == w.sessions[sid].streams[k]
    requires w'.sessions[sid].agent == w.sessions[sid].agent && w'.sessions[sid].writing == w.sessions[sid].writing
    requires forall t :: For(t, sid, k) ==>
      (t in w'.claims <==> t in w.claims) && (t in w.claims ==> w'.claims[t] == w.claims[t])
    ensures Settled(w', sid, k)
  {
    hide AnyClaimable;
    assert HasWork(w, sid, k) && Settled(w, sid, k);
    OwedSame(w, w', sid);
  }

  lemma OwedHasNoWork(w: System, sid: SessionId, k: StreamId)
    requires AllQuiet(w) && Owed(w, sid)
    ensures !HasWork(w, sid, k)
  {
  }

  lemma SendingHasNoWork(w: System, sid: SessionId, k: StreamId)
    requires Flags(w) && AllQuiet(w) && Open(w, sid, k) && w.sessions[sid].streams[k].body != []
    ensures forall k' :: !HasWork(w, sid, k')
  {
    hide AnyClaimable;
    assert FlagsHonest(w, sid, k);
    assert !FailedClaim(w, sid, k);
    assert !HasWork(w, sid, k);
  }

  /** An empty claim with a refresh behind it: its connection's agent has no task. */
  lemma RefreshedHasNoTask(w: System, t: Ticket)
    requires Flags(w) && AllQuiet(w) && t in w.claims && HeardStarts(w, t) && w.sessions[t.session].agent.Some?
    ensures !AnyClaimable(w.core.store, w.sessions[t.session].agent.value, w.now)
  {
    hide AnyClaimable;
    assert FlagsHonest(w, t.session, t.stream) && For(t, t.session, t.stream);
    assert !FailedClaim(w, t.session, t.stream);
    assert !HasWork(w, t.session, t.stream);
  }

  lemma QuietHearNotice(w: System, m: PostId)
    requires Flags(w) && AllQuiet(w) && Enabled(w, HearNotice(m))
    ensures AllQuiet(Next(w, HearNotice(m)))
  {
    hide AnyClaimable, StartIn;
    var sid := w.posted[m];
    if Live(w, sid) {
      var mid := Notified(w, m);
      forall k ensures !HasWork(mid, sid, k) {
        assert Owed(w, sid);
        OwedHasNoWork(w, sid, k);
        assert FailedClaim(w, sid, k) <==> FailedClaim(mid, sid, k);
      }
      QuietUnposted(w, mid, m);
      FlagsNotified(w, m);
      QuietStart(mid, sid);
    } else {
      QuietUnposted(w, w.(posted := w.posted - {m}), m);
    }
  }

  lemma QuietUnposted(w: System, w': System, m: PostId)
    requires AllQuiet(w) && m in w.posted
    requires w' == w.(sessions := w'.sessions, posted := w.posted - {m})
    requires forall sid, k :: HasWork(w', sid, k) ==>
      sid in w.sessions && w'.sessions[sid] == w.sessions[sid]
    ensures AllQuiet(w')
  {
    hide AnyClaimable;
    forall sid, k | HasWork(w', sid, k) ensures Settled(w', sid, k) {
      assert HasWork(w, sid, k) && Settled(w, sid, k);
    }
  }

  lemma QuietRead(w: System, sid: SessionId, k: StreamId, n: nat)
    requires Flags(w) && AllQuiet(w) && Enabled(w, ReadSome(sid, k, n))
    ensures AllQuiet(Next(w, ReadSome(sid, k, n)))
  {
    hide AnyClaimable, Flags, Settled;
    var w' := ReadOn(w, sid, k, n);
    SendingHasNoWork(w, sid, k);
    forall sid', k' | HasWork(w', sid', k') ensures Settled(w', sid', k') {
      assert FailedClaim(w', sid', k') <==> FailedClaim(w, sid', k');
      assert HasWork(w, sid', k') && sid' != sid;
      hide HasWork;
      SettledElsewhere(w, w', sid', k');
    }
  }

  lemma SettledElsewhere(w: System, w': System, sid: SessionId, k: StreamId)
    requires Open(w, sid, k) && Settled(w, sid, k) && Open(w', sid, k) && w'.sessions[sid] == w.sessions[sid]
    requires w'.claims == w.claims && w'.posted == w.posted && w'.notices == w.notices && w'.replies == w.replies
    ensures Settled(w', sid, k)
  {
    OwedSame(w, w', sid);
  }

  /** The write sent no command of a session whose streams are settled. */
  lemma SentSettled(w: System, sid: SessionId, sid': SessionId, k: StreamId)
    requires Flags(w) && AllQuiet(w) && Enabled(w, Wrote(sid)) && HasWork(SentOut(w, sid), sid', k)
    ensures Settled(SentOut(w, sid), sid', k)
    ensures sid' == sid ==> !Startable(SentOut(w, sid).sessions[sid].streams[k])
  {
    hide AnyClaimable, FinalizeSent;
    var w' := SentOut(w, sid);
    assert w' == w.(sessions := w'.sessions);
    assert HasWork(w, sid', k) && Settled(w, sid', k);
    assert w'.sessions[sid'].streams[k] == w.sessions[sid'].streams[k];
    hide SentOut;
    OwedSame(w, w', sid');
  }

  lemma QuietWrote(w: System, sid: SessionId)
    requires Flags(w) && AllQuiet(w) && Enabled(w, Wrote(sid))
    ensures AllQuiet(Next(w, Wrote(sid)))
  {
    hide AnyClaimable, StartIn, Settled;
    var mid := SentOut(w, sid);
    forall sid', k | HasWork(mid, sid', k)
      ensures Settled(mid, sid', k) && (sid' == sid ==> !Startable(mid.sessions[sid].streams[k]))
    {
      SentSettled(w, sid, sid', k);
    }
    FlagsSent(w, sid);
    if Live(w, sid) {
      QuietStart(mid, sid);
    }
  }

  lemma QuietHeard(w: System, t: Ticket, payload: Bytes)
    requires Flags(w) && AllQuiet(w) && Enabled(w, HearClaim(t, payload))
    ensures AllQuiet(Heard(w, t, payload))
    ensures HeardStarts(w, t) ==> forall k :: !HasWork(Heard(w, t, payload), t.session, k)
  {
    var w' := Heard(w, t, payload);
    hide AnyClaimable, Settled, Flags, FrameCodec.Frame, HeardLogs;
    if HeardStarts(w, t) && w.sessions[t.session].agent.Some? {
      RefreshedHasNoTask(w, t);
    }
    forall sid, k | HasWork(w', sid, k) ensures Settled(w', sid, k) {
      QuietHeardStream(w, t, payload, sid, k);
    }
  }

  /** Another stream's claim is heard: this one is as before. */
  lemma HeardElsewhere(w: System, t: Ticket, payload: Bytes, sid: SessionId, k: StreamId)
    requires Flags(w) && Enabled(w, HearClaim(t, payload)) && Open(Heard(w, t, payload), sid, k) && !For(t, sid, k)
    ensures var w' := Heard(w, t, payload);
      && Open(w, sid, k) && w'.sessions[sid] == w.sessions[sid].(streams := w'.sessions[sid].streams)
      && w'.sessions[sid].streams[k] == w.sessions[sid].streams[k]
      && (forall u :: For(u, sid, k) ==>
            (u in w'.claims <==> u in w.claims) && (u in w.claims ==> w'.claims[u] == w.claims[u]))
  {
    hide FrameCodec.Frame, HeardLogs;
  }

  /** The settled stream's own claim was empty, with no refresh behind it. */
  lemma QuietHeardOwn(w: System, t: Ticket, payload: Bytes)
    requires Flags(w) && AllQuiet(w) && Enabled(w, HearClaim(t, payload))
    requires HasWork(Heard(w, t, payload), t.session, t.stream)
    ensures Settled(Heard(w, t, payload), t.session, t.stream)
  {
    hide AnyClaimable, FrameCodec.Frame, HeardLogs, Owed;
    var w', sid, k := Heard(w, t, payload), t.session, t.stream;
    assert Open(w, sid, k) && FlagsHonest(w, sid, k) && For(t, sid, k);
    assert HasWork(w, sid, k) && Settled(w, sid, k);
    OwedSame(w, w', sid);
  }

  lemma QuietHeardStream(w: System, t: Ticket, payload: Bytes, sid: SessionId, k: StreamId)
    requires Flags(w) && AllQuiet(w) && Enabled(w, HearClaim(t, payload)) && HasWork(Heard(w, t, payload), sid, k)
    ensures Settled(Heard(w, t, payload), sid, k)
  {
    hide AnyClaimable, Settled, FrameCodec.Frame, HeardLogs;
    var w' := Heard(w, t, payload);
    assert w' == w.(claims := w'.claims, sessions := w'.sessions, logs := w'.logs);
    if For(t, sid, k) {
      QuietHeardOwn(w, t, payload);
    } else {
      HeardElsewhere(w, t, payload, sid, k);
      hide Heard, Flags;
      SameSettled(w, w', sid, k);
    }
  }

  lemma QuietNext(w: System, step: Step)
    requires Flags(w) && AllQuiet(w) && Enabled(w, step) && Delivers(step)
    ensures AllQuiet(Next(w, step))
  {
    match step
    case Execute(t, choice, n) => QuietExecute(w, t, choice, n);
    case HearClaim(t, payload) =>
      QuietHeard(w, t, payload);
      if HeardStarts(w, t) {
        FlagsHeard(w, t, payload);
        QuietStart(Heard(w, t, payload), t.session);
      }
    case Copy(_) => QuietNotice(w, step);
    case Post(_, _, _) => QuietNotice(w, step);
    case Drop(_) => QuietNotice(w, step);
    case HearNotice(m) => QuietHearNotice(w, m);
    case HearReply(m) => QuietReply(w, m);
    case ReadSome(sid, k, n) => QuietRead(w, sid, k, n);
    case Wrote(sid) => QuietWrote(w, sid);
    case Core(p, n) => QuietJob(w, p, n);
  }

  // ------------------------------------------------------- quiet states have lost the wake-up

  /** The stream is open, none of its session's claims failed, and this is its agent. */
  ghost predicate Sound(w: System, sid: SessionId, k: StreamId, agent: Option<string>) {
    Open(w, sid, k) && NoneFailed(w, sid) && w.sessions[sid].agent == agent
  }

  lemma SoundStart(w: System, s: SessionId, sid: SessionId, k: StreamId, agent: Option<string>)
    requires s in w.sessions && Sound(w, sid, k, agent)
    ensures Sound(StartIn(w, s), sid, k, agent)
  {
    hide TryStart, Startable, AskedBy;
  }

  lemma SoundHeard(w: System, t: Ticket, payload: Bytes, sid: SessionId, k: StreamId, agent: Option<string>)
    requires Enabled(w, HearClaim(t, payload)) && Sound(w, sid, k, agent)
    ensures Sound(Heard(w, t, payload), sid, k, agent)
  {
    hide FrameCodec.Frame, HeardLogs;
    assert For(t, t.session, t.stream);
  }

  /** The session may be replaced by one with the same streams, and claims may change phase. */
  lemma SoundKept(w: System, w': System, sid: SessionId, k: StreamId, agent: Option<string>)
    requires Sound(w, sid, k, agent) && sid in w'.sessions
    requires !w'.sessions[sid].closed && w'.sessions[sid].streams.Keys == w.sessions[sid].streams.Keys
    requires w'.sessions[sid].agent == w.sessions[sid].agent
    requires forall t :: t in w'.claims && w'.claims[t].Broken? ==> t in w.claims && w.claims[t].Broken?
    ensures Sound(w', sid, k, agent)
  {
  }

  lemma SoundElsewhere(w: System, step: Step, sid: SessionId, k: StreamId, agent: Option<string>)
    requires Enabled(w, step) && Delivers(step) && Sound(w, sid, k, agent)
    requires !step.HearNotice? && !step.HearClaim? && !step.Wrote?
    ensures Sound(Next(w, step), sid, k, agent)
  {
    hide P.Next, P.Enabled, FirstClaimable, Heard, StartIn, Joined;
    SoundKept(w, Next(w, step), sid, k, agent);
  }

  lemma SoundNext(w: System, step: Step, sid: SessionId, k: StreamId, agent: Option<string>)
    requires Enabled(w, step) && Delivers(step) && Sound(w, sid, k, agent)
    ensures Sound(Next(w, step), sid, k, agent)
  {
    hide StartIn, Heard;
    if step.HearNotice? {
      var s := w.posted[step.post];
      if Live(w, s) {
        SoundKept(w, Notified(w, step.post), sid, k, agent);
        SoundStart(Notified(w, step.post), s, sid, k, agent);
      }
    } else if step.HearClaim? {
      SoundHeard(w, step.ticket, step.payload, sid, k, agent);
      if HeardStarts(w, step.ticket) {
        SoundStart(Heard(w, step.ticket, step.payload), step.ticket.session, sid, k, agent);
      }
    } else if step.Wrote? {
      SoundKept(w, SentOut(w, step.session), sid, k, agent);
      if Live(w, step.session) {
        SoundStart(SentOut(w, step.session), step.session, sid, k, agent);
      }
    } else {
      SoundElsewhere(w, step, sid, k, agent);
    }
  }

  lemma StartSameCore(w: System, sid: SessionId)
    requires sid in w.sessions
    ensures StartIn(w, sid).core == w.core && StartIn(w, sid).now == w.now
  {
  }

  /** Deliveries take no time, and only executed claims and written results touch the store. */
  lemma DeliverySameCore(w: System, step: Step)
    requires Enabled(w, step) && Delivers(step)
    ensures Next(w, step).now == w.now && (!step.Execute? && !step.Core? ==> Next(w, step).core == w.core)
  {
    hide StartIn, P.Next, P.Enabled, FirstClaimable, HeardStarts, Joined, BoundTo;
    if step.HearNotice? {
      if Live(w, w.posted[step.post]) {
        StartSameCore(Notified(w, step.post), w.posted[step.post]);
      }
    } else if step.HearClaim? {
      if HeardStarts(w, step.ticket) {
        HeardStartsLive(w, step.ticket);
        StartSameCore(Heard(w, step.ticket, step.payload), step.ticket.session);
      }
    } else if step.Wrote? {
      StartSameCore(SentOut(w, step.session), step.session);
    }
  }

  lemma HeardStartsLive(w: System, t: Ticket)
    requires t in w.claims && HeardStarts(w, t)
    ensures t.session in w.sessions
  {
  }

  lemma QuietKeepsTasks(w: System, step: Step, agentId: string)
    requires AllQuiet(w) && Enabled(w, step) && Delivers(step) && AnyClaimable(w.core.store, agentId, w.now)
    ensures AnyClaimable(Next(w, step).core.store, agentId, Next(w, step).now)
  {
    DeliverySameCore(w, step);
    if step.Core? {
      QuietJob(w, step.step, step.notice);
      SilentSame(w.core, step.step, agentId, w.now);
    } else if step.Execute? {
      QuietExecute(w, step.ticket, step.choice, step.notice);
    }
  }

  /** A stream in a quiet state does not ask for an agent with a claimable task:
      such a claim would find it. */
  lemma QuietNotAsking(w: System, sid: SessionId, k: StreamId, agentId: string)
    requires AllAwake(w) && AllQuiet(w) && Open(w, sid, k) && AnyClaimable(w.core.store, agentId, w.now)
    ensures !Asking(w, sid, k, agentId)
  {
    assert Awake(w, sid, k);
    if t :| t in w.claims && For(t, sid, k) && w.claims[t].InQueue? && w.claims[t].agentId == agentId {
      EarlierClaimable(w.core.store, agentId, w.claims[t].at, w.now);
    }
  }

  /** Deliveries from a quiet state never make the stream ask for its agent, nor
      end its session, and lead to quiet states only. */
  lemma {:induction false} QuietIsNeverWoken(w: System, more: seq<Step>, sid: SessionId, k: StreamId, agentId: string)
    requires WakeInv(w) && AllQuiet(w) && Sound(w, sid, k, Some(agentId))
    requires AnyClaimable(w.core.store, agentId, w.now) && Delivered(more)
    ensures AllQuiet(RunFrom(w, more)) && !Woken(RunFrom(w, more), sid, k, agentId)
    decreases |more|
  {
    if more == [] {
      QuietNotAsking(w, sid, k, agentId);
    } else {
      hide AllQuiet, WakeInv, Enabled, Next, Delivers, AnyClaimable, Woken, Sound;
      var step := more[0];
      if Enabled(w, step) {
        WakeNext(w, step);
        assert Flags(w) by { WakeInvFlags(w); }
        QuietNext(w, step);
        SoundNext(w, step, sid, k, Some(agentId));
        QuietKeepsTasks(w, step, agentId);
        QuietIsNeverWoken(Next(w, step), more[1..], sid, k, agentId);
      } else {
        QuietIsNeverWoken(w, more[1..], sid, k, agentId);
      }
    }
  }

  lemma WakeInvFlags(w: System)
    requires WakeInv(w)
    ensures Flags(w)
  {
  }
}
