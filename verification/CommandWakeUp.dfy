/**
 No lost wake-up: a command stream whose agent has work is always waiting for
 something that is certain to come.
 */
module CommandWakeUp {
  import opened Prelude
  import opened ServerStore
  import opened CommandSession
  import opened CommandSystem
  import P = TaskProtocol

  // ------------------------------------------------------- no lost wake-up

  /** A notification is owed to the session: posted, or about to be. */
  ghost predicate Owed(w: System, sid: SessionId) {
    || (exists m :: m in w.posted && w.posted[m] == sid)
    || (exists n :: n in w.notices && (w.notices[n].Unread? || sid in w.notices[n].todo))
  }

  /** A claim of the stream that can still bring a task, or end the session. */
  ghost predicate Promising(w: System, sid: SessionId, k: StreamId) {
    exists t :: t in w.claims && For(t, sid, k) && w.claims[t] != Done(None)
  }

  ghost predicate Covered(w: System, sid: SessionId, k: StreamId)
    requires Open(w, sid, k)
  {
    w.sessions[sid].streams[k].refreshPending || w.sessions[sid].streams[k].dataInFlight
    || Promising(w, sid, k) || Owed(w, sid)
  }

  /** The claims of a stream were submitted at an earlier instant for the agent
      it asked for last, and the stream is covered if that agent has a claimable
      task. Nothing is said about the agent the session is bound to now. */
  ghost predicate Awake(w: System, sid: SessionId, k: StreamId)
    requires Open(w, sid, k)
  {
    var key := StreamKey(sid, k);
    && key in w.asked
    && (forall t :: t in w.claims && For(t, sid, k) && w.claims[t].InQueue? ==>
          w.claims[t].agentId == w.asked[key] && w.claims[t].at <= w.now)
    && (AnyClaimable(w.core.store, w.asked[key], w.now) ==> Covered(w, sid, k))
  }

  ghost predicate AllAwake(w: System) {
    forall sid, k :: Open(w, sid, k) ==> Awake(w, sid, k)
  }

  /** Awake but for the streams that a start of claims in `sid` will serve. */
  ghost predicate AwakeOrStarting(w: System, sid: SessionId) {
    forall sid', k :: Open(w, sid', k) ==>
      Awake(w, sid', k) || (sid' == sid && k in Started(w.sessions[sid]))
  }

  ghost predicate Shrinks(w: System, w': System, agentId: string) {
    AnyClaimable(w'.core.store, agentId, w'.now) ==> AnyClaimable(w.core.store, agentId, w.now)
  }

  lemma AwakeFrame(w: System, w': System, sid: SessionId, k: StreamId)
    requires Open(w, sid, k) && Open(w', sid, k) && Awake(w, sid, k)
    requires var key := StreamKey(sid, k); key in w'.asked && w'.asked[key] == w.asked[key]
    requires var c, c' := w.sessions[sid].streams[k], w'.sessions[sid].streams[k];
      (c.refreshPending || c.dataInFlight ==> c'.refreshPending || c'.dataInFlight)
    requires Shrinks(w, w', w.asked[StreamKey(sid, k)]) && w.now <= w'.now
    requires Owed(w, sid) ==> Owed(w', sid)
    requires forall t :: For(t, sid, k) && t in w'.claims ==> t in w.claims && w'.claims[t] == w.claims[t]
    requires forall t :: For(t, sid, k) && t in w.claims ==> t in w'.claims
    ensures Awake(w', sid, k)
  {
  }

  lemma AwakeStarted(w: System, sid: SessionId, k: StreamId)
    requires Flags(w) && sid in w.sessions && k in Started(w.sessions[sid])
    ensures Open(StartIn(w, sid), sid, k) && Awake(StartIn(w, sid), sid, k)
  {
    var w', agent := StartIn(w, sid), w.sessions[sid].agent.value;
    assert Open(w, sid, k) && FlagsHonest(w, sid, k);
    assert forall u :: u in w.claims ==> !For(u, sid, k);
    var t := Ticket(sid, k, w.serial);
    assert t in w'.claims && For(t, sid, k) && w'.claims[t] == InQueue(agent, w.now);
    assert StreamKey(sid, k) in AskedBy(sid, Started(w.sessions[sid]), agent);
    assert Promising(w', sid, k);
  }

  lemma AwakeNotStarted(w: System, sid: SessionId, sid': SessionId, k: StreamId)
    requires sid in w.sessions && Open(w, sid', k) && Awake(w, sid', k)
    requires !(sid' == sid && k in Started(w.sessions[sid]))
    ensures Open(StartIn(w, sid), sid', k) && Awake(StartIn(w, sid), sid', k)
  {
    StartPassesBy(w, sid, sid', k);
    hide StartIn, AnyClaimable;
    assert Owed(w, sid') ==> Owed(StartIn(w, sid), sid');
    AwakeFrame(w, StartIn(w, sid), sid', k);
  }

  lemma AwakeStart(w: System, sid: SessionId)
    requires Flags(w) && AwakeOrStarting(w, sid) && sid in w.sessions
    ensures AllAwake(StartIn(w, sid))
  {
    hide Awake, Started, FlagsHonest;
    var w' := StartIn(w, sid);
    forall sid', k | Open(w', sid', k) ensures Awake(w', sid', k) {
      assert Open(w, sid', k);
      if sid' == sid && k in Started(w.sessions[sid]) {
        AwakeStarted(w, sid, k);
      } else {
        AwakeNotStarted(w, sid, sid', k);
      }
    }
  }

  /** One session is replaced; its streams may only gain reasons to be awake. */
  lemma AwakeReplace(w: System, w': System, sid: SessionId)
    requires AllAwake(w) && sid in w.sessions && sid in w'.sessions
    requires w'.sessions == w.sessions[sid := w'.sessions[sid]]
    requires w'.core == w.core && w'.now == w.now && w'.claims == w.claims && w'.notices == w.notices
    requires w'.asked == w.asked
    requires forall other :: other != sid && Owed(w, other) ==> Owed(w', other)
    requires forall k :: Open(w', sid, k) ==> Awake(w', sid, k)
    ensures AllAwake(w')
  {
    forall sid', k | Open(w', sid', k) ensures Awake(w', sid', k) {
      if sid' != sid {
        assert Open(w, sid', k);
        AwakeFrame(w, w', sid', k);
      }
    }
  }

  lemma AwakeNotified(w: System, m: PostId)
    requires AllAwake(w) && m in w.posted && Live(w, w.posted[m])
    ensures AllAwake(Notified(w, m))
  {
    var sid := w.posted[m];
    var w' := Notified(w, m);
    forall other | other != sid && Owed(w, other) ensures Owed(w', other) {
      if x :| x in w.posted && w.posted[x] == other {
        assert x in w'.posted && w'.posted[x] == other;
      }
    }
    forall k | Open(w', sid, k) ensures Awake(w', sid, k) {
      assert Open(w, sid, k) && Awake(w, sid, k);
    }
    AwakeReplace(w, w', sid);
  }

  lemma AwakeJoined(w: System, sid: SessionId, k: StreamId)
    requires AllAwake(w) && Live(w, sid) && w.sessions[sid].agent.Some? && StreamKey(sid, k) !in w.logs
    ensures AwakeOrStarting(Joined(w, sid, k), sid)
  {
    var w' := Joined(w, sid, k);
    forall sid', k' | Open(w', sid', k')
      ensures Awake(w', sid', k') || (sid' == sid && k' in Started(w'.sessions[sid]))
    {
      if sid' != sid || k' != k {
        assert Open(w, sid', k');
        AwakeFrame(w, w', sid', k');
      }
    }
  }

  lemma AwakeSent(w: System, sid: SessionId)
    requires AllAwake(w) && sid in w.sessions
    ensures AllAwake(SentOut(w, sid))
  {
    var w' := SentOut(w, sid);
    forall k | Open(w', sid, k) ensures Awake(w', sid, k) {
      assert Open(w, sid, k);
      AwakeFrame(w, w', sid, k);
    }
    AwakeReplace(w, w', sid);
  }

  /** After a completion without a task the stream is covered by a refresh that
      came in meanwhile or by a notification still owed. */
  lemma AwakeHeardStream(w: System, t: Ticket, payload: Bytes)
    requires Flags(w) && Enabled(w, HearClaim(t, payload))
    requires Open(w, t.session, t.stream) && Awake(w, t.session, t.stream)
    ensures var w' := Heard(w, t, payload);
      Open(w', t.session, t.stream) ==> Awake(w', t.session, t.stream)
  {
    var w' := Heard(w, t, payload);
    var sid, k := t.session, t.stream;
    assert FlagsHonest(w, sid, k);
    assert For(t, sid, k);
    assert forall u :: u in w.claims && For(u, sid, k) ==> u == t;
    assert w'.posted == w.posted && w'.notices == w.notices;
    assert Owed(w, sid) ==> Owed(w', sid);
    if Open(w', sid, k) && w.claims[t] == Done(None) {
      assert !Promising(w, sid, k);
    }
  }

  lemma AwakeHeard(w: System, t: Ticket, payload: Bytes)
    requires Flags(w) && AllAwake(w) && Enabled(w, HearClaim(t, payload))
    ensures AllAwake(Heard(w, t, payload))
  {
    hide AnyClaimable, ToAnswer, Flags;
    var w' := Heard(w, t, payload);
    assert w'.posted == w.posted && w'.notices == w.notices && w'.core == w.core && w'.now == w.now
        && w'.asked == w.asked;
    forall sid, k | Open(w', sid, k) ensures Awake(w', sid, k) {
      assert Open(w, sid, k) && Awake(w, sid, k);
      if For(t, sid, k) {
        AwakeHeardStream(w, t, payload);
      } else {
        assert w'.sessions[sid].streams[k] == w.sessions[sid].streams[k];
        AwakeFrame(w, w', sid, k);
      }
    }
  }

  // ------------------------------------------------------- steps of the store and of time

  /** A write that does not notify makes no task claimable, nor does a claim. */
  lemma SilentShrinks(core: P.System, p: P.Step, id: string, agentId: string, now: int)
    requires P.Enabled(core, p) && !Notifies(core, p)
    requires Claimable(P.Next(core, p).store, id, agentId, now)
    ensures Claimable(core.store, id, agentId, now)
  {
    if p.WriteJob? {
      assert P.Finish(core, p.job, p.audited) == P.Next(core, p);
    }
  }

  lemma SilentShrinksAny(core: P.System, p: P.Step, agentId: string, now: int)
    requires P.Enabled(core, p) && !Notifies(core, p)
    requires AnyClaimable(P.Next(core, p).store, agentId, now)
    ensures AnyClaimable(core.store, agentId, now)
  {
    var id :| Claimable(P.Next(core, p).store, id, agentId, now);
    SilentShrinks(core, p, id, agentId, now);
  }

  /** A task claimable later was claimable earlier. */
  lemma EarlierClaimable(s: Store, agentId: string, at: int, now: int)
    requires at <= now && AnyClaimable(s, agentId, now)
    ensures AnyClaimable(s, agentId, at)
  {
    var id :| Claimable(s, id, agentId, now);
    assert Claimable(s, id, agentId, at);
  }

  lemma AwakeCore(w: System, p: P.Step, n: NoticeId)
    requires AllAwake(w) && Enabled(w, Core(p, n))
    ensures AllAwake(Next(w, Core(p, n)))
  {
    var w' := Next(w, Core(p, n));
    forall sid, k | Open(w', sid, k) ensures Awake(w', sid, k) {
      assert Open(w, sid, k) && Awake(w, sid, k);
      if Notifies(w.core, p) {
        assert n in w'.notices && w'.notices[n].Unread?;
        assert Owed(w', sid);
      } else {
        if AnyClaimable(w'.core.store, w.asked[StreamKey(sid, k)], w.now) {
          SilentShrinksAny(w.core, p, w.asked[StreamKey(sid, k)], w.now);
        }
        AwakeFrame(w, w', sid, k);
      }
    }
  }

  lemma AwakeTick(w: System, seconds: nat)
    requires AllAwake(w)
    ensures AllAwake(Next(w, Tick(seconds)))
  {
    var w' := Next(w, Tick(seconds));
    forall sid, k | Open(w', sid, k) ensures Awake(w', sid, k) {
      assert Open(w, sid, k) && Awake(w, sid, k);
      var agent := w.asked[StreamKey(sid, k)];
      if AnyClaimable(w.core.store, agent, w'.now) {
        EarlierClaimable(w.core.store, agent, w.now, w'.now);
      }
      AwakeFrame(w, w', sid, k);
    }
  }

  lemma AwakeExecuted(w: System, w': System, t: Ticket, choice: Option<string>, sid: SessionId, k: StreamId)
    requires t in w.claims && w.claims[t].InQueue? && Open(w, sid, k) && Awake(w, sid, k)
    requires choice.None? ==> !AnyClaimable(w.core.store, w.claims[t].agentId, w.claims[t].at)
    requires w' == w.(core := w'.core, claims := w.claims[t := Done(choice)], notices := w'.notices,
        handed := w'.handed)
    requires forall n :: n in w.notices ==> n in w'.notices && w'.notices[n] == w.notices[n]
    requires Shrinks(w, w', w.asked[StreamKey(sid, k)])
    ensures Awake(w', sid, k)
  {
    hide AnyClaimable;
    var agent := w.asked[StreamKey(sid, k)];
    if Owed(w, sid) && !(exists m :: m in w.posted && w.posted[m] == sid) {
      var n :| n in w.notices && (w.notices[n].Unread? || sid in w.notices[n].todo);
      assert n in w'.notices && w'.notices[n] == w.notices[n];
    }
    if !For(t, sid, k) {
      AwakeFrame(w, w', sid, k);
    } else if choice.Some? {
      assert t in w'.claims && w'.claims[t] != Done(None);
      assert Promising(w', sid, k);
    } else if AnyClaimable(w.core.store, agent, w.now) {
      EarlierClaimable(w.core.store, agent, w.claims[t].at, w.now);
      assert false;
    }
  }

  /** A claim that finds nothing proves that nothing is claimable now; one that
      finds a task brings it. */
  lemma AwakeExecute(w: System, t: Ticket, choice: Option<string>, n: NoticeId)
    requires AllAwake(w) && Enabled(w, Execute(t, choice, n))
    ensures AllAwake(Next(w, Execute(t, choice, n)))
  {
    var w', p := Next(w, Execute(t, choice, n)), P.ClaimNext(w.claims[t].agentId, w.claims[t].at, choice);
    assert t in w.claims && w.claims[t].InQueue?;
    assert choice.None? ==> !AnyClaimable(w.core.store, w.claims[t].agentId, w.claims[t].at);
    ExecuteShape(w, t, choice, n);
    hide Next, P.Next, Notifies, Enabled, P.Enabled, AnyClaimable;
    forall sid, k | Open(w', sid, k) ensures Awake(w', sid, k) {
      assert Open(w, sid, k) && Awake(w, sid, k);
      var agent := w.asked[StreamKey(sid, k)];
      if AnyClaimable(w'.core.store, agent, w.now) {
        SilentShrinksAny(w.core, p, agent, w.now);
      }
      hide Awake;
      AwakeExecuted(w, w', t, choice, sid, k);
    }
  }

  lemma AwakeBreak(w: System, t: Ticket)
    requires AllAwake(w) && Enabled(w, Break(t))
    ensures AllAwake(Next(w, Break(t)))
  {
    var w' := Next(w, Break(t));
    forall sid, k | Open(w', sid, k) ensures Awake(w', sid, k) {
      assert Open(w, sid, k) && Awake(w, sid, k);
      if For(t, sid, k) {
        assert t in w'.claims && w'.claims[t] != Done(None);
        assert Promising(w', sid, k);
      } else {
        AwakeFrame(w, w', sid, k);
      }
    }
  }

  /** Copying the observers, posting to one and finishing keep what is owed to
      every live session. */
  lemma OwedAlong(w: System, step: Step, sid: SessionId)
    requires Enabled(w, step) && (step.Copy? || step.Post? || step.Drop?) && Live(w, sid) && Owed(w, sid)
    ensures Owed(Next(w, step), sid)
  {
    var w' := Next(w, step);
    if m :| m in w.posted && w.posted[m] == sid {
      assert m in w'.posted && w'.posted[m] == sid;
    } else {
      var x :| x in w.notices && (w.notices[x].Unread? || sid in w.notices[x].todo);
      if step.Post? && step.notice == x && step.session == sid {
        assert step.post in w'.posted && w'.posted[step.post] == sid;
      } else {
        assert x in w'.notices && (w'.notices[x].Unread? || sid in w'.notices[x].todo);
      }
    }
  }

  lemma AwakeNotice(w: System, step: Step)
    requires AllAwake(w) && Enabled(w, step) && (step.Copy? || step.Post? || step.Drop?)
    ensures AllAwake(Next(w, step))
  {
    var w' := Next(w, step);
    forall sid, k | Open(w', sid, k) ensures Awake(w', sid, k) {
      assert Open(w, sid, k) && Awake(w, sid, k);
      if Owed(w, sid) {
        OwedAlong(w, step, sid);
      }
      AwakeFrame(w, w', sid, k);
    }
  }

  lemma AwakeRead(w: System, sid: SessionId, k: StreamId, n: nat)
    requires AllAwake(w) && Enabled(w, ReadSome(sid, k, n))
    ensures AllAwake(Next(w, ReadSome(sid, k, n)))
  {
    hide AnyClaimable, P.Next, TryStart, StartIn;
    var w' := Next(w, ReadSome(sid, k, n));
    assert w'.core == w.core && w'.now == w.now && w'.claims == w.claims && w'.asked == w.asked;
    assert w'.notices == w.notices && w'.posted == w.posted && w'.sessions == w.sessions[sid := w'.sessions[sid]];
    forall sid', k' | Open(w', sid', k')
      ensures Awake(w', sid', k')
    {
      assert Open(w, sid', k') && Awake(w, sid', k');
      AwakeFrame(w, w', sid', k');
    }
  }

  /** Steps that touch neither the store nor a claim nor what is owed, and leave
      the streams of every session that stays open as they are. */
  lemma AwakeKept(w: System, w': System)
    requires AllAwake(w)
    requires w'.core == w.core && w'.now == w.now && w'.asked == w.asked
    requires w'.posted == w.posted && w'.notices == w.notices && w'.claims == w.claims
    requires forall sid, k :: Open(w', sid, k) ==>
      Open(w, sid, k) && w'.sessions[sid].streams[k] == w.sessions[sid].streams[k]
    ensures AllAwake(w')
  {
    hide AnyClaimable;
    forall sid, k | Open(w', sid, k) ensures Awake(w', sid, k) {
      assert Open(w, sid, k) && Awake(w, sid, k);
      AwakeFrame(w, w', sid, k);
    }
  }

  /** A session connects, closes, loses a stream, changes its binding or sends. */
  lemma AwakeSession(w: System, step: Step)
    requires AllAwake(w) && Enabled(w, step)
    requires LeavesStreams(step)
    ensures AllAwake(Next(w, step))
  {
    StreamsLeft(w, step);
    hide AllAwake, Next;
    AwakeKept(w, Next(w, step));
  }

  ghost predicate WakeInv(w: System) { Flags(w) && AllAwake(w) }

  /** A notification for a closed session is owed to nobody else. */
  lemma DeafSession(w: System, m: PostId)
    requires AllAwake(w) && m in w.posted && !Live(w, w.posted[m])
    ensures AllAwake(w.(posted := w.posted - {m}))
  {
    var w' := w.(posted := w.posted - {m});
    forall sid, k | Open(w', sid, k) ensures Awake(w', sid, k) {
      assert Open(w, sid, k) && Awake(w, sid, k);
      if x :| x in w.posted && w.posted[x] == sid {
        assert x in w'.posted && w'.posted[x] == sid;
      }
      AwakeFrame(w, w', sid, k);
    }
  }

  lemma WakeOpenStream(w: System, sid: SessionId, k: StreamId)
    requires WakeInv(w) && Enabled(w, OpenStream(sid, k))
    ensures AllAwake(Next(w, OpenStream(sid, k)))
  {
    if w.sessions[sid].agent.Some? {
      FlagsJoined(w, sid, k);
      AwakeJoined(w, sid, k);
      AwakeStart(Joined(w, sid, k), sid);
    }
  }

  lemma WakeHearNotice(w: System, m: PostId)
    requires WakeInv(w) && Enabled(w, HearNotice(m))
    ensures AllAwake(Next(w, HearNotice(m)))
  {
    if Live(w, w.posted[m]) {
      FlagsNotified(w, m);
      AwakeNotified(w, m);
      AwakeStart(Notified(w, m), w.posted[m]);
    } else {
      DeafSession(w, m);
    }
  }

  lemma WakeHearClaim(w: System, t: Ticket, payload: Bytes)
    requires WakeInv(w) && Enabled(w, HearClaim(t, payload))
    ensures AllAwake(Next(w, HearClaim(t, payload)))
  {
    AwakeHeard(w, t, payload);
    if HeardStarts(w, t) {
      FlagsHeard(w, t, payload);
      AwakeStart(Heard(w, t, payload), t.session);
    }
  }

  lemma WakeWrote(w: System, sid: SessionId)
    requires WakeInv(w) && Enabled(w, Wrote(sid))
    ensures AllAwake(Next(w, Wrote(sid)))
  {
    AwakeSent(w, sid);
    if Live(w, sid) {
      FlagsSent(w, sid);
      AwakeStart(SentOut(w, sid), sid);
    }
  }

  lemma WakeNotStarting(w: System, step: Step)
    requires WakeInv(w) && Enabled(w, step)
    requires step.Execute? || step.Break? || step.Core? || step.Tick? || step.Copy? || step.Post? || step.Drop?
    ensures AllAwake(Next(w, step))
  {
    match step
    case Execute(t, choice, n) => AwakeExecute(w, t, choice, n);
    case Break(t) => AwakeBreak(w, t);
    case Core(p, n) => AwakeCore(w, p, n);
    case Tick(seconds) => AwakeTick(w, seconds);
    case Copy(_) => AwakeNotice(w, step);
    case Post(_, _, _) => AwakeNotice(w, step);
    case Drop(_) => AwakeNotice(w, step);
  }

  lemma WakeNext(w: System, step: Step)
    requires WakeInv(w) && Enabled(w, step)
    ensures WakeInv(Next(w, step))
  {
    FlagsNext(w, step);
    if step.OpenStream? {
      WakeOpenStream(w, step.session, step.stream);
    } else if step.HearNotice? {
      WakeHearNotice(w, step.post);
    } else if step.HearClaim? {
      WakeHearClaim(w, step.ticket, step.payload);
    } else if step.Wrote? {
      WakeWrote(w, step.session);
    } else if step.ReadSome? {
      AwakeRead(w, step.session, step.stream, step.count);
    } else if LeavesStreams(step) {
      AwakeSession(w, step);
    } else {
      WakeNotStarting(w, step);
    }
  }

  lemma {:induction false} RunAwake(steps: seq<Step>)
    ensures WakeInv(Run(steps))
    decreases |steps|
  {
    if steps != [] {
      RunAwake(steps[..|steps| - 1]);
      if Enabled(Run(steps[..|steps| - 1]), steps[|steps| - 1]) {
        WakeNext(Run(steps[..|steps| - 1]), steps[|steps| - 1]);
      }
    }
  }

  /** In every interleaving: an open command stream whose agent has a claimable
      task, and that is not stranded with a refresh nobody acts on, has a claim
      in flight that can still bring a task, an empty claim with a refresh
      recorded behind it, command bytes outstanding, or a notification owed to
      its session. When all outstanding bytes have been read, a write completion
      is still to come. */
  lemma NoLostWakeUp(steps: seq<Step>, sid: SessionId, k: StreamId)
    requires Open(Run(steps), sid, k)
    ensures var w := Run(steps);
      var c := w.sessions[sid].streams[k];
      && StreamKey(sid, k) in w.asked
      && (AnyClaimable(w.core.store, w.asked[StreamKey(sid, k)], w.now) && !Startable(c) ==>
          || Promising(w, sid, k)
          || (c.claimInFlight && c.refreshPending)
          || c.dataInFlight
          || Owed(w, sid))
      && (c.dataInFlight && c.offset == |c.body| ==> w.sessions[sid].writing)
  {
    RunAwake(steps);
    assert Awake(Run(steps), sid, k) && FlagsHonest(Run(steps), sid, k);
  }

  /** A stream never has two claims in flight, and never a claim while a command
      is being sent: unsent bytes are never replaced. */
  lemma OneClaimAtATime(steps: seq<Step>, sid: SessionId, k: StreamId)
    requires Open(Run(steps), sid, k)
    ensures var w := Run(steps);
      && (forall t, u :: t in w.claims && u in w.claims && For(t, sid, k) && For(u, sid, k) ==> t == u)
      && ((exists t :: t in w.claims && For(t, sid, k)) ==> w.sessions[sid].streams[k].body == [])
  {
    RunAwake(steps);
    assert FlagsHonest(Run(steps), sid, k);
  }
}
