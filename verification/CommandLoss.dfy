/**
 Which wake-ups are lost, exactly: outside quiet states something under way, a
 write completion, an answer, a claim or a command of another stream, a checked
 result, can still make the stream ask for its task.
 */
module CommandLoss {
  import opened Prelude
  import opened ServerStore
  import opened CommandSession
  import opened CommandSystem
  import opened CommandWakeUp
  import opened CommandStranding
  import opened CommandQuiet
  import FrameCodec
  import P = TaskProtocol

  // ------------------------------------------------------- other states can still wake the stream

  /** Deliveries make an open stream ask for the agent. */
  ghost predicate CanAsk(w: System, sid: SessionId, k: StreamId, agentId: string) {
    exists more: seq<Step> ::
      Delivered(more) && Open(RunFrom(w, more), sid, k) && Asking(RunFrom(w, more), sid, k, agentId)
  }

  lemma AskingCanAsk(w: System, sid: SessionId, k: StreamId, agentId: string)
    requires Open(w, sid, k) && Asking(w, sid, k, agentId)
    ensures CanAsk(w, sid, k, agentId)
  {
    assert RunFrom(w, []) == w && Delivered([]);
  }

  lemma AskAfter(w: System, step: Step, sid: SessionId, k: StreamId, agentId: string)
    requires Enabled(w, step) && Delivers(step) && CanAsk(Next(w, step), sid, k, agentId)
    ensures CanAsk(w, sid, k, agentId)
  {
    var more: seq<Step> :| Delivered(more) && Open(RunFrom(Next(w, step), more), sid, k)
                           && Asking(RunFrom(Next(w, step), more), sid, k, agentId);
    hide Enabled, Next, Asking, Open;
    assert ([step] + more)[1..] == more;
    assert RunFrom(w, [step] + more) == RunFrom(Next(w, step), more);
  }

  lemma CanAskWakes(w: System, sid: SessionId, k: StreamId, agentId: string)
    requires CanAsk(w, sid, k, agentId)
    ensures CanWake(w, sid, k, agentId)
  {
    var more: seq<Step> :| Delivered(more) && Open(RunFrom(w, more), sid, k)
                           && Asking(RunFrom(w, more), sid, k, agentId);
    assert Woken(RunFrom(w, more), sid, k, agentId);
  }

  lemma StartAsks(w: System, sid: SessionId, k: StreamId)
    requires sid in w.sessions && k in Started(w.sessions[sid])
    ensures Open(StartIn(w, sid), sid, k) && Asking(StartIn(w, sid), sid, k, w.sessions[sid].agent.value)
  {
    var w', t := StartIn(w, sid), Ticket(sid, k, w.serial);
    assert t in w'.claims && For(t, sid, k) && w'.claims[t] == InQueue(w.sessions[sid].agent.value, w.now);
  }

  /** A write completion serves a stranded stream, and one whose command it sent. */
  lemma WriteAsks(w: System, sid: SessionId, k: StreamId)
    requires Flags(w) && Open(w, sid, k) && w.sessions[sid].agent.Some? && w.sessions[sid].writing
    requires Startable(w.sessions[sid].streams[k]) || FullyRead(w.sessions[sid].streams[k])
    ensures CanAsk(w, sid, k, w.sessions[sid].agent.value)
  {
    assert FlagsHonest(w, sid, k);
    var mid := SentOut(w, sid);
    assert Open(mid, sid, k) && k in Started(mid.sessions[sid]);
    StartAsks(mid, sid, k);
    hide StartIn, SentOut, Asking, Open;
    AskingCanAsk(Next(w, Wrote(sid)), sid, k, w.sessions[sid].agent.value);
    AskAfter(w, Wrote(sid), sid, k, w.sessions[sid].agent.value);
  }

  /** A command being sent is read to its end and then written. */
  lemma SendingAsks(w: System, sid: SessionId, k: StreamId)
    requires Flags(w) && Open(w, sid, k) && w.sessions[sid].agent.Some? && w.sessions[sid].streams[k].dataInFlight
    ensures CanAsk(w, sid, k, w.sessions[sid].agent.value)
  {
    assert FlagsHonest(w, sid, k);
    var c := w.sessions[sid].streams[k];
    if FullyRead(c) {
      WriteAsks(w, sid, k);
    } else {
      var step := ReadSome(sid, k, |c.body| - c.offset);
      FlagsNext(w, step);
      hide Flags;
      WriteAsks(Next(w, step), sid, k);
      AskAfter(w, step, sid, k, w.sessions[sid].agent.value);
    }
  }

  lemma FoundAsks(w: System, t: Ticket)
    requires Flags(w) && t in w.claims && w.claims[t].Done? && w.claims[t].task.Some?
    requires Open(w, t.session, t.stream) && w.sessions[t.session].agent.Some?
    ensures CanAsk(w, t.session, t.stream, w.sessions[t.session].agent.value)
  {
    var step := HearClaim(t, []);
    FlagsNext(w, step);
    hide Flags;
    SendingAsks(Next(w, step), t.session, t.stream);
    AskAfter(w, step, t.session, t.stream, w.sessions[t.session].agent.value);
  }

  lemma RefreshedAsks(w: System, t: Ticket)
    requires Flags(w) && t in w.claims && HeardStarts(w, t) && w.sessions[t.session].agent.Some?
    ensures CanAsk(w, t.session, t.stream, w.sessions[t.session].agent.value)
  {
    assert FlagsHonest(w, t.session, t.stream);
    var mid := Heard(w, t, []);
    assert t.stream in Started(mid.sessions[t.session]);
    StartAsks(mid, t.session, t.stream);
    AskingCanAsk(Next(w, HearClaim(t, [])), t.session, t.stream, w.sessions[t.session].agent.value);
    AskAfter(w, HearClaim(t, []), t.session, t.stream, w.sessions[t.session].agent.value);
  }

  /** Some claimable task among these is an oldest one. */
  lemma {:induction false} Oldest(s: Store, ids: set<string>, agentId: string, at: int) returns (choice: Option<string>)
    requires ids <= s.tasks.Keys
    ensures choice.None? ==> forall id :: id in ids ==> !Claimable(s, id, agentId, at)
    ensures choice.Some? ==> choice.value in ids && Claimable(s, choice.value, agentId, at)
    ensures choice.Some? ==> forall id :: id in ids && Claimable(s, id, agentId, at) ==>
      s.tasks[choice.value].task.createdAt <= s.tasks[id].task.createdAt
    decreases ids
  {
    if ids == {} {
      choice := None;
    } else {
      var id :| id in ids;
      choice := Oldest(s, ids - {id}, agentId, at);
      if Claimable(s, id, agentId, at)
         && (choice.None? || s.tasks[id].task.createdAt < s.tasks[choice.value].task.createdAt)
      {
        choice := Some(id);
      }
    }
  }

  lemma ClaimCanExecute(s: Store, agentId: string, at: int) returns (choice: Option<string>)
    ensures FirstClaimable(s, choice, agentId, at) && (choice.Some? <==> AnyClaimable(s, agentId, at))
  {
    choice := Oldest(s, s.tasks.Keys, agentId, at);
  }

  /** Some number is above all of a finite set. */
  lemma {:induction false} Above(used: set<nat>) returns (n: nat)
    ensures forall u :: u in used ==> u < n
    decreases used
  {
    if used == {} {
      n := 0;
    } else {
      var u :| u in used;
      var rest := Above(used - {u});
      n := if rest <= u then u + 1 else rest;
      forall v | v in used ensures v < n {
        if v != u {
          assert v in used - {u};
        }
      }
    }
  }

  lemma FreshPost(used: set<PostId>) returns (m: PostId)
    ensures m !in used
  {
    var numbers := set u | u in used :: u.number;
    var n := Above(numbers);
    m := PostId(n);
    assert m in used ==> m.number in numbers;
  }

  lemma FreshNotice(used: set<NoticeId>) returns (m: NoticeId)
    ensures m !in used
  {
    var numbers := set u | u in used :: u.number;
    var n := Above(numbers);
    m := NoticeId(n);
    assert m in used ==> m.number in numbers;
  }

  /** A claim with a refresh behind it is executed and heard, and the stream asks
      again, at once or after sending what was found. */
  lemma WaitingAsks(w: System, t: Ticket)
    requires Flags(w) && t in w.claims && !w.claims[t].Broken? && Open(w, t.session, t.stream)
    requires w.sessions[t.session].agent.Some? && w.sessions[t.session].streams[t.stream].refreshPending
    ensures CanAsk(w, t.session, t.stream, w.sessions[t.session].agent.value)
  {
    if w.claims[t].InQueue? {
      var choice := ClaimCanExecute(w.core.store, w.claims[t].agentId, w.claims[t].at);
      var n := FreshNotice(w.notices.Keys);
      var step := Execute(t, choice, n);
      FlagsNext(w, step);
      var w' := Next(w, step);
      hide Flags, P.Next, CanAsk, FirstClaimable;
      if choice.Some? {
        FoundAsks(w', t);
      } else {
        RefreshedAsks(w', t);
      }
      AskAfter(w, step, t.session, t.stream, w.sessions[t.session].agent.value);
    } else if w.claims[t] == Done(None) {
      RefreshedAsks(w, t);
    } else {
      FoundAsks(w, t);
    }
  }

  lemma PostedIdleAsks(w: System, m: PostId, k: StreamId)
    requires Flags(w) && m in w.posted && Open(w, w.posted[m], k) && w.sessions[w.posted[m]].agent.Some?
    requires var c := w.sessions[w.posted[m]].streams[k]; !c.dataInFlight && !c.claimInFlight
    ensures CanAsk(w, w.posted[m], k, w.sessions[w.posted[m]].agent.value)
  {
    var sid, mid := w.posted[m], Notified(w, m);
    assert FlagsHonest(w, sid, k);
    assert k in Started(mid.sessions[sid]);
    StartAsks(mid, sid, k);
    assert Next(w, HearNotice(m)) == StartIn(mid, sid) && mid.sessions[sid].agent == w.sessions[sid].agent;
    hide StartIn, Flags, Asking, Next;
    AskingCanAsk(Next(w, HearNotice(m)), sid, k, w.sessions[sid].agent.value);
    AskAfter(w, HearNotice(m), sid, k, w.sessions[sid].agent.value);
  }

  lemma PostedClaimAsks(w: System, m: PostId, t: Ticket)
    requires Flags(w) && m in w.posted && t in w.claims && w.posted[m] == t.session && !w.claims[t].Broken?
    requires Open(w, t.session, t.stream) && w.sessions[t.session].agent.Some?
    ensures CanAsk(w, t.session, t.stream, w.sessions[t.session].agent.value)
  {
    FlagsNext(w, HearNotice(m));
    HeardWaiting(w, m, t);
    assert Enabled(w, HearNotice(m));
    hide Flags, Next, CanAsk;
    WaitingAsks(Next(w, HearNotice(m)), t);
    AskAfter(w, HearNotice(m), t.session, t.stream, w.sessions[t.session].agent.value);
  }

  lemma PostedAsks(w: System, m: PostId, k: StreamId)
    requires Flags(w) && m in w.posted && Open(w, w.posted[m], k) && !FailedClaim(w, w.posted[m], k)
    requires w.sessions[w.posted[m]].agent.Some?
    ensures CanAsk(w, w.posted[m], k, w.sessions[w.posted[m]].agent.value)
  {
    hide CanAsk;
    var sid := w.posted[m];
    assert FlagsHonest(w, sid, k);
    if w.sessions[sid].streams[k].dataInFlight {
      SendingAsks(w, sid, k);
    } else if w.sessions[sid].streams[k].claimInFlight {
      var t :| t in w.claims && For(t, sid, k);
      PostedClaimAsks(w, m, t);
    } else {
      PostedIdleAsks(w, m, k);
    }
  }

  /** A notification heard while a claim is in flight leaves a refresh behind it. */
  lemma HeardWaiting(w: System, m: PostId, t: Ticket)
    requires Flags(w) && m in w.posted && t in w.claims && w.posted[m] == t.session && Open(w, t.session, t.stream)
    ensures var w' := Next(w, HearNotice(m));
      && t in w'.claims && w'.claims[t] == w.claims[t] && Open(w', t.session, t.stream)
      && w'.sessions[t.session].agent == w.sessions[t.session].agent
      && w'.sessions[t.session].streams[t.stream].refreshPending
  {
    hide StartIn;
    assert FlagsHonest(w, t.session, t.stream) && For(t, t.session, t.stream);
    var mid := Notified(w, m);
    assert !Startable(mid.sessions[t.session].streams[t.stream]);
    StartPassesOn(mid, t.session, t);
  }

  lemma StartPassesOn(w: System, sid: SessionId, t: Ticket)
    requires sid in w.sessions && t in w.claims && Open(w, sid, t.stream) && (t.session != sid || t.serial < w.serial)
    requires !Startable(w.sessions[sid].streams[t.stream])
    ensures var w' := StartIn(w, sid);
      && t in w'.claims && w'.claims[t] == w.claims[t] && Open(w', sid, t.stream)
      && w'.sessions[sid].agent == w.sessions[sid].agent
      && w'.sessions[sid].streams[t.stream] == w.sessions[sid].streams[t.stream]
  {
  }

  lemma OwedAsks(w: System, sid: SessionId, k: StreamId)
    requires Flags(w) && Open(w, sid, k) && !FailedClaim(w, sid, k) && w.sessions[sid].agent.Some? && Owed(w, sid)
    ensures CanAsk(w, sid, k, w.sessions[sid].agent.value)
  {
    if m :| m in w.posted && w.posted[m] == sid {
      PostedAsks(w, m, k);
    } else {
      var n :| n in w.notices && (w.notices[n].Unread? || sid in w.notices[n].todo);
      if w.notices[n].Unread? {
        CopyAsks(w, n, sid, k);
      } else {
        PostAsks(w, n, sid, k);
      }
    }
  }

  lemma PostAsks(w: System, n: NoticeId, sid: SessionId, k: StreamId)
    requires Flags(w) && Open(w, sid, k) && !FailedClaim(w, sid, k) && w.sessions[sid].agent.Some?
    requires n in w.notices && w.notices[n].Posting? && sid in w.notices[n].todo
    ensures CanAsk(w, sid, k, w.sessions[sid].agent.value)
  {
    var m := FreshPost(w.posted.Keys);
    var step := Post(n, sid, m);
    FlagsNext(w, step);
    hide Flags, CanAsk;
    PostedAsks(Next(w, step), m, k);
    AskAfter(w, step, sid, k, w.sessions[sid].agent.value);
  }

  lemma CopyAsks(w: System, n: NoticeId, sid: SessionId, k: StreamId)
    requires Flags(w) && Open(w, sid, k) && !FailedClaim(w, sid, k) && w.sessions[sid].agent.Some?
    requires n in w.notices && w.notices[n].Unread?
    ensures CanAsk(w, sid, k, w.sessions[sid].agent.value)
  {
    var step := Copy(n);
    FlagsNext(w, step);
    hide Flags, CanAsk;
    PostAsks(Next(w, step), n, sid, k);
    AskAfter(w, step, sid, k, w.sessions[sid].agent.value);
  }

  lemma AnswerAsks(w: System, m: PostId, k: StreamId)
    requires Flags(w) && m in w.replies && Open(w, w.replies[m], k) && Startable(w.sessions[w.replies[m]].streams[k])
    requires w.sessions[w.replies[m]].agent.Some?
    ensures CanAsk(w, w.replies[m], k, w.sessions[w.replies[m]].agent.value)
  {
    var sid, step := w.replies[m], HearReply(m);
    FlagsNext(w, step);
    hide Flags, CanAsk;
    WriteAsks(Next(w, step), sid, k);
    AskAfter(w, step, sid, k, w.sessions[sid].agent.value);
  }

  lemma UnsettledAsks(w: System, sid: SessionId, k: StreamId)
    requires Flags(w) && HasWork(w, sid, k) && !Settled(w, sid, k)
    ensures CanAsk(w, sid, k, w.sessions[sid].agent.value)
  {
    hide CanAsk, AnyClaimable, Flags;
    var c := w.sessions[sid].streams[k];
    if Owed(w, sid) {
      OwedAsks(w, sid, k);
    } else if c.dataInFlight {
      SendingAsks(w, sid, k);
    } else if t :| t in w.claims && For(t, sid, k)
                   && (c.refreshPending || !(w.claims[t].InQueue? || w.claims[t] == Done(None))) {
      assert !w.claims[t].Broken?;
      if c.refreshPending {
        WaitingAsks(w, t);
      } else {
        FoundAsks(w, t);
      }
    } else if w.sessions[sid].writing {
      WriteAsks(w, sid, k);
    } else {
      var m :| m in w.replies && w.replies[m] == sid;
      AnswerAsks(w, m, k);
    }
  }

  /** A hand-out or a result reaches every session. */
  lemma NoticeAsks(w: System, step: Step, sid: SessionId, k: StreamId, agentId: string)
    requires Flags(w) && Enabled(w, step) && Delivers(step) && Sound(w, sid, k, Some(agentId))
    requires (step.Execute? && step.choice.Some?) || (step.Core? && Notifies(w.core, step.step))
    ensures CanAsk(w, sid, k, agentId)
  {
    FlagsNext(w, step);
    SoundNext(w, step, sid, k, Some(agentId));
    var w' := Next(w, step);
    assert step.notice in w'.notices && w'.notices[step.notice].Unread?;
    assert !FailedClaim(w', sid, k);
    hide Flags, Next, CanAsk;
    CopyAsks(w', step.notice, sid, k);
    AskAfter(w, step, sid, k, agentId);
  }

  lemma FoundNotices(w: System, t: Ticket, sid: SessionId, k: StreamId, agentId: string)
    requires Flags(w) && Sound(w, sid, k, Some(agentId))
    requires t in w.claims && w.claims[t].InQueue? && AnyClaimable(w.core.store, w.claims[t].agentId, w.claims[t].at)
    ensures CanAsk(w, sid, k, agentId)
  {
    var choice := ClaimCanExecute(w.core.store, w.claims[t].agentId, w.claims[t].at);
    var n := FreshNotice(w.notices.Keys);
    NoticeAsks(w, Execute(t, choice, n), sid, k, agentId);
  }

  lemma SilentDelivery(w: System, step: Step, agentId: string)
    requires Enabled(w, step) && Delivers(step)
    requires !(step.Execute? && step.choice.Some?) && !(step.Core? && Notifies(w.core, step.step))
    ensures Next(w, step).now == w.now
    ensures AnyClaimable(Next(w, step).core.store, agentId, w.now) <==> AnyClaimable(w.core.store, agentId, w.now)
  {
    DeliverySameCore(w, step);
    if step.Core? {
      SilentSame(w.core, step.step, agentId, w.now);
    }
  }

  /** If some stream can ask for an agent that has a claimable task, every stream
      can be made to ask: on the way a task is handed out, or at the end. */
  lemma {:induction false} AskingSpreads(w: System, more: seq<Step>, s: SessionId, j: StreamId, other: string,
                                         sid: SessionId, k: StreamId, agentId: string)
    requires WakeInv(w) && Sound(w, sid, k, Some(agentId)) && Delivered(more)
    requires Open(RunFrom(w, more), s, j) && Asking(RunFrom(w, more), s, j, other)
    requires AnyClaimable(w.core.store, other, w.now)
    ensures CanAsk(w, sid, k, agentId)
    decreases |more|
  {
    WakeInvFlags(w);
    if more == [] {
      assert Awake(w, s, j);
      var t :| t in w.claims && For(t, s, j) && w.claims[t].InQueue? && w.claims[t].agentId == other;
      EarlierClaimable(w.core.store, other, w.claims[t].at, w.now);
      FoundNotices(w, t, sid, k, agentId);
    } else {
      hide WakeInv, Enabled, Next, AnyClaimable, Asking, Sound, CanAsk, Notifies, Open, Flags;
      var step := more[0];
      if !Enabled(w, step) {
        AskingSpreads(w, more[1..], s, j, other, sid, k, agentId);
      } else if (step.Execute? && step.choice.Some?) || (step.Core? && Notifies(w.core, step.step)) {
        NoticeAsks(w, step, sid, k, agentId);
      } else {
        WakeNext(w, step);
        SoundNext(w, step, sid, k, Some(agentId));
        SilentDelivery(w, step, other);
        AskingSpreads(Next(w, step), more[1..], s, j, other, sid, k, agentId);
        AskAfter(w, step, sid, k, agentId);
      }
    }
  }

  lemma UnsettledSpreads(w: System, s: SessionId, j: StreamId, sid: SessionId, k: StreamId, agentId: string)
    requires WakeInv(w) && Sound(w, sid, k, Some(agentId)) && HasWork(w, s, j) && !Settled(w, s, j)
    ensures CanAsk(w, sid, k, agentId)
  {
    WakeInvFlags(w);
    UnsettledAsks(w, s, j);
    var other := w.sessions[s].agent.value;
    var more: seq<Step> :| Delivered(more) && Open(RunFrom(w, more), s, j) && Asking(RunFrom(w, more), s, j, other);
    hide WakeInv, Asking, Sound, CanAsk, Settled, RunFrom, AnyClaimable;
    AskingSpreads(w, more, s, j, other, sid, k, agentId);
  }

  /** A failed claim of an open stream ends the session. */
  lemma FailedEnds(w: System, sid: SessionId, k: StreamId, agentId: string)
    requires Live(w, sid) && !NoneFailed(w, sid)
    ensures CanWake(w, sid, k, agentId)
  {
    var t :| t in w.claims && t.session == sid && Open(w, sid, t.stream) && w.claims[t].Broken?;
    var step := HearClaim(t, []);
    assert RunFrom(w, [step]) == Next(w, step) by {
      assert RunFrom(Next(w, step), [step][1..]) == Next(w, step);
    }
    assert Delivered([step]) && Woken(RunFrom(w, [step]), sid, k, agentId);
  }

  lemma NotQuietWakes(w: System, sid: SessionId, k: StreamId)
    requires WakeInv(w) && Open(w, sid, k) && w.sessions[sid].agent.Some? && !(AllQuiet(w) && NoneFailed(w, sid))
    ensures CanWake(w, sid, k, w.sessions[sid].agent.value)
  {
    hide WakeInv, CanWake, CanAsk, AnyClaimable, Settled;
    WakeInvFlags(w);
    var agentId := w.sessions[sid].agent.value;
    if !NoneFailed(w, sid) {
      FailedEnds(w, sid, k, agentId);
    } else {
      if job :| Reporting(w.core, job) {
        var n := FreshNotice(w.notices.Keys);
        NoticeAsks(w, Core(P.WriteJob(job, true), n), sid, k, agentId);
      } else if t :| t in w.claims && w.claims[t].InQueue?
                     && AnyClaimable(w.core.store, w.claims[t].agentId, w.claims[t].at) {
        FoundNotices(w, t, sid, k, agentId);
      } else {
        var s, j :| HasWork(w, s, j) && !Settled(w, s, j);
        UnsettledSpreads(w, s, j, sid, k, agentId);
      }
      CanAskWakes(w, sid, k, agentId);
    }
  }

  /** In every interleaving, for an open stream whose bound agent has a claimable
      task: the wake-up is lost if and only if none of the session's claims failed
      and everything is quiet. The stream is then stranded, unless the connection
      was bound to another agent than the one it asked for. */
  lemma LostExactly(steps: seq<Step>, sid: SessionId, k: StreamId)
    requires var w := Run(steps);
      && Open(w, sid, k) && w.sessions[sid].agent.Some?
      && AnyClaimable(w.core.store, w.sessions[sid].agent.value, w.now)
    ensures var w := Run(steps);
      && (Lost(w, sid, k) <==> AllQuiet(w) && NoneFailed(w, sid))
      && (Lost(w, sid, k) ==>
            || Startable(w.sessions[sid].streams[k])
            || (StreamKey(sid, k) in w.asked && w.asked[StreamKey(sid, k)] != w.sessions[sid].agent.value))
  {
    RunAwake(steps);
    var w := Run(steps);
    var agentId := w.sessions[sid].agent.value;
    if AllQuiet(w) && NoneFailed(w, sid) {
      if CanWake(w, sid, k, agentId) {
        var more: seq<Step> :| Delivered(more) && Woken(RunFrom(w, more), sid, k, agentId);
        QuietIsNeverWoken(w, more, sid, k, agentId);
      }
      QuietIsStranded(w, sid, k);
    } else {
      NotQuietWakes(w, sid, k);
    }
  }

  lemma QuietIsStranded(w: System, sid: SessionId, k: StreamId)
    requires WakeInv(w) && AllQuiet(w) && NoneFailed(w, sid) && Open(w, sid, k) && w.sessions[sid].agent.Some?
    requires AnyClaimable(w.core.store, w.sessions[sid].agent.value, w.now)
    ensures StreamKey(sid, k) in w.asked
    ensures w.asked[StreamKey(sid, k)] == w.sessions[sid].agent.value ==> Startable(w.sessions[sid].streams[k])
  {
    assert Awake(w, sid, k) && FlagsHonest(w, sid, k);
    assert HasWork(w, sid, k) && Settled(w, sid, k);
    QuietNotAsking(w, sid, k, w.sessions[sid].agent.value);
  }

  /** The next write completion, for whatever output, wakes a stranded stream of a
      bound connection. */
  lemma NextWriteWakes(w: System, sid: SessionId, k: StreamId)
    requires Flags(w) && Open(w, sid, k) && w.sessions[sid].agent.Some? && Startable(w.sessions[sid].streams[k])
    ensures Enabled(w, Output(sid)) && CanAsk(Next(w, Output(sid)), sid, k, w.sessions[sid].agent.value)
  {
    FlagsNext(w, Output(sid));
    hide Flags, CanAsk;
    WriteAsks(Next(w, Output(sid)), sid, k);
  }

  /** So does a binding event whose own stream has ended, by the answer to it. */
  lemma AnsweredBindWakes(w: System, sid: SessionId, k: StreamId, agentId: string, m: PostId)
    requires Flags(w) && Open(w, sid, k) && Startable(w.sessions[sid].streams[k]) && m !in w.replies
    ensures var step := Bind(sid, Some(agentId), Some(m));
      Enabled(w, step) && CanAsk(Next(w, step), sid, k, agentId)
  {
    var step := Bind(sid, Some(agentId), Some(m));
    FlagsNext(w, step);
    hide Flags, CanAsk;
    AnswerAsks(Next(w, step), m, k);
  }

  /** A run in which nothing disturbed the stream has lost no wake-up of it,
      whatever else happened, losing and regaining the binding included: while
      its agent has a claimable task, deliveries make it ask. */
  lemma UndisturbedNeverLost(steps: seq<Step>, sid: SessionId, k: StreamId)
    requires Undisturbed(steps, sid, k)
    ensures !Lost(Run(steps), sid, k)
  {
    if Lost(Run(steps), sid, k) {
      UndisturbedIsCalm(steps, sid, k);
      LostExactly(steps, sid, k);
    }
  }
}
