/**
 When a wake-up is lost after all. A call that would start claims does nothing
 while the connection is bound to no agent, and a stream it would have served
 is left stranded: its refresh is pending with nothing in hand and nothing to
 come. This is the only way, apart from a connection that changes its agent.
 */
module CommandStranding {
  import opened Prelude
  import opened ServerStore
  import opened CommandSession
  import opened CommandSystem
  import opened CommandWakeUp
  import FrameCodec
  import P = TaskProtocol

  // ------------------------------------------------------- which steps strand a stream

  /** Callbacks that call TryStartQueuedCommands. */
  ghost predicate Attempts(w: System, step: Step, sid: SessionId)
    requires Enabled(w, step)
  {
    match step
    case OpenStream(opening, _) => opening == sid && w.sessions[sid].agent.Some?
    case HearNotice(m) => w.posted[m] == sid
    case HearClaim(t, _) => t.session == sid && HeardStarts(w, t)
    case Wrote(written) => written == sid
    case _ => false
  }

  /** The three callbacks that leave a stream of an unbound connection ready to
      claim: a notification while it has nothing in hand, the completion of the
      write that sent its command, and an empty claim with a refresh behind it. */
  ghost predicate Readies(w: System, step: Step, sid: SessionId, k: StreamId)
    requires Enabled(w, step) && Open(w, sid, k)
  {
    var c := w.sessions[sid].streams[k];
    match step
    case HearNotice(m) => w.posted[m] == sid && !c.claimInFlight && !c.dataInFlight
    case HearClaim(t, _) => For(t, sid, k) && w.claims[t] == Done(None) && c.refreshPending
    case Wrote(written) => written == sid && FullyRead(c)
    case _ => false
  }

  /** What a start of claims does to one stream. */
  lemma StartStream(w: System, sid: SessionId, sid': SessionId, k: StreamId)
    requires sid in w.sessions && Open(w, sid', k)
    ensures var w' := StartIn(w, sid);
      && Open(w', sid', k) && w'.sessions[sid'].agent == w.sessions[sid'].agent
      && (Startable(w'.sessions[sid'].streams[k]) <==>
            Startable(w.sessions[sid'].streams[k]) && (sid' == sid ==> w.sessions[sid].agent.None?))
      && (StreamKey(sid', k) in w.asked ==>
            && StreamKey(sid', k) in w'.asked
            && (w'.asked[StreamKey(sid', k)] == w.asked[StreamKey(sid', k)]
                || w.sessions[sid'].agent == Some(w'.asked[StreamKey(sid', k)])))
  {
  }

  /** One step on one open stream: readiness to claim, and the agent asked for. */
  ghost predicate StrandedAfter(w: System, step: Step, sid: SessionId, k: StreamId)
    requires Enabled(w, step) && Open(w, sid, k)
  {
    var w', key := Next(w, step), StreamKey(sid, k);
    Open(w', sid, k) ==>
      && (Startable(w'.sessions[sid].streams[k]) <==>
            if w.sessions[sid].agent.None? then Startable(w.sessions[sid].streams[k]) || Readies(w, step, sid, k)
            else Startable(w.sessions[sid].streams[k]) && !Attempts(w, step, sid))
      && (!step.Bind? ==> w'.sessions[sid].agent == w.sessions[sid].agent)
      && (key in w.asked ==>
            key in w'.asked && (w'.asked[key] == w.asked[key] || w.sessions[sid].agent == Some(w'.asked[key])))
  }

  /** A callback that goes on to start claims in its session. */
  lemma StrandedByStart(w: System, step: Step, mid: System, s: SessionId, sid: SessionId, k: StreamId)
    requires Enabled(w, step) && Open(w, sid, k) && !step.Bind?
    requires s in mid.sessions && Next(w, step) == StartIn(mid, s)
    requires Open(mid, sid, k) && mid.asked == w.asked && mid.sessions[sid].agent == w.sessions[sid].agent
    requires Startable(mid.sessions[sid].streams[k]) <==>
      Startable(w.sessions[sid].streams[k]) || Readies(w, step, sid, k)
    requires (Attempts(w, step, sid) <==> s == sid) && (Readies(w, step, sid, k) ==> s == sid)
    ensures StrandedAfter(w, step, sid, k)
  {
    hide Next, StartIn, Readies, Attempts, Startable, Enabled;
    StartStream(mid, s, sid, k);
  }

  lemma NotifiedStream(w: System, m: PostId, sid: SessionId, k: StreamId)
    requires Flags(w) && m in w.posted && Live(w, w.posted[m]) && Open(w, sid, k)
    ensures var w' := Notified(w, m);
      && w'.asked == w.asked && Open(w', sid, k) && w'.sessions[sid].agent == w.sessions[sid].agent
      && (Startable(w'.sessions[sid].streams[k]) <==>
            Startable(w.sessions[sid].streams[k]) || Readies(w, HearNotice(m), sid, k))
  {
    assert FlagsHonest(w, sid, k);
  }

  lemma StrandedNotice(w: System, m: PostId, sid: SessionId, k: StreamId)
    requires Flags(w) && Enabled(w, HearNotice(m)) && Open(w, sid, k)
    ensures StrandedAfter(w, HearNotice(m), sid, k)
  {
    if Live(w, w.posted[m]) {
      NotifiedStream(w, m, sid, k);
      hide StartIn, Notified, Startable, StrandedAfter, Flags;
      StrandedByStart(w, HearNotice(m), Notified(w, m), w.posted[m], sid, k);
    }
  }

  /** A claim completion, before anything is started. */
  lemma HeardStream(w: System, t: Ticket, payload: Bytes, sid: SessionId, k: StreamId)
    requires Flags(w) && Enabled(w, HearClaim(t, payload)) && Open(w, sid, k)
    ensures var w' := Heard(w, t, payload);
      && w'.asked == w.asked && w'.sessions.Keys == w.sessions.Keys
      && (HeardStarts(w, t) ==> Open(w', sid, k))
      && (Open(w', sid, k) ==>
            && w'.sessions[sid].agent == w.sessions[sid].agent
            && (Startable(w'.sessions[sid].streams[k]) <==>
                  Startable(w.sessions[sid].streams[k]) || Readies(w, HearClaim(t, payload), sid, k)))
  {
    hide FrameCodec.Frame, HeardLogs;
    assert FlagsHonest(w, sid, k);
    assert For(t, t.session, t.stream);
  }

  lemma StrandedHeard(w: System, t: Ticket, payload: Bytes, sid: SessionId, k: StreamId)
    requires Flags(w) && Enabled(w, HearClaim(t, payload)) && Open(w, sid, k)
    ensures StrandedAfter(w, HearClaim(t, payload), sid, k)
  {
    HeardStream(w, t, payload, sid, k);
    hide StartIn, Heard, Startable, Flags;
    if HeardStarts(w, t) {
      hide StrandedAfter;
      StrandedByStart(w, HearClaim(t, payload), Heard(w, t, payload), t.session, sid, k);
    }
  }

  lemma SentStream(w: System, written: SessionId, sid: SessionId, k: StreamId)
    requires Flags(w) && Enabled(w, Wrote(written)) && Open(w, sid, k)
    ensures var w' := SentOut(w, written);
      && w'.asked == w.asked && Open(w', sid, k) && w'.sessions[sid].agent == w.sessions[sid].agent
      && (Startable(w'.sessions[sid].streams[k]) <==>
            Startable(w.sessions[sid].streams[k]) || Readies(w, Wrote(written), sid, k))
  {
    hide FinalizeSent;
    assert FlagsHonest(w, sid, k);
  }

  lemma StrandedWrote(w: System, written: SessionId, sid: SessionId, k: StreamId)
    requires Flags(w) && Enabled(w, Wrote(written)) && Open(w, sid, k)
    ensures StrandedAfter(w, Wrote(written), sid, k)
  {
    SentStream(w, written, sid, k);
    hide StartIn, SentOut, Startable, Flags;
    if Live(w, written) {
      hide StrandedAfter;
      StrandedByStart(w, Wrote(written), SentOut(w, written), written, sid, k);
    } else {
      assert sid != written && Next(w, Wrote(written)) == SentOut(w, written);
      hide Next, Enabled;
    }
  }

  lemma StrandedOpening(w: System, opening: SessionId, id: StreamId, sid: SessionId, k: StreamId)
    requires Flags(w) && Enabled(w, OpenStream(opening, id)) && Open(w, sid, k)
    ensures StrandedAfter(w, OpenStream(opening, id), sid, k)
  {
    hide StartIn;
    assert FlagsHonest(w, sid, k);
    if w.sessions[opening].agent.Some? {
      StartStream(Joined(w, opening, id), opening, sid, k);
    }
  }

  /** A step that leaves the stream and its connection's binding as they are. */
  lemma StrandedSame(w: System, step: Step, sid: SessionId, k: StreamId)
    requires Enabled(w, step) && Open(w, sid, k) && !Attempts(w, step, sid) && !Readies(w, step, sid, k)
    requires Next(w, step).asked == w.asked
    requires Open(Next(w, step), sid, k) ==>
      && Next(w, step).sessions[sid].streams[k] == w.sessions[sid].streams[k]
      && (!step.Bind? ==> Next(w, step).sessions[sid].agent == w.sessions[sid].agent)
    ensures StrandedAfter(w, step, sid, k)
  {
    hide Next, Enabled, Startable;
  }

  lemma StrandedElsewhere(w: System, step: Step, sid: SessionId, k: StreamId)
    requires Flags(w) && Enabled(w, step) && Open(w, sid, k) && (LeavesStreams(step) || LeavesSessions(step))
    ensures StrandedAfter(w, step, sid, k)
  {
    hide Flags, Startable, StrandedAfter;
    if LeavesSessions(step) {
      SessionsLeft(w, step);
    } else {
      StreamsLeft(w, step);
      if !step.Bind? && Open(Next(w, step), sid, k) {
        AgentsLeft(w, step, sid, k);
      }
    }
    hide Next, Enabled;
    StrandedSame(w, step, sid, k);
  }

  lemma AgentsLeft(w: System, step: Step, sid: SessionId, k: StreamId)
    requires Enabled(w, step) && LeavesStreams(step) && !step.Bind? && Open(w, sid, k) && Open(Next(w, step), sid, k)
    ensures Next(w, step).sessions[sid].agent == w.sessions[sid].agent
  {
    hide P.Enabled, StartIn, Joined, BoundTo;
  }

  lemma ReadStream(w: System, reading: SessionId, id: StreamId, n: nat, sid: SessionId, k: StreamId)
    requires Flags(w) && Enabled(w, ReadSome(reading, id, n)) && Open(w, sid, k)
    ensures var w' := ReadOn(w, reading, id, n);
      && w'.asked == w.asked && Open(w', sid, k) && w'.sessions[sid].agent == w.sessions[sid].agent
      && (Startable(w'.sessions[sid].streams[k]) <==> Startable(w.sessions[sid].streams[k]))
  {
    assert FlagsHonest(w, sid, k);
  }

  lemma StrandedRead(w: System, reading: SessionId, id: StreamId, n: nat, sid: SessionId, k: StreamId)
    requires Flags(w) && Enabled(w, ReadSome(reading, id, n)) && Open(w, sid, k)
    ensures StrandedAfter(w, ReadSome(reading, id, n), sid, k)
  {
    ReadStream(w, reading, id, n, sid, k);
    hide ReadOn, Startable, Flags;
  }

  /** A step strands an open stream exactly if the connection is unbound and the
      step is one of the three; it frees a stranded one exactly if the connection
      is bound and the step attempts to start claims. */
  lemma StrandedExactly(w: System, step: Step, sid: SessionId, k: StreamId)
    requires Flags(w) && Enabled(w, step) && Open(w, sid, k)
    ensures StrandedAfter(w, step, sid, k)
  {
    if step.HearNotice? {
      StrandedNotice(w, step.post, sid, k);
    } else if step.HearClaim? {
      StrandedHeard(w, step.ticket, step.payload, sid, k);
    } else if step.Wrote? {
      StrandedWrote(w, step.session, sid, k);
    } else if step.OpenStream? {
      StrandedOpening(w, step.session, step.stream, sid, k);
    } else if step.ReadSome? {
      StrandedRead(w, step.session, step.stream, step.count, sid, k);
    } else {
      StrandedElsewhere(w, step, sid, k);
    }
  }

  // ------------------------------------------------------- runs without and with a disturbance

  /** Not stranded, and bound, if at all, to the agent asked for. */
  ghost predicate Calm(w: System, sid: SessionId, k: StreamId)
    requires Open(w, sid, k)
  {
    var key := StreamKey(sid, k);
    && !Startable(w.sessions[sid].streams[k])
    && key in w.asked
    && (w.sessions[sid].agent.Some? ==> w.sessions[sid].agent.value == w.asked[key])
  }

  /** One of the three callbacks while unbound, or a binding to another agent
      than the stream asked for. Losing the binding and getting it back is none. */
  ghost predicate Disturbs(w: System, step: Step, sid: SessionId, k: StreamId)
    requires Enabled(w, step) && Open(w, sid, k)
  {
    || (w.sessions[sid].agent.None? && Readies(w, step, sid, k))
    || (step.Bind? && step.session == sid && step.agent.Some?
        && (StreamKey(sid, k) in w.asked ==> w.asked[StreamKey(sid, k)] != step.agent.value))
  }

  /** A step ends the calm of a stream that it leaves open if and only if it disturbs it. */
  lemma CalmExactly(w: System, step: Step, sid: SessionId, k: StreamId)
    requires Flags(w) && Enabled(w, step) && Open(w, sid, k) && Calm(w, sid, k) && Open(Next(w, step), sid, k)
    ensures Calm(Next(w, step), sid, k) <==> !Disturbs(w, step, sid, k)
  {
    StrandedExactly(w, step, sid, k);
    if step.Bind? {
      assert Next(w, step).asked == w.asked;
    } else {
      hide Next, Startable, Readies, Flags;
    }
  }

  /** A stream is calm when it is opened. */
  lemma OpenedCalm(w: System, step: Step, sid: SessionId, k: StreamId)
    requires Flags(w) && Enabled(w, step) && !Open(w, sid, k) && Open(Next(w, step), sid, k)
    ensures Calm(Next(w, step), sid, k)
  {
    assert step == OpenStream(sid, k) && w.sessions[sid].agent.Some? by {
      OnlyOpened(w, step, sid, k);
    }
    var key := StreamKey(sid, k);
    var mid := Joined(w, sid, k);
    assert Open(mid, sid, k) && Startable(mid.sessions[sid].streams[k]);
    assert k in Started(mid.sessions[sid]);
    StartStream(mid, sid, sid, k);
  }

  lemma StartOpensNothing(w: System, s: SessionId, sid: SessionId, k: StreamId)
    requires s in w.sessions && Open(StartIn(w, s), sid, k)
    ensures Open(w, sid, k)
  {
  }

  lemma HeardOpensNothing(w: System, t: Ticket, payload: Bytes, sid: SessionId, k: StreamId)
    requires Enabled(w, HearClaim(t, payload)) && Open(Heard(w, t, payload), sid, k)
    ensures Open(w, sid, k)
  {
    hide FrameCodec.Frame, HeardLogs;
  }

  lemma SentOpensNothing(w: System, s: SessionId, sid: SessionId, k: StreamId)
    requires s in w.sessions && Open(SentOut(w, s), sid, k)
    ensures Open(w, sid, k)
  {
    hide FinalizeSent;
  }

  lemma NotifiedOpensNothing(w: System, m: PostId, sid: SessionId, k: StreamId)
    requires m in w.posted && Live(w, w.posted[m]) && Open(Notified(w, m), sid, k)
    ensures Open(w, sid, k)
  {
  }

  /** The callbacks that start claims, opening a stream aside. */
  lemma CallbackOpensNothing(w: System, step: Step, sid: SessionId, k: StreamId)
    requires Enabled(w, step) && (step.HearNotice? || step.HearClaim? || step.Wrote?) && Open(Next(w, step), sid, k)
    ensures Open(w, sid, k)
  {
    hide StartIn, Heard, SentOut, Notified;
    match step
    case HearNotice(m) =>
      if Live(w, w.posted[m]) {
        StartOpensNothing(Notified(w, m), w.posted[m], sid, k);
        NotifiedOpensNothing(w, m, sid, k);
      }
    case HearClaim(t, payload) =>
      if HeardStarts(w, t) {
        StartOpensNothing(Heard(w, t, payload), t.session, sid, k);
      }
      HeardOpensNothing(w, t, payload, sid, k);
    case Wrote(s) =>
      if Live(w, s) {
        StartOpensNothing(SentOut(w, s), s, sid, k);
      }
      SentOpensNothing(w, s, sid, k);
  }

  lemma ElsewhereOpensNothing(w: System, step: Step, sid: SessionId, k: StreamId)
    requires Enabled(w, step) && !(step.OpenStream? || step.HearNotice? || step.HearClaim? || step.Wrote?)
    requires Open(Next(w, step), sid, k)
    ensures Open(w, sid, k)
  {
    hide StartIn, P.Next, Notifies, P.Enabled, FirstClaimable;
  }

  lemma OnlyOpened(w: System, step: Step, sid: SessionId, k: StreamId)
    requires Enabled(w, step) && !Open(w, sid, k) && Open(Next(w, step), sid, k)
    ensures step == OpenStream(sid, k) && w.sessions[sid].agent.Some?
  {
    hide StartIn;
    if step.HearNotice? || step.HearClaim? || step.Wrote? {
      CallbackOpensNothing(w, step, sid, k);
    } else if step.OpenStream? {
      var s, id := step.session, step.stream;
      if w.sessions[s].agent.Some? {
        StartOpensNothing(Joined(w, s, id), s, sid, k);
      }
    } else {
      ElsewhereOpensNothing(w, step, sid, k);
    }
  }

  ghost predicate Undisturbed(steps: seq<Step>, sid: SessionId, k: StreamId)
    decreases |steps|
  {
    steps != [] ==>
      var before, step := steps[..|steps| - 1], steps[|steps| - 1];
      && Undisturbed(before, sid, k)
      && (Enabled(Run(before), step) && Open(Run(before), sid, k) ==> !Disturbs(Run(before), step, sid, k))
  }

  lemma {:induction false} UndisturbedIsCalm(steps: seq<Step>, sid: SessionId, k: StreamId)
    requires Undisturbed(steps, sid, k) && Open(Run(steps), sid, k)
    ensures Calm(Run(steps), sid, k)
    decreases |steps|
  {
    if steps != [] {
      var before, step := steps[..|steps| - 1], steps[|steps| - 1];
      RunAwake(before);
      if Open(Run(before), sid, k) {
        UndisturbedIsCalm(before, sid, k);
        if Enabled(Run(before), step) {
          CalmExactly(Run(before), step, sid, k);
        }
      } else {
        OpenedCalm(Run(before), step, sid, k);
      }
    }
  }
}
