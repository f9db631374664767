/**
 Wake-ups that are lost: every state with a stranded stream on an unbound
 connection can be continued to one in which all that was under way has been
 delivered, the agent is bound and has a claimable task, and the stream sleeps.
 */
module CommandSleep {
  import opened Prelude
  import opened ServerStore
  import opened CommandSession
  import opened CommandSystem
  import opened CommandWakeUp
  import opened CommandStranding
  import opened CommandQuiet
  import opened CommandLoss
  import FrameCodec
  import P = TaskProtocol

  // ------------------------------------------------------- what is under way

  lemma RunStep(steps: seq<Step>, step: Step)
    requires Enabled(Run(steps), step)
    ensures Run(steps + [step]) == Next(Run(steps), step)
  {
    assert (steps + [step])[..|steps|] == steps;
  }

  lemma RunFlags(steps: seq<Step>)
    ensures Flags(Run(steps))
  {
    RunAwake(steps);
  }

  /** The stream is stranded on a connection without an agent. */
  ghost predicate Stranded(w: System, sid: SessionId, k: StreamId) {
    Open(w, sid, k) && w.sessions[sid].agent.None? && Startable(w.sessions[sid].streams[k])
  }

  /** Time and the set of tasks stay. */
  ghost predicate Kept(w: System, w': System) {
    w'.now == w.now && w'.core.store.tasks.Keys == w.core.store.tasks.Keys
  }

  function Queued(w: System): (r: set<Ticket>) {
    set t | t in w.claims && w.claims[t].InQueue?
  }

  /** The claims of a session's open streams. */
  function Claiming(w: System, sid: SessionId): (r: set<Ticket>) {
    set t | t in w.claims && t.session == sid && Open(w, sid, t.stream)
  }

  /** Its streams with unread command bytes. */
  function Unsent(w: System, sid: SessionId): (r: set<StreamId>)
    requires Live(w, sid)
  {
    set k | k in w.sessions[sid].streams && w.sessions[sid].streams[k].offset < |w.sessions[sid].streams[k].body|
  }

  /** The messages on their way to a session. */
  function Addressed(posts: map<PostId, SessionId>, sid: SessionId): (r: set<PostId>) {
    set m | m in posts && posts[m] == sid
  }

  // ------------------------------------------------------- delivering it

  lemma ExecuteOne(w: System, t: Ticket, sid: SessionId, k: StreamId) returns (step: Step)
    requires Stranded(w, sid, k) && t in Queued(w)
    ensures Enabled(w, step) && var w' := Next(w, step); Stranded(w', sid, k) && Kept(w, w') && Queued(w') < Queued(w)
  {
    var choice := ClaimCanExecute(w.core.store, w.claims[t].agentId, w.claims[t].at);
    var n := FreshNotice(w.notices.Keys);
    step := Execute(t, choice, n);
    var w' := Next(w, step);
    assert w'.sessions == w.sessions && w'.claims == w.claims[t := Done(choice)];
    assert t !in Queued(w');
  }

  lemma {:induction false} RunClaims(steps: seq<Step>, sid: SessionId, k: StreamId) returns (more: seq<Step>)
    requires Stranded(Run(steps), sid, k)
    ensures var w, w' := Run(steps), Run(steps + more); Stranded(w', sid, k) && Kept(w, w') && Queued(w') == {}
    decreases Queued(Run(steps))
  {
    hide Next, Enabled, Run, Stranded, Queued;
    if Queued(Run(steps)) == {} {
      more := [];
      assert steps + more == steps;
    } else {
      var t :| t in Queued(Run(steps));
      var step := ExecuteOne(Run(steps), t, sid, k);
      RunStep(steps, step);
      var rest := RunClaims(steps + [step], sid, k);
      more := [step] + rest;
      assert steps + more == (steps + [step]) + rest;
    }
  }

  lemma WriteJobOne(w: System, job: nat, sid: SessionId, k: StreamId) returns (step: Step)
    requires Stranded(w, sid, k) && Queued(w) == {} && job in w.core.jobs
    ensures Enabled(w, step) && var w' := Next(w, step);
      Stranded(w', sid, k) && Kept(w, w') && Queued(w') == {} && w'.core.jobs.Keys < w.core.jobs.Keys
  {
    var n := FreshNotice(w.notices.Keys);
    step := Core(P.WriteJob(job, true), n);
    var w' := Next(w, step);
    assert w' == w.(core := w'.core, notices := w'.notices);
    assert w'.core == P.Finish(w.core, job, true);
    assert job !in w'.core.jobs;
  }

  lemma {:induction false} RunJobs(steps: seq<Step>, sid: SessionId, k: StreamId) returns (more: seq<Step>)
    requires Stranded(Run(steps), sid, k) && Queued(Run(steps)) == {}
    ensures var w, w' := Run(steps), Run(steps + more);
      Stranded(w', sid, k) && Kept(w, w') && Queued(w') == {} && w'.core.jobs.Keys == {}
    decreases Run(steps).core.jobs.Keys
  {
    hide Next, Enabled, Run, Stranded, Queued;
    if Run(steps).core.jobs.Keys == {} {
      more := [];
      assert steps + more == steps;
    } else {
      var job: nat :| job in Run(steps).core.jobs;
      var step := WriteJobOne(Run(steps), job, sid, k);
      RunStep(steps, step);
      var rest := RunJobs(steps + [step], sid, k);
      more := [step] + rest;
      assert steps + more == (steps + [step]) + rest;
    }
  }

  /** No claim is in the queue and no checked event waits to be written. */
  ghost predicate Idle(w: System) { Queued(w) == {} && w.core.jobs.Keys == {} }

  /** A stream with a failed claim is reset by the agent. */
  lemma ResetOne(w: System, t: Ticket, sid: SessionId, k: StreamId)
    requires Stranded(w, sid, k) && Idle(w) && t in Claiming(w, sid) && t.stream != k
    ensures var step := CloseStream(sid, t.stream);
      && Enabled(w, step) && var w' := Next(w, step);
      Stranded(w', sid, k) && Kept(w, w') && Idle(w') && Claiming(w', sid) < Claiming(w, sid)
  {
    var w' := Next(w, CloseStream(sid, t.stream));
    assert w' == w.(sessions := w'.sessions);
    assert Queued(w') == Queued(w);
    assert t !in Claiming(w', sid);
  }

  lemma HearSibling(w: System, t: Ticket, sid: SessionId, k: StreamId)
    requires Stranded(w, sid, k) && Idle(w) && t in Claiming(w, sid) && t.stream != k && w.claims[t].Done?
    ensures var step := HearClaim(t, []);
      && Enabled(w, step) && var w' := Next(w, step);
      Stranded(w', sid, k) && Kept(w, w') && Idle(w') && Claiming(w', sid) < Claiming(w, sid)
  {
    HeardUnbound(w, t);
    hide Next, Startable;
  }

  /** A claim of another stream is heard; after a failed one that stream is reset. */
  lemma SiblingOne(w: System, t: Ticket, sid: SessionId, k: StreamId) returns (step: Step)
    requires Flags(w) && Stranded(w, sid, k) && Idle(w) && t in Claiming(w, sid)
    ensures Enabled(w, step) && var w' := Next(w, step);
      Stranded(w', sid, k) && Kept(w, w') && Idle(w') && Claiming(w', sid) < Claiming(w, sid)
  {
    assert FlagsHonest(w, sid, k);
    assert t !in Queued(w) && For(t, sid, t.stream);
    if w.claims[t].Broken? {
      step := CloseStream(sid, t.stream);
      ResetOne(w, t, sid, k);
    } else {
      step := HearClaim(t, []);
      HearSibling(w, t, sid, k);
    }
  }

  lemma UnboundStartsNothing(w: System, t: Ticket)
    requires t in w.claims && w.claims[t].Done? && Live(w, t.session) && w.sessions[t.session].agent.None?
    ensures Next(w, HearClaim(t, [])) == Heard(w, t, [])
  {
    hide HeardLogs, FrameCodec.Frame, TryStart, AskedBy, Submitted;
  }

  lemma HeardUnbound(w: System, t: Ticket)
    requires t in w.claims && w.claims[t].Done? && Open(w, t.session, t.stream) && w.sessions[t.session].agent.None?
    ensures var w' := Next(w, HearClaim(t, []));
      && w' == w.(sessions := w'.sessions, claims := w.claims - {t}, logs := w'.logs)
      && Live(w', t.session) && w'.sessions[t.session].agent.None?
      && w'.sessions[t.session].streams.Keys == w.sessions[t.session].streams.Keys
      && (forall k :: k in w.sessions[t.session].streams && k != t.stream ==>
            w'.sessions[t.session].streams[k] == w.sessions[t.session].streams[k])
  {
    UnboundStartsNothing(w, t);
    hide Next, HeardLogs, FrameCodec.Frame;
  }

  lemma {:induction false} RunSiblings(steps: seq<Step>, sid: SessionId, k: StreamId) returns (more: seq<Step>)
    requires Stranded(Run(steps), sid, k) && Idle(Run(steps))
    ensures var w, w' := Run(steps), Run(steps + more);
      Stranded(w', sid, k) && Kept(w, w') && Idle(w') && Claiming(w', sid) == {}
    decreases Claiming(Run(steps), sid)
  {
    hide Next, Enabled, Run, Stranded, Idle, Claiming, Flags;
    if Claiming(Run(steps), sid) == {} {
      more := [];
      assert steps + more == steps;
    } else {
      var t :| t in Claiming(Run(steps), sid);
      RunFlags(steps);
      var step := SiblingOne(Run(steps), t, sid, k);
      RunStep(steps, step);
      var rest := RunSiblings(steps + [step], sid, k);
      more := [step] + rest;
      assert steps + more == (steps + [step]) + rest;
    }
  }

  /** Also, no stream of the session has a claim. */
  ghost predicate Unclaimed(w: System, sid: SessionId) { Idle(w) && Claiming(w, sid) == {} }

  lemma ReadOne(w: System, j: StreamId, sid: SessionId, k: StreamId) returns (step: Step)
    requires Flags(w) && Stranded(w, sid, k) && Unclaimed(w, sid) && j in Unsent(w, sid)
    ensures Enabled(w, step) && var w' := Next(w, step);
      Stranded(w', sid, k) && Kept(w, w') && Unclaimed(w', sid) && Unsent(w', sid) < Unsent(w, sid)
  {
    var c := w.sessions[sid].streams[j];
    step := ReadSome(sid, j, |c.body| - c.offset);
    var w' := Next(w, step);
    assert w' == w.(sessions := w'.sessions, logs := w'.logs);
    assert Claiming(w', sid) == Claiming(w, sid) && Queued(w') == Queued(w);
    assert j !in Unsent(w', sid);
  }

  lemma {:induction false} RunReads(steps: seq<Step>, sid: SessionId, k: StreamId) returns (more: seq<Step>)
    requires Stranded(Run(steps), sid, k) && Unclaimed(Run(steps), sid)
    ensures var w, w' := Run(steps), Run(steps + more);
      Stranded(w', sid, k) && Kept(w, w') && Unclaimed(w', sid) && Unsent(w', sid) == {}
    decreases Unsent(Run(steps), sid)
  {
    hide Next, Enabled, Run, Unclaimed, Flags;
    if Unsent(Run(steps), sid) == {} {
      more := [];
      assert steps + more == steps;
    } else {
      var j :| j in Unsent(Run(steps), sid);
      RunFlags(steps);
      var step := ReadOne(Run(steps), j, sid, k);
      RunStep(steps, step);
      var rest := RunReads(steps + [step], sid, k);
      more := [step] + rest;
      assert steps + more == (steps + [step]) + rest;
    }
  }

  /** Also, every command has been read to its end. */
  ghost predicate ReadUp(w: System, sid: SessionId) { Live(w, sid) && Unclaimed(w, sid) && Unsent(w, sid) == {} }

  lemma AnswerOne(w: System, m: PostId, sid: SessionId, k: StreamId) returns (step: Step)
    requires Stranded(w, sid, k) && ReadUp(w, sid) && m in Addressed(w.replies, sid)
    ensures Enabled(w, step) && var w' := Next(w, step);
      Stranded(w', sid, k) && Kept(w, w') && ReadUp(w', sid) && Addressed(w'.replies, sid) < Addressed(w.replies, sid)
  {
    step := HearReply(m);
    var w' := Next(w, step);
    assert w' == w.(sessions := w'.sessions, replies := w'.replies);
    assert w'.sessions[sid].streams == w.sessions[sid].streams;
    assert Claiming(w', sid) == Claiming(w, sid) && Queued(w') == Queued(w) && Unsent(w', sid) == Unsent(w, sid);
    assert m !in Addressed(w'.replies, sid);
  }

  lemma {:induction false} RunAnswers(steps: seq<Step>, sid: SessionId, k: StreamId) returns (more: seq<Step>)
    requires Stranded(Run(steps), sid, k) && ReadUp(Run(steps), sid)
    ensures var w, w' := Run(steps), Run(steps + more);
      Stranded(w', sid, k) && Kept(w, w') && ReadUp(w', sid) && Addressed(w'.replies, sid) == {}
    decreases Addressed(Run(steps).replies, sid)
  {
    hide Next, Enabled, Run, Stranded, ReadUp, Addressed;
    if Addressed(Run(steps).replies, sid) == {} {
      more := [];
      assert steps + more == steps;
    } else {
      var m :| m in Addressed(Run(steps).replies, sid);
      var step := AnswerOne(Run(steps), m, sid, k);
      RunStep(steps, step);
      var rest := RunAnswers(steps + [step], sid, k);
      more := [step] + rest;
      assert steps + more == (steps + [step]) + rest;
    }
  }

  /** Also, every ended event stream is answered. */
  ghost predicate AnsweredUp(w: System, sid: SessionId) { ReadUp(w, sid) && Addressed(w.replies, sid) == {} }

  lemma WriteOne(w: System, sid: SessionId, k: StreamId)
    requires Flags(w) && Stranded(w, sid, k) && AnsweredUp(w, sid) && w.sessions[sid].writing
    ensures var step := Wrote(sid);
      && Enabled(w, step) && var w' := Next(w, step);
      Stranded(w', sid, k) && Kept(w, w') && AnsweredUp(w', sid)
      && w'.sessions[sid].pendingWrites < w.sessions[sid].pendingWrites
  {
    var w' := SentOut(w, sid);
    StrandedExactly(w, Wrote(sid), sid, k);
    assert Next(w, Wrote(sid)) == w' == w.(sessions := w'.sessions);
    assert Claiming(w', sid) == Claiming(w, sid) && Queued(w') == Queued(w);
    assert forall j :: j in Unsent(w', sid) ==> j in Unsent(w, sid);
  }

  lemma {:induction false} RunWrites(steps: seq<Step>, sid: SessionId, k: StreamId) returns (more: seq<Step>)
    requires Stranded(Run(steps), sid, k) && AnsweredUp(Run(steps), sid)
    ensures var w, w' := Run(steps), Run(steps + more);
      Stranded(w', sid, k) && Kept(w, w') && AnsweredUp(w', sid) && !w'.sessions[sid].writing
    decreases Run(steps).sessions[sid].pendingWrites
  {
    hide Next, Enabled, Run, AnsweredUp, Flags;
    if !Run(steps).sessions[sid].writing {
      more := [];
      assert steps + more == steps;
    } else {
      RunFlags(steps);
      WriteOne(Run(steps), sid, k);
      RunStep(steps, Wrote(sid));
      var rest := RunWrites(steps + [Wrote(sid)], sid, k);
      more := [Wrote(sid)] + rest;
      assert steps + more == (steps + [Wrote(sid)]) + rest;
    }
  }

  /** Everything under way for the session has been delivered but notifications. */
  ghost predicate Still(w: System, sid: SessionId) { AnsweredUp(w, sid) && !w.sessions[sid].writing }

  lemma {:induction false} Deliver(steps: seq<Step>, sid: SessionId, k: StreamId) returns (more: seq<Step>)
    requires Stranded(Run(steps), sid, k)
    ensures var w, w' := Run(steps), Run(steps + more); Stranded(w', sid, k) && Kept(w, w') && Still(w', sid)
  {
    hide Next, Enabled, Run, Queued, Claiming, Addressed;
    var claims := RunClaims(steps, sid, k);
    var s1 := steps + claims;
    var jobs := RunJobs(s1, sid, k);
    var s2 := s1 + jobs;
    var siblings := RunSiblings(s2, sid, k);
    var s3 := s2 + siblings;
    var commands := RunReads(s3, sid, k);
    var s4 := s3 + commands;
    var answers := RunAnswers(s4, sid, k);
    var s5 := s4 + answers;
    var writes := RunWrites(s5, sid, k);
    more := claims + jobs + siblings + commands + answers + writes;
    assert steps + more == s5 + writes;
  }

  // ------------------------------------------------------- notifications

  function Unread(notices: map<NoticeId, Notice>): (r: set<NoticeId>) {
    set n | n in notices && notices[n].Unread?
  }

  function ToPost(notices: map<NoticeId, Notice>, sid: SessionId): (r: set<NoticeId>) {
    set n | n in notices && notices[n].Posting? && sid in notices[n].todo
  }

  /** How many steps away the notifications owed to a session are from being heard. */
  function Debt(w: System, sid: SessionId): (r: nat) {
    3 * |Unread(w.notices)| + 2 * |ToPost(w.notices, sid)| + |Addressed(w.posted, sid)|
  }

  lemma OwedIsDebt(w: System, sid: SessionId)
    ensures Owed(w, sid) <==> Unread(w.notices) != {} || ToPost(w.notices, sid) != {} || Addressed(w.posted, sid) != {}
  {
    if m :| m in w.posted && w.posted[m] == sid {
      assert m in Addressed(w.posted, sid);
    }
    if n :| n in w.notices && (w.notices[n].Unread? || sid in w.notices[n].todo) {
      assert n in Unread(w.notices) || n in ToPost(w.notices, sid);
    }
  }

  /** Hearing, posting and copying change nothing that was still. */
  lemma StillKept(w: System, w': System, sid: SessionId)
    requires Still(w, sid) && Live(w', sid)
    requires w' == w.(sessions := w'.sessions, posted := w'.posted, notices := w'.notices)
    requires w'.sessions[sid].streams.Keys == w.sessions[sid].streams.Keys && !w'.sessions[sid].writing
    requires forall k :: k in w.sessions[sid].streams ==>
      && w'.sessions[sid].streams[k].body == w.sessions[sid].streams[k].body
      && w'.sessions[sid].streams[k].offset == w.sessions[sid].streams[k].offset
    ensures Still(w', sid)
  {
    assert Queued(w') == Queued(w) && Claiming(w', sid) == Claiming(w, sid) && Unsent(w', sid) == Unsent(w, sid);
  }

  lemma HearOne(w: System, m: PostId, sid: SessionId, k: StreamId)
    requires Flags(w) && Stranded(w, sid, k) && Still(w, sid) && m in Addressed(w.posted, sid)
    ensures var w' := Next(w, HearNotice(m));
      && Enabled(w, HearNotice(m))
      && Stranded(w', sid, k) && Still(w', sid) && w'.core == w.core && w'.now == w.now && Debt(w', sid) < Debt(w, sid)
  {
    var w' := Notified(w, m);
    StrandedExactly(w, HearNotice(m), sid, k);
    assert Next(w, HearNotice(m)) == w' == w.(sessions := w'.sessions, posted := w.posted - {m});
    assert m !in Addressed(w'.posted, sid) && Addressed(w'.posted, sid) == Addressed(w.posted, sid) - {m};
    hide Still;
    StillKept(w, w', sid);
  }

  lemma PostedDebt(notices: map<NoticeId, Notice>, n: NoticeId, sid: SessionId)
    requires n in ToPost(notices, sid)
    ensures var after := notices[n := Posting(notices[n].todo - {sid})];
      Unread(after) == Unread(notices) && |ToPost(after, sid)| == |ToPost(notices, sid)| - 1
  {
    var after := notices[n := Posting(notices[n].todo - {sid})];
    assert Unread(after) == Unread(notices);
    assert ToPost(after, sid) == ToPost(notices, sid) - {n};
  }

  lemma AddressedMore(posted: map<PostId, SessionId>, sid: SessionId, m: PostId)
    requires m !in posted
    ensures |Addressed(posted[m := sid], sid)| == |Addressed(posted, sid)| + 1
  {
    assert Addressed(posted[m := sid], sid) == Addressed(posted, sid) + {m};
  }

  lemma PostOne(w: System, n: NoticeId, sid: SessionId, k: StreamId, m: PostId)
    requires Stranded(w, sid, k) && Still(w, sid) && n in ToPost(w.notices, sid) && m !in w.posted
    ensures var step := Post(n, sid, m);
      && Enabled(w, step) && var w' := Next(w, step);
      Stranded(w', sid, k) && Still(w', sid) && w'.core == w.core && w'.now == w.now && Debt(w', sid) < Debt(w, sid)
  {
    hide Startable, Unread, Addressed, Still;
    var w' := Next(w, Post(n, sid, m));
    PostedDebt(w.notices, n, sid);
    AddressedMore(w.posted, sid, m);
    assert w' == w.(notices := w.notices[n := Posting(w.notices[n].todo - {sid})], posted := w'.posted);
    hide ToPost, Next, Enabled;
    assert !w.sessions[sid].writing by { StillWrites(w, sid); }
    StillKept(w, w', sid);
  }

  lemma StillWrites(w: System, sid: SessionId)
    requires Still(w, sid)
    ensures Live(w, sid) && !w.sessions[sid].writing
  {
  }

  lemma CopyOne(w: System, n: NoticeId, sid: SessionId, k: StreamId)
    requires Stranded(w, sid, k) && Still(w, sid) && n in Unread(w.notices)
    ensures Enabled(w, Copy(n)) && var w' := Next(w, Copy(n));
      Stranded(w', sid, k) && Still(w', sid) && w'.core == w.core && w'.now == w.now && Debt(w', sid) < Debt(w, sid)
  {
    var w' := Next(w, Copy(n));
    assert w' == w.(notices := w'.notices);
    assert Unread(w'.notices) == Unread(w.notices) - {n};
    assert n !in ToPost(w.notices, sid) && ToPost(w'.notices, sid) == ToPost(w.notices, sid) + {n};
    StillWrites(w, sid);
    hide Still, Next, Startable;
    StillKept(w, w', sid);
  }

  lemma PayOne(w: System, sid: SessionId, k: StreamId) returns (step: Step)
    requires Flags(w) && Stranded(w, sid, k) && Still(w, sid) && Owed(w, sid)
    ensures Enabled(w, step) && var w' := Next(w, step);
      Stranded(w', sid, k) && Still(w', sid) && w'.core == w.core && w'.now == w.now && Debt(w', sid) < Debt(w, sid)
  {
    OwedIsDebt(w, sid);
    hide Next, Stranded, Debt, Flags, Still;
    if m :| m in Addressed(w.posted, sid) {
      step := HearNotice(m);
      HearOne(w, m, sid, k);
    } else if n :| n in ToPost(w.notices, sid) {
      var m := FreshPost(w.posted.Keys);
      step := Post(n, sid, m);
      PostOne(w, n, sid, k, m);
    } else {
      var n :| n in Unread(w.notices);
      step := Copy(n);
      CopyOne(w, n, sid, k);
    }
  }

  /** All that is owed to an unbound session can be heard, and is used up without a claim. */
  lemma {:induction false} Drain(steps: seq<Step>, sid: SessionId, k: StreamId) returns (more: seq<Step>)
    requires Stranded(Run(steps), sid, k) && Still(Run(steps), sid)
    ensures var w, w' := Run(steps), Run(steps + more);
      Stranded(w', sid, k) && Still(w', sid) && w'.core == w.core && w'.now == w.now && !Owed(w', sid)
    decreases Debt(Run(steps), sid)
  {
    hide Next, Enabled, Run, Stranded, Still, Flags, Debt;
    if Owed(Run(steps), sid) {
      RunFlags(steps);
      var step := PayOne(Run(steps), sid, k);
      RunStep(steps, step);
      var rest := Drain(steps + [step], sid, k);
      more := [step] + rest;
      assert steps + more == (steps + [step]) + rest;
    } else {
      more := [];
      assert steps + more == steps;
    }
  }

  // ------------------------------------------------------- losing a wake-up

  lemma {:induction false} Deadline(s: Store, ids: set<string>, now: int) returns (at: int)
    requires ids <= s.tasks.Keys
    ensures now <= at && forall id :: id in ids ==> s.tasks[id].task.expiresAt <= at
    decreases ids
  {
    if ids == {} {
      at := now;
    } else {
      var id :| id in ids;
      at := Deadline(s, ids - {id}, now);
      if at < s.tasks[id].task.expiresAt {
        at := s.tasks[id].task.expiresAt;
      }
    }
  }

  /** Steps outside the sessions keep what was still. */
  lemma StillAround(w: System, w': System, sid: SessionId, k: StreamId)
    requires Stranded(w, sid, k) && Still(w, sid)
    requires w' == w.(core := w'.core, now := w'.now, notices := w'.notices) && w'.core.jobs.Keys == {}
    ensures Stranded(w', sid, k) && Still(w', sid)
  {
    assert Queued(w') == Queued(w) && Claiming(w', sid) == Claiming(w, sid) && Unsent(w', sid) == Unsent(w, sid);
  }

  /** Binding a still session to the only agent with a claimable task. */
  lemma BoundIsQuiet(w: System, sid: SessionId, k: StreamId, agentId: string)
    requires Flags(w) && Stranded(w, sid, k) && Still(w, sid) && !Owed(w, sid)
    requires forall other :: other != agentId ==> !AnyClaimable(w.core.store, other, w.now)
    ensures var w' := BoundTo(w, sid, Some(agentId), None);
      AllQuiet(w') && NoneFailed(w', sid) && Open(w', sid, k) && w'.sessions[sid].agent == Some(agentId)
  {
    hide AnyClaimable;
    var w' := BoundTo(w, sid, Some(agentId), None);
    forall t | t in w'.claims ensures !w'.claims[t].InQueue? {
      assert t !in Queued(w);
    }
    forall t | t in w'.claims && t.session == sid ensures !Open(w', sid, t.stream) {
      assert t !in Claiming(w, sid);
    }
    forall job ensures !Reporting(w'.core, job) {
      assert job !in w.core.jobs.Keys;
    }
    forall s, j | HasWork(w', s, j) ensures Settled(w', s, j) {
      assert w'.sessions[s].agent == Some(agentId);
      assert s == sid;
      BoundIsSettled(w, sid, j, agentId);
    }
  }

  lemma BoundIsSettled(w: System, sid: SessionId, j: StreamId, agentId: string)
    requires Flags(w) && Still(w, sid) && !Owed(w, sid) && Open(w, sid, j)
    ensures Settled(BoundTo(w, sid, Some(agentId), None), sid, j)
  {
    var w' := BoundTo(w, sid, Some(agentId), None);
    assert FlagsHonest(w, sid, j) && j !in Unsent(w, sid);
    forall t | t in w'.claims ensures !For(t, sid, j) {
      assert t !in Claiming(w, sid);
    }
    forall m | m in w'.replies ensures w'.replies[m] != sid {
      assert m !in Addressed(w.replies, sid);
    }
    OwedSame(w, w', sid);
  }

  /** From every reachable state with a stranded stream on an unbound connection,
      for every agent: what is under way is delivered, time passes, a task is
      enqueued and announced, and the agent is bound by an event of a stream that
      goes on; and the wake-up is lost. */
  lemma StrandedCanLose(steps: seq<Step>, sid: SessionId, k: StreamId, taskId: string, agentId: string)
    returns (more: seq<Step>)
    requires Stranded(Run(steps), sid, k) && taskId !in Run(steps).core.store.tasks
    ensures var w := Run(steps + more);
      Lost(w, sid, k) && w.sessions[sid].agent == Some(agentId) && Claimable(w.core.store, taskId, agentId, w.now)
  {
    hide Next, Enabled, Run, Stranded, Still, Flags, Lost, AnyClaimable;
    var first := Deliver(steps, sid, k);
    var s1 := steps + first;
    var second := NewTask(s1, sid, k, taskId, agentId);
    var s2 := s1 + second;
    var third := Drain(s2, sid, k);
    var s3 := s2 + third;
    var bind := Bind(sid, Some(agentId), None);
    more := first + second + third + [bind];
    assert steps + more == s3 + [bind];
    BindLoses(s3, sid, k, taskId, agentId);
  }

  /** All earlier tasks expire, and a task for the agent is enqueued. */
  lemma NewTask(steps: seq<Step>, sid: SessionId, k: StreamId, taskId: string, agentId: string)
    returns (more: seq<Step>)
    requires Stranded(Run(steps), sid, k) && Still(Run(steps), sid) && taskId !in Run(steps).core.store.tasks
    ensures var w := Run(steps + more);
      && Stranded(w, sid, k) && Still(w, sid) && Claimable(w.core.store, taskId, agentId, w.now)
      && forall other :: other != agentId ==> !AnyClaimable(w.core.store, other, w.now)
  {
    var w := Run(steps);
    var at := Deadline(w.core.store, w.core.store.tasks.Keys, w.now);
    var task := Task(taskId, agentId, CollectBasicInventory, at, at + 1);
    var n := FreshNotice(w.notices.Keys);
    var tick, enqueue := Tick(at - w.now), Core(P.Enqueue(task), n);
    RunStep(steps, tick);
    RunStep(steps + [tick], enqueue);
    more := [tick, enqueue];
    assert steps + more == (steps + [tick]) + [enqueue];
    var w' := Run(steps + more);
    assert w.core.jobs.Keys == {} by { StillIdle(w, sid); }
    hide Stranded, Still, Run;
    StillAround(w, w', sid, k);
  }

  lemma StillIdle(w: System, sid: SessionId)
    requires Still(w, sid)
    ensures w.core.jobs.Keys == {}
  {
  }

  lemma BindLoses(steps: seq<Step>, sid: SessionId, k: StreamId, taskId: string, agentId: string)
    requires var w := Run(steps);
      && Stranded(w, sid, k) && Still(w, sid) && !Owed(w, sid)
      && Claimable(w.core.store, taskId, agentId, w.now)
      && forall other :: other != agentId ==> !AnyClaimable(w.core.store, other, w.now)
    ensures var w := Run(steps + [Bind(sid, Some(agentId), None)]);
      Lost(w, sid, k) && w.sessions[sid].agent == Some(agentId) && Claimable(w.core.store, taskId, agentId, w.now)
  {
    var w, bind := Run(steps), Bind(sid, Some(agentId), None);
    RunFlags(steps);
    BoundIsQuiet(w, sid, k, agentId);
    RunStep(steps, bind);
    hide Run, AllQuiet, NoneFailed, Stranded, Still, Flags;
    LostExactly(steps + [bind], sid, k);
  }
}
