/**
 Delivery end to end: from the claims executed in the store to the commands an
 agent's frame decoder yields.
 */
module CommandDelivery {
  import opened Prelude
  import opened CommandSession
  import opened CommandSystem
  import FrameCodec
  import P = TaskProtocol

  // ------------------------------------------------------- delivery

  function Payloads(commands: seq<Delivery>): (r: seq<Bytes>)
    ensures |r| == |commands|
    ensures forall i :: 0 <= i < |r| ==> r[i] == commands[i].payload
  {
    seq(|commands|, i requires 0 <= i < |commands| => commands[i].payload)
  }

  function TaskIds(commands: seq<Delivery>): (r: seq<string>)
    ensures |r| == |commands|
    ensures forall i :: 0 <= i < |r| ==> r[i] == commands[i].taskId
  {
    seq(|commands|, i requires 0 <= i < |commands| => commands[i].taskId)
  }

  /** The tasks handed to one stream, in the order the claims were executed. */
  function HandedTo(handed: seq<Hand>, key: StreamKey): (r: seq<string>)
    decreases |handed|
  {
    if handed == [] then []
    else
      var before, last := HandedTo(handed[..|handed| - 1], key), handed[|handed| - 1];
      if last.key == key then before + [last.taskId] else before
  }

  lemma HandedToSnoc(handed: seq<Hand>, last: Hand, key: StreamKey)
    ensures HandedTo(handed + [last], key) ==
      if last.key == key then HandedTo(handed, key) + [last.taskId] else HandedTo(handed, key)
  {
    assert (handed + [last])[..|handed|] == handed;
  }

  /** A task claimed for the stream and not yet put on it. */
  ghost predicate InTransit(w: System, sid: SessionId, k: StreamId, taskId: string) {
    exists t :: t in w.claims && For(t, sid, k) && w.claims[t] == Done(Some(taskId))
  }

  /** What was read and what is left of the body are the frames of the commands
      in order. */
  predicate BytesFaithful(c: CommandStream, log: Log) {
    && c.offset <= |c.body|
    && FrameCodec.Encodable(Payloads(log.commands))
    && log.read + c.body[c.offset..] == FrameCodec.EncodeAll(Payloads(log.commands))
  }

  /** The commands and the one in transit are the tasks handed out. */
  ghost predicate HandsFaithful(w: System, sid: SessionId, k: StreamId, commands: seq<Delivery>) {
    var hands := HandedTo(w.handed, StreamKey(sid, k));
    && (forall id :: InTransit(w, sid, k, id) ==> hands == TaskIds(commands) + [id])
    && ((forall id :: !InTransit(w, sid, k, id)) ==> hands == TaskIds(commands))
  }

  ghost predicate Faithful(w: System, sid: SessionId, k: StreamId)
    requires Open(w, sid, k) && StreamKey(sid, k) in w.logs
  {
    && BytesFaithful(w.sessions[sid].streams[k], w.logs[StreamKey(sid, k)])
    && HandsFaithful(w, sid, k, w.logs[StreamKey(sid, k)].commands)
  }

  ghost predicate AllFaithful(w: System)
    requires Flags(w)
  {
    forall sid, k :: Open(w, sid, k) ==> FlagsHonest(w, sid, k) && Faithful(w, sid, k)
  }

  lemma HandsFrame(w: System, w': System, sid: SessionId, k: StreamId, commands: seq<Delivery>)
    requires HandsFaithful(w, sid, k, commands)
    requires HandedTo(w'.handed, StreamKey(sid, k)) == HandedTo(w.handed, StreamKey(sid, k))
    requires forall t, id :: For(t, sid, k) ==>
      (t in w'.claims && w'.claims[t] == Done(Some(id)) <==> t in w.claims && w.claims[t] == Done(Some(id)))
    ensures HandsFaithful(w', sid, k, commands)
  {
    forall id ensures InTransit(w', sid, k, id) <==> InTransit(w, sid, k, id) {
      SameTransit(w, w', sid, k, id);
    }
  }

  lemma FaithfulFrame(w: System, w': System, sid: SessionId, k: StreamId)
    requires Open(w, sid, k) && StreamKey(sid, k) in w.logs && Faithful(w, sid, k)
    requires Open(w', sid, k) && StreamKey(sid, k) in w'.logs && w'.logs[StreamKey(sid, k)] == w.logs[StreamKey(sid, k)]
    requires var c, c' := w.sessions[sid].streams[k], w'.sessions[sid].streams[k];
      c'.offset <= |c'.body| && c'.body[c'.offset..] == c.body[c.offset..]
    requires HandedTo(w'.handed, StreamKey(sid, k)) == HandedTo(w.handed, StreamKey(sid, k))
    requires forall t, id :: For(t, sid, k) ==>
      (t in w'.claims && w'.claims[t] == Done(Some(id)) <==> t in w.claims && w.claims[t] == Done(Some(id)))
    ensures Faithful(w', sid, k)
  {
    HandsFrame(w, w', sid, k, w.logs[StreamKey(sid, k)].commands);
  }

  lemma SameTransit(w: System, w': System, sid: SessionId, k: StreamId, id: string)
    requires forall t :: For(t, sid, k) ==>
      (t in w'.claims && w'.claims[t] == Done(Some(id)) <==> t in w.claims && w.claims[t] == Done(Some(id)))
    ensures InTransit(w', sid, k, id) <==> InTransit(w, sid, k, id)
  {
    if InTransit(w, sid, k, id) {
      var t :| t in w.claims && For(t, sid, k) && w.claims[t] == Done(Some(id));
      assert t in w'.claims && w'.claims[t] == Done(Some(id));
    }
  }

  lemma StartQuiet(w: System, sid: SessionId)
    requires sid in w.sessions
    ensures var w' := StartIn(w, sid); w'.core == w.core && w'.handed == w.handed && w'.logs == w.logs
  {
  }

  lemma StartBodies(w: System, sid: SessionId, sid': SessionId, k: StreamId)
    requires sid in w.sessions && Open(StartIn(w, sid), sid', k)
    ensures var w' := StartIn(w, sid);
      && Open(w, sid', k)
      && w'.sessions[sid'].streams[k].body == w.sessions[sid'].streams[k].body
      && w'.sessions[sid'].streams[k].offset == w.sessions[sid'].streams[k].offset
  {
    hide TryStart, AskedBy, Started, Submitted, Startable;
  }

  lemma StartTickets(w: System, sid: SessionId)
    requires sid in w.sessions && forall t :: t in w.claims ==> t.serial < w.serial
    ensures var w' := StartIn(w, sid);
      forall t, id ::
        (t in w'.claims && w'.claims[t] == Done(Some(id)) <==> t in w.claims && w.claims[t] == Done(Some(id)))
  {
    hide TryStart, AskedBy;
  }

  /** Starting claims delivers nothing and leaves bodies alone. */
  lemma StartDelivers(w: System, sid: SessionId)
    requires sid in w.sessions && forall t :: t in w.claims ==> t.serial < w.serial
    ensures var w' := StartIn(w, sid);
      && w'.handed == w.handed && w'.logs == w.logs
      && (forall t, id ::
            (t in w'.claims && w'.claims[t] == Done(Some(id)) <==> t in w.claims && w.claims[t] == Done(Some(id))))
      && (forall sid', k :: Open(w', sid', k) ==>
            && Open(w, sid', k)
            && w'.sessions[sid'].streams[k].body == w.sessions[sid'].streams[k].body
            && w'.sessions[sid'].streams[k].offset == w.sessions[sid'].streams[k].offset)
  {
    StartQuiet(w, sid);
    hide StartIn;
    var w' := StartIn(w, sid);
    StartTickets(w, sid);
    forall sid', k | Open(w', sid', k)
      ensures Open(w, sid', k)
      ensures w'.sessions[sid'].streams[k].body == w.sessions[sid'].streams[k].body
      ensures w'.sessions[sid'].streams[k].offset == w.sessions[sid'].streams[k].offset
    {
      StartBodies(w, sid, sid', k);
    }
  }

  lemma FaithfulStart(w: System, sid: SessionId)
    requires Flags(w) && AllFaithful(w) && sid in w.sessions
    ensures Flags(StartIn(w, sid)) && AllFaithful(StartIn(w, sid))
  {
    var w' := StartIn(w, sid);
    FlagsStart(w, sid);
    StartDelivers(w, sid);
    hide StartIn, BytesFaithful, HandsFaithful;
    forall sid', k | Open(w', sid', k) ensures FlagsHonest(w', sid', k) && Faithful(w', sid', k) {
      assert Open(w, sid', k) && FlagsHonest(w, sid', k) && Faithful(w, sid', k);
      FaithfulFrame(w, w', sid', k);
    }
  }

  /** Steps that neither touch a claim result nor a log nor unsent bytes. */
  lemma FaithfulKept(w: System, w': System)
    requires Flags(w) && AllFaithful(w) && Flags(w')
    requires w'.handed == w.handed
    requires forall t, id ::
      (t in w'.claims && w'.claims[t] == Done(Some(id)) <==> t in w.claims && w.claims[t] == Done(Some(id)))
    requires forall sid, k :: Open(w', sid, k) ==>
      && Open(w, sid, k)
      && StreamKey(sid, k) in w.logs && StreamKey(sid, k) in w'.logs
      && w'.logs[StreamKey(sid, k)] == w.logs[StreamKey(sid, k)]
      && var c, c' := w.sessions[sid].streams[k], w'.sessions[sid].streams[k];
         c' == c || c' == c.(refreshPending := true) || c' == Finalized(c)
    ensures AllFaithful(w')
  {
    forall sid, k | Open(w', sid, k) ensures FlagsHonest(w', sid, k) && Faithful(w', sid, k) {
      assert Open(w, sid, k) && FlagsHonest(w, sid, k) && Faithful(w, sid, k) && FlagsHonest(w', sid, k);
      var c, c' := w.sessions[sid].streams[k], w'.sessions[sid].streams[k];
      assert c'.body[c'.offset..] == c.body[c.offset..];
      FaithfulFrame(w, w', sid, k);
    }
  }

  /** Reading moves bytes from the body to the log. */
  lemma BytesRead(c: CommandStream, log: Log, n: nat)
    requires BytesFaithful(c, log) && c.offset + n <= |c.body|
    ensures BytesFaithful(c.(offset := c.offset + n), log.(read := log.read + c.body[c.offset..c.offset + n]))
  {
    var piece, rest := c.body[c.offset..c.offset + n], c.body[c.offset + n..];
    assert c.body[c.offset..] == piece + rest;
    assert (log.read + piece) + rest == log.read + (piece + rest);
  }

  lemma ReadOwn(w: System, w': System, sid: SessionId, k: StreamId, n: nat)
    requires Open(w, sid, k) && StreamKey(sid, k) in w.logs && Faithful(w, sid, k)
    requires w.sessions[sid].streams[k].offset + n <= |w.sessions[sid].streams[k].body|
    requires w'.claims == w.claims && w'.handed == w.handed
    requires Open(w', sid, k) && StreamKey(sid, k) in w'.logs
    requires var c, log := w.sessions[sid].streams[k], w.logs[StreamKey(sid, k)];
      && w'.sessions[sid].streams[k] == c.(offset := c.offset + n)
      && w'.logs[StreamKey(sid, k)] == log.(read := log.read + c.body[c.offset..c.offset + n])
    ensures Faithful(w', sid, k)
  {
    BytesRead(w.sessions[sid].streams[k], w.logs[StreamKey(sid, k)], n);
    hide BytesFaithful;
    HandsFrame(w, w', sid, k, w.logs[StreamKey(sid, k)].commands);
  }

  lemma ReadShape(w: System, sid: SessionId, k: StreamId, n: nat, sid': SessionId, k': StreamId)
    requires Enabled(w, ReadSome(sid, k, n)) && Open(w, sid', k') && StreamKey(sid', k') in w.logs
    ensures var w', key := Next(w, ReadSome(sid, k, n)), StreamKey(sid', k');
      && w'.claims == w.claims && w'.handed == w.handed
      && Open(w', sid', k') && key in w'.logs
      && (sid' != sid || k' != k ==>
            w'.sessions[sid'].streams[k'] == w.sessions[sid'].streams[k'] && w'.logs[key] == w.logs[key])
      && (sid' == sid && k' == k ==>
            var c, log := w.sessions[sid].streams[k], w.logs[key];
            && w'.sessions[sid].streams[k] == c.(offset := c.offset + n)
            && w'.logs[key] == log.(read := log.read + c.body[c.offset..c.offset + n]))
  {
    hide P.Next, TryStart, StartIn;
  }

  lemma ReadFaithful(w: System, sid: SessionId, k: StreamId, n: nat, sid': SessionId, k': StreamId)
    requires Enabled(w, ReadSome(sid, k, n))
    requires Open(w, sid', k') && StreamKey(sid', k') in w.logs && Faithful(w, sid', k')
    ensures var w' := Next(w, ReadSome(sid, k, n));
      Open(w', sid', k') && StreamKey(sid', k') in w'.logs && Faithful(w', sid', k')
  {
    var w' := Next(w, ReadSome(sid, k, n));
    ReadShape(w, sid, k, n, sid', k');
    hide Next, HandsFaithful;
    if sid' == sid && k' == k {
      ReadOwn(w, w', sid, k, n);
    } else {
      FaithfulFrame(w, w', sid', k');
    }
  }

  lemma FaithfulRead(w: System, sid: SessionId, k: StreamId, n: nat)
    requires Flags(w) && AllFaithful(w) && Enabled(w, ReadSome(sid, k, n))
    requires Flags(Next(w, ReadSome(sid, k, n)))
    ensures AllFaithful(Next(w, ReadSome(sid, k, n)))
  {
    var w' := Next(w, ReadSome(sid, k, n));
    assert w'.claims == w.claims && w'.handed == w.handed;
    forall sid', k' | Open(w', sid', k') ensures FlagsHonest(w', sid', k') && Faithful(w', sid', k') {
      assert Open(w, sid', k') && FlagsHonest(w, sid', k') && Faithful(w, sid', k') && FlagsHonest(w', sid', k');
      ReadFaithful(w, sid, k, n, sid', k');
    }
  }

  lemma FaithfulJoined(w: System, sid: SessionId, k: StreamId)
    requires Flags(w) && AllFaithful(w) && Live(w, sid) && w.sessions[sid].agent.Some? && StreamKey(sid, k) !in w.logs
    requires forall h :: h in w.handed ==> h.key in w.logs
    ensures var w' := Joined(w, sid, k);
      Flags(w') && AllFaithful(w')
  {
    var w' := Joined(w, sid, k);
    FlagsJoined(w, sid, k);
    forall sid', k' | Open(w', sid', k') ensures FlagsHonest(w', sid', k') && Faithful(w', sid', k') {
      assert FlagsHonest(w', sid', k');
      if sid' == sid && k' == k {
        assert forall t :: t in w.claims ==> !For(t, sid, k);
        NeverHanded(w.handed, StreamKey(sid, k));
      } else {
        assert Open(w, sid', k') && FlagsHonest(w, sid', k') && Faithful(w, sid', k');
        FaithfulFrame(w, w', sid', k');
      }
    }
  }

  lemma {:induction false} NeverHanded(handed: seq<Hand>, key: StreamKey)
    requires forall h :: h in handed ==> h.key != key
    ensures HandedTo(handed, key) == []
    decreases |handed|
  {
    if handed != [] {
      NeverHanded(handed[..|handed| - 1], key);
    }
  }

  /** The executed claim's task is the one in transit to its stream. */
  lemma ExecutedOwn(w: System, w': System, t: Ticket, choice: Option<string>, sid: SessionId, k: StreamId)
    requires Open(w, sid, k) && FlagsHonest(w, sid, k) && Faithful(w, sid, k)
    requires t in w.claims && For(t, sid, k) && w.claims[t].InQueue?
    requires Open(w', sid, k) && w'.sessions == w.sessions && w'.logs == w.logs
    requires w'.claims == w.claims[t := Done(choice)]
    requires HandedTo(w'.handed, StreamKey(sid, k)) ==
      HandedTo(w.handed, StreamKey(sid, k)) + if choice.Some? then [choice.value] else []
    ensures Faithful(w', sid, k)
  {
    hide BytesFaithful, HandedTo;
    assert forall u :: u in w.claims && For(u, sid, k) ==> u == t;
    assert forall id :: !InTransit(w, sid, k, id);
    assert choice.Some? ==> t in w'.claims && w'.claims[t] == Done(Some(choice.value));
    assert choice.Some? ==> InTransit(w', sid, k, choice.value);
    assert forall id :: InTransit(w', sid, k, id) ==> choice == Some(id);
  }

  lemma FaithfulExecute(w: System, t: Ticket, choice: Option<string>, n: NoticeId)
    requires Flags(w) && AllFaithful(w) && Enabled(w, Execute(t, choice, n))
    requires Flags(Next(w, Execute(t, choice, n)))
    ensures AllFaithful(Next(w, Execute(t, choice, n)))
  {
    assert t in w.claims && w.claims[t].InQueue?;
    ExecuteShape(w, t, choice, n);
    hide P.Next, Next, HandedTo, Enabled, Flags, BytesFaithful, Notifies, P.Enabled;
    var w' := Next(w, Execute(t, choice, n));
    forall sid, k | Open(w', sid, k) ensures FlagsHonest(w', sid, k) && Faithful(w', sid, k) {
      assert Open(w, sid, k) && FlagsHonest(w, sid, k) && Faithful(w, sid, k) && FlagsHonest(w', sid, k);
      var key := StreamKey(sid, k);
      if choice.Some? {
        HandedToSnoc(w.handed, Hand(StreamKey(t.session, t.stream), choice.value), key);
      }
      if For(t, sid, k) {
        ExecutedOwn(w, w', t, choice, sid, k);
      } else {
        FaithfulFrame(w, w', sid, k);
      }
    }
  }

  /** Framing one more command appends its frame to the wire image. */
  lemma EncodeOneMore(commands: seq<Delivery>, taskId: string, payload: Bytes)
    requires FrameCodec.Encodable(Payloads(commands)) && |payload| <= U32_MAX
    ensures var more := commands + [Delivery(taskId, payload)];
      && FrameCodec.Encodable(Payloads(more))
      && FrameCodec.EncodeAll(Payloads(more)) == FrameCodec.EncodeAll(Payloads(commands)) + FrameCodec.Frame(payload)
      && TaskIds(more) == TaskIds(commands) + [taskId]
  {
    var more := commands + [Delivery(taskId, payload)];
    assert Payloads(more) == Payloads(commands) + [payload];
    assert FrameCodec.EncodeAll([payload]) == FrameCodec.Frame(payload) by {
      assert FrameCodec.EncodeAll([payload][1..]) == [];
    }
    FrameCodec.EncodeAllAppend(Payloads(commands), [payload]);
  }

  lemma FaithfulHeardCommand(w: System, t: Ticket, payload: Bytes, taskId: string)
    requires Flags(w) && AllFaithful(w) && Enabled(w, HearClaim(t, payload)) && Open(w, t.session, t.stream)
    requires w.claims[t] == Done(Some(taskId))
    ensures var w' := Heard(w, t, payload);
      && Flags(w') && Open(w', t.session, t.stream) && FlagsHonest(w', t.session, t.stream)
      && Faithful(w', t.session, t.stream)
  {
    var w' := Heard(w, t, payload);
    var sid, k, key := t.session, t.stream, StreamKey(t.session, t.stream);
    FlagsHeard(w, t, payload);
    assert FlagsHonest(w, sid, k) && Faithful(w, sid, k) && For(t, sid, k) && FlagsHonest(w', sid, k);
    assert forall id :: !InTransit(w', sid, k, id);
    assert InTransit(w, sid, k, taskId);
    var c, log := w.sessions[sid].streams[k], w.logs[key];
    EncodeOneMore(log.commands, taskId, payload);
    assert log.read + c.body[c.offset..] == log.read;
    assert w'.logs[key] == log.(commands := log.commands + [Delivery(taskId, payload)]);
    assert w'.sessions[sid].streams[k].body[0..] == FrameCodec.Frame(payload);
  }

  lemma FaithfulHeardNothing(w: System, t: Ticket, payload: Bytes)
    requires Flags(w) && AllFaithful(w) && Enabled(w, HearClaim(t, payload)) && Open(w, t.session, t.stream)
    requires w.claims[t] == Done(None) || w.claims[t] == Broken
    requires Open(Heard(w, t, payload), t.session, t.stream)
    ensures var w' := Heard(w, t, payload);
      Flags(w') && FlagsHonest(w', t.session, t.stream) && Faithful(w', t.session, t.stream)
  {
    var w' := Heard(w, t, payload);
    var sid, k := t.session, t.stream;
    FlagsHeard(w, t, payload);
    assert FlagsHonest(w, sid, k) && Faithful(w, sid, k) && For(t, sid, k) && FlagsHonest(w', sid, k);
    assert w'.logs == w.logs;
    FaithfulFrame(w, w', sid, k);
  }

  lemma FaithfulHeardOther(w: System, t: Ticket, payload: Bytes, sid: SessionId, k: StreamId)
    requires Enabled(w, HearClaim(t, payload)) && !For(t, sid, k)
    requires Open(w, sid, k) && StreamKey(sid, k) in w.logs && Faithful(w, sid, k)
    requires Open(Heard(w, t, payload), sid, k)
    ensures Faithful(Heard(w, t, payload), sid, k)
  {
    var w' := Heard(w, t, payload);
    assert StreamKey(sid, k) != StreamKey(t.session, t.stream);
    assert w'.sessions[sid].streams[k] == w.sessions[sid].streams[k];
    FaithfulFrame(w, w', sid, k);
  }

  lemma FaithfulHeard(w: System, t: Ticket, payload: Bytes)
    requires Flags(w) && AllFaithful(w) && Enabled(w, HearClaim(t, payload))
    ensures Flags(Heard(w, t, payload)) && AllFaithful(Heard(w, t, payload))
  {
    var w' := Heard(w, t, payload);
    FlagsHeard(w, t, payload);
    forall sid, k | Open(w', sid, k) ensures FlagsHonest(w', sid, k) && Faithful(w', sid, k) {
      assert FlagsHonest(w', sid, k);
      assert Open(w, sid, k) && FlagsHonest(w, sid, k) && Faithful(w, sid, k);
      if !For(t, sid, k) {
        FaithfulHeardOther(w, t, payload, sid, k);
      } else if w.claims[t].Done? && w.claims[t].task.Some? {
        FaithfulHeardCommand(w, t, payload, w.claims[t].task.value);
      } else {
        FaithfulHeardNothing(w, t, payload);
      }
    }
  }

  /** Every hand-out is a claim of the store protocol, for a stream with a log. */
  ghost predicate HandsLogged(w: System) {
    && (forall h :: h in w.handed ==> h.key in w.logs)
    && |w.handed| == |w.core.claims|
    && (forall i :: 0 <= i < |w.handed| ==> w.handed[i].taskId == w.core.claims[i].taskId)
    && P.TaskInv(w.core)
  }

  lemma QuietCallback(w: System, step: Step)
    requires Enabled(w, step) && (step.OpenStream? || step.HearNotice? || step.HearClaim? || step.Wrote?)
    ensures Next(w, step).core == w.core && Next(w, step).handed == w.handed
    ensures w.logs.Keys <= Next(w, step).logs.Keys
  {
    hide StartIn, QueueChanged, Written, Answered, Opened, FrameCodec.Frame, HeardLogs, ToAnswer;
    match step
    case OpenStream(sid, k) =>
      if w.sessions[sid].agent.Some? {
        StartQuiet(Joined(w, sid, k), sid);
      }
    case HearNotice(m) =>
      var sid := w.posted[m];
      if Live(w, sid) {
        StartQuiet(Notified(w, m), sid);
      }
    case HearClaim(t, payload) =>
      assert Heard(w, t, payload).logs.Keys == w.logs.Keys;
      if HeardStarts(w, t) {
        StartQuiet(Heard(w, t, payload), t.session);
      }
    case Wrote(sid) => StartQuiet(SentOut(w, sid), sid);
  }

  /** Only store steps and executed claims touch the store and the hand-outs. */
  lemma QuietStep(w: System, step: Step)
    requires Enabled(w, step) && !step.Core? && !step.Execute?
    ensures Next(w, step).core == w.core && Next(w, step).handed == w.handed
    ensures w.logs.Keys <= Next(w, step).logs.Keys
  {
    if step.OpenStream? || step.HearNotice? || step.HearClaim? || step.Wrote? {
      QuietCallback(w, step);
    } else {
      hide P.Next;
    }
  }

  lemma HandsLoggedCore(w: System, p: P.Step, n: NoticeId)
    requires HandsLogged(w) && Enabled(w, Core(p, n))
    ensures HandsLogged(Next(w, Core(p, n)))
  {
    P.TaskInvNext(w.core, p);
    if p.WriteJob? {
      assert P.Next(w.core, p) == P.Finish(w.core, p.job, p.audited);
    }
    assert P.Next(w.core, p).claims == w.core.claims;
  }

  lemma HandsLoggedMore(w: System, w': System, hand: Hand, claim: P.Claim)
    requires HandsLogged(w) && P.TaskInv(w'.core) && w'.logs == w.logs && hand.key in w.logs
    requires w'.handed == w.handed + [hand] && w'.core.claims == w.core.claims + [claim] && claim.taskId == hand.taskId
    ensures HandsLogged(w')
  {
    hide P.TaskInv;
  }

  lemma HandsLoggedExecute(w: System, t: Ticket, choice: Option<string>, n: NoticeId)
    requires Flags(w) && HandsLogged(w) && Enabled(w, Execute(t, choice, n))
    ensures HandsLogged(Next(w, Execute(t, choice, n)))
  {
    assert StreamKey(t.session, t.stream) in w.logs && t in w.claims && w.claims[t].InQueue?;
    var q := w.claims[t];
    ExecuteShape(w, t, choice, n);
    assert P.TaskInv(w.core);
    hide Flags, Enabled, Next, P.Next, P.Enabled, P.TaskInv, Notifies;
    P.TaskInvNext(w.core, P.ClaimNext(q.agentId, q.at, choice));
    var w' := Next(w, Execute(t, choice, n));
    if choice.Some? {
      hide HandsLogged;
      HandsLoggedMore(w, w', Hand(StreamKey(t.session, t.stream), choice.value),
          P.Claim(choice.value, q.agentId, q.at));
    } else {
      assert w'.handed == w.handed && w'.core.claims == w.core.claims;
    }
  }

  lemma HandsLoggedKept(w: System, w': System)
    requires HandsLogged(w) && w'.core == w.core && w'.handed == w.handed && w.logs.Keys <= w'.logs.Keys
    ensures HandsLogged(w')
  {
  }

  lemma HandsLoggedNext(w: System, step: Step)
    requires Flags(w) && HandsLogged(w) && Enabled(w, step)
    ensures HandsLogged(Next(w, step))
  {
    if step.Core? {
      HandsLoggedCore(w, step.step, step.notice);
    } else if step.Execute? {
      HandsLoggedExecute(w, step.ticket, step.choice, step.notice);
    } else {
      QuietStep(w, step);
      HandsLoggedKept(w, Next(w, step));
    }
  }

  lemma FaithfulNotice(w: System, m: PostId)
    requires Flags(w) && AllFaithful(w) && Enabled(w, HearNotice(m))
    ensures Flags(Next(w, HearNotice(m))) && AllFaithful(Next(w, HearNotice(m)))
  {
    hide AllFaithful, Flags, StartIn;
    if Live(w, w.posted[m]) {
      FlagsNotified(w, m);
      LogsOfOpen(w);
      FaithfulKept(w, Notified(w, m));
      FaithfulStart(Notified(w, m), w.posted[m]);
    } else {
      var rest := w.(posted := w.posted - {m});
      FlagsSessionsLeft(w, rest);
      LogsOfOpen(w);
      FaithfulKept(w, rest);
    }
  }

  lemma LogsOfOpen(w: System)
    requires Flags(w)
    ensures forall sid, k :: Open(w, sid, k) ==> StreamKey(sid, k) in w.logs
  {
    forall sid, k | Open(w, sid, k) ensures StreamKey(sid, k) in w.logs {
      assert FlagsHonest(w, sid, k);
    }
  }

  lemma FaithfulWrote(w: System, sid: SessionId)
    requires Flags(w) && AllFaithful(w) && Enabled(w, Wrote(sid))
    ensures Flags(Next(w, Wrote(sid))) && AllFaithful(Next(w, Wrote(sid)))
  {
    FlagsNext(w, Wrote(sid));
    var mid := SentOut(w, sid);
    if Live(w, sid) {
      FlagsSent(w, sid);
      FaithfulKept(w, mid);
      FaithfulStart(mid, sid);
    } else {
      FaithfulKept(w, mid);
    }
  }

  lemma FaithfulOpenStream(w: System, sid: SessionId, k: StreamId)
    requires Flags(w) && AllFaithful(w) && HandsLogged(w) && Enabled(w, OpenStream(sid, k))
    ensures Flags(Next(w, OpenStream(sid, k))) && AllFaithful(Next(w, OpenStream(sid, k)))
  {
    if w.sessions[sid].agent.Some? {
      FaithfulJoined(w, sid, k);
      FaithfulStart(Joined(w, sid, k), sid);
    }
  }

  lemma FaithfulHearClaim(w: System, t: Ticket, payload: Bytes)
    requires Flags(w) && AllFaithful(w) && Enabled(w, HearClaim(t, payload))
    ensures Flags(Next(w, HearClaim(t, payload))) && AllFaithful(Next(w, HearClaim(t, payload)))
  {
    FaithfulHeard(w, t, payload);
    if HeardStarts(w, t) {
      FaithfulStart(Heard(w, t, payload), t.session);
    }
  }

  /** The steps that deliver, read and start nothing. */
  lemma FaithfulElsewhere(w: System, step: Step)
    requires Flags(w) && AllFaithful(w) && Enabled(w, step) && Flags(Next(w, step))
    requires !step.OpenStream? && !step.HearNotice? && !step.HearClaim? && !step.Wrote? && !step.ReadSome?
    requires !step.Execute?
    ensures AllFaithful(Next(w, step))
  {
    var w' := Next(w, step);
    if LeavesStreams(step) {
      StreamsLeft(w, step);
    } else {
      SessionsLeft(w, step);
      assert w'.handed == w.handed;
    }
    hide Next, BytesFaithful, HandsFaithful;
    FaithfulKept(w, w');
  }

  lemma FaithfulNext(w: System, step: Step)
    requires Flags(w) && AllFaithful(w) && HandsLogged(w) && Enabled(w, step)
    ensures Flags(Next(w, step)) && AllFaithful(Next(w, step)) && HandsLogged(Next(w, step))
  {
    FlagsNext(w, step);
    HandsLoggedNext(w, step);
    if step.OpenStream? {
      FaithfulOpenStream(w, step.session, step.stream);
    } else if step.HearNotice? {
      FaithfulNotice(w, step.post);
    } else if step.HearClaim? {
      FaithfulHearClaim(w, step.ticket, step.payload);
    } else if step.Wrote? {
      FaithfulWrote(w, step.session);
    } else if step.ReadSome? {
      FaithfulRead(w, step.session, step.stream, step.count);
    } else if step.Execute? {
      FaithfulExecute(w, step.ticket, step.choice, step.notice);
    } else {
      FaithfulElsewhere(w, step);
    }
  }

  lemma {:induction false} RunFaithful(steps: seq<Step>)
    ensures Flags(Run(steps)) && AllFaithful(Run(steps)) && HandsLogged(Run(steps))
    decreases |steps|
  {
    if steps != [] {
      RunFaithful(steps[..|steps| - 1]);
      if Enabled(Run(steps[..|steps| - 1]), steps[|steps| - 1]) {
        FaithfulNext(Run(steps[..|steps| - 1]), steps[|steps| - 1]);
      }
    }
  }

  /** The bytes a session reads from a stream are the frames of the tasks its
      claims were given, in claim order. A decoder fed them in any pieces yields
      a prefix of those commands, and all of them once nothing is unsent and
      each fits its limit. */
  lemma DeliveredInClaimOrder(steps: seq<Step>, sid: SessionId, k: StreamId, limit: nat, cuts: seq<Bytes>)
    requires Open(Run(steps), sid, k) && StreamKey(sid, k) in Run(steps).logs
    requires Concat(cuts) == Run(steps).logs[StreamKey(sid, k)].read
    ensures var w := Run(steps);
      var commands := w.logs[StreamKey(sid, k)].commands;
      var received := FrameCodec.PushAll(limit, [], cuts);
      && received.frames <= Payloads(commands)
      && (w.sessions[sid].streams[k].body == [] ==>
            (received.ok <==> forall i :: 0 <= i < |commands| ==> |commands[i].payload| <= limit)
            && (received.ok ==> received == FrameCodec.Parse(Payloads(commands), [], true)))
      && TaskIds(commands) <= HandedTo(w.handed, StreamKey(sid, k))
      && |HandedTo(w.handed, StreamKey(sid, k))| <= |commands| + 1
  {
    RunFaithful(steps);
    var w := Run(steps);
    assert FlagsHonest(w, sid, k) && Faithful(w, sid, k);
    var c, log := w.sessions[sid].streams[k], w.logs[StreamKey(sid, k)];
    var payloads := Payloads(log.commands);
    FrameCodec.PrefixRoundTrip(limit, payloads, log.read, c.body[c.offset..], cuts);
    if c.body == [] {
      assert log.read + c.body[c.offset..] == log.read;
      FrameCodec.CutRoundTrip(limit, payloads, cuts);
      var fit := FrameCodec.Fitting(limit, payloads);
      assert fit < |payloads| ==> |payloads[fit]| > limit;
    }
    if id :| InTransit(w, sid, k, id) {
      assert HandedTo(w.handed, StreamKey(sid, k)) == TaskIds(log.commands) + [id];
    }
  }

  /** No task is handed out twice, to whatever streams, and every hand-out was
      justified in the task table. */
  lemma NoTaskHandedTwice(steps: seq<Step>)
    ensures var w := Run(steps);
      && (forall i, j :: 0 <= i < j < |w.handed| ==> w.handed[i].taskId != w.handed[j].taskId)
      && |w.handed| == |w.core.claims|
      && (forall i :: 0 <= i < |w.handed| ==>
            w.core.claims[i].taskId == w.handed[i].taskId && P.ClaimJustified(w.core.store, w.core.claims[i]))
  {
    RunFaithful(steps);
  }

  // ------------------------------------------------------- closed sessions

  /** Nothing more is read from or put on the streams of a session, and no claim
      is submitted for them. */
  ghost predicate AtRest(w: System, w': System, sid: SessionId) {
    && sid in w.sessions && sid in w'.sessions && w'.sessions[sid].closed
    && w'.sessions[sid].streams == w.sessions[sid].streams
    && (forall t :: t in w'.claims && t.session == sid ==> t in w.claims)
    && (forall k :: StreamKey(sid, k) in w.logs ==>
          StreamKey(sid, k) in w'.logs && w'.logs[StreamKey(sid, k)] == w.logs[StreamKey(sid, k)])
  }

  lemma ClosedStarts(w: System, other: SessionId, sid: SessionId)
    requires other in w.sessions && sid in w.sessions && w.sessions[sid].closed && !w.sessions[other].closed
    ensures AtRest(w, StartIn(w, other), sid)
  {
  }

  lemma AtRestTwice(w: System, v: System, u: System, sid: SessionId)
    requires AtRest(w, v, sid) && AtRest(v, u, sid)
    ensures AtRest(w, u, sid)
  {
  }

  lemma ClosedNext(w: System, step: Step, sid: SessionId)
    requires sid in w.sessions && w.sessions[sid].closed && Enabled(w, step)
    ensures AtRest(w, Next(w, step), sid)
  {
    if LeavesSessions(step) {
      SessionsLeft(w, step);
      hide Next, Enabled;
    } else if LeavesStreams(step) {
      hide StartIn, Heard, Joined, SentOut, ReadOn, Notified, Executed, Stored;
    } else {
      hide StartIn, AtRest, Executed, Stored, BoundTo, Replied;
      match step
      case OpenStream(other, k) =>
        if w.sessions[other].agent.Some? {
          assert AtRest(w, Joined(w, other, k), sid) by { ClosedJoined(w, other, k, sid); }
          ClosedStarts(Joined(w, other, k), other, sid);
          AtRestTwice(w, Joined(w, other, k), StartIn(Joined(w, other, k), other), sid);
        } else {
          ClosedSame(w, sid);
        }
      case HearNotice(m) =>
        ClosedHears(w, m, sid);
      case HearClaim(t, payload) =>
        ClosedAnswered(w, t, payload, sid);
      case ReadSome(other, k, n) =>
        ClosedRead(w, other, k, n, sid);
      case Wrote(other) =>
        ClosedWrote(w, other, sid);
    }
  }

  lemma ClosedSame(w: System, sid: SessionId)
    requires sid in w.sessions && w.sessions[sid].closed
    ensures AtRest(w, w, sid)
  {
  }

  lemma ClosedJoined(w: System, other: SessionId, k: StreamId, sid: SessionId)
    requires sid in w.sessions && w.sessions[sid].closed && Live(w, other) && StreamKey(other, k) !in w.logs
    ensures AtRest(w, Joined(w, other, k), sid) && Live(Joined(w, other, k), other)
  {
  }

  lemma ClosedHears(w: System, m: PostId, sid: SessionId)
    requires sid in w.sessions && w.sessions[sid].closed && m in w.posted
    ensures AtRest(w, Next(w, HearNotice(m)), sid)
  {
    var other := w.posted[m];
    if Live(w, other) {
      var v := Notified(w, m);
      assert AtRest(w, v, sid) && Live(v, other);
      hide StartIn, Notified, AtRest;
      ClosedStarts(v, other, sid);
      AtRestTwice(w, v, StartIn(v, other), sid);
    }
  }

  lemma ClosedAnswered(w: System, t: Ticket, payload: Bytes, sid: SessionId)
    requires sid in w.sessions && w.sessions[sid].closed && Enabled(w, HearClaim(t, payload))
    ensures AtRest(w, Next(w, HearClaim(t, payload)), sid)
  {
    var v := Heard(w, t, payload);
    assert AtRest(w, v, sid);
    assert HeardStarts(w, t) ==> Live(v, t.session);
    hide StartIn, Heard, AtRest;
    if HeardStarts(w, t) {
      ClosedStarts(v, t.session, sid);
      AtRestTwice(w, v, StartIn(v, t.session), sid);
    }
  }

  lemma ClosedRead(w: System, other: SessionId, k: StreamId, n: nat, sid: SessionId)
    requires sid in w.sessions && w.sessions[sid].closed && Enabled(w, ReadSome(other, k, n))
    ensures AtRest(w, ReadOn(w, other, k, n), sid)
  {
  }

  lemma ClosedWrote(w: System, other: SessionId, sid: SessionId)
    requires sid in w.sessions && w.sessions[sid].closed && Enabled(w, Wrote(other))
    ensures AtRest(w, Next(w, Wrote(other)), sid)
  {
    var v := SentOut(w, other);
    assert AtRest(w, v, sid) && (!w.sessions[other].closed ==> Live(v, other));
    hide StartIn, SentOut, AtRest;
    if !w.sessions[other].closed {
      ClosedStarts(v, other, sid);
      AtRestTwice(w, v, StartIn(v, other), sid);
    }
  }

  /** A session that was shut stays closed in every continuation: its streams are
      left as they are and no claim is submitted for them any more. */
  lemma {:induction false} ShutForGood(steps: seq<Step>, sid: SessionId, more: seq<Step>)
    requires Live(Run(steps), sid)
    ensures AtRest(Run(steps), Run(steps + [Shut(sid)] + more), sid)
    decreases |more|
  {
    var first := steps + [Shut(sid)];
    if more == [] {
      assert first[..|first| - 1] == steps && first + more == first;
      hide StartIn;
    } else {
      var before, last := first + more[..|more| - 1], more[|more| - 1];
      assert (first + more)[..|first + more| - 1] == before && (first + more)[|first + more| - 1] == last;
      ShutForGood(steps, sid, more[..|more| - 1]);
      hide Next, Enabled;
      if Enabled(Run(before), last) {
        assert sid in Run(before).sessions && Run(before).sessions[sid].closed;
        ClosedNext(Run(before), last, sid);
        AtRestTwice(Run(steps), Run(before), Next(Run(before), last), sid);
      }
    }
  }

  /** A queued claim of an open stream that fails closes the session when it is
      answered. */
  lemma FailedClaimCloses(w: System, t: Ticket)
    requires t in w.claims && w.claims[t].InQueue? && Open(w, t.session, t.stream)
    ensures Enabled(w, Break(t)) && Enabled(Next(w, Break(t)), HearClaim(t, []))
    ensures !Live(Next(Next(w, Break(t)), HearClaim(t, [])), t.session)
  {
    hide StartIn, SentOut, ReadOn, Joined, Executed, Stored, HeardLogs;
  }
}
