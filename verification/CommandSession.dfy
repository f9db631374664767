/**
 The command side of one HTTP/2 control session: for each command stream,
 whether a refresh is pending, a claim is in flight, and how much of the
 current command the session has read. Callbacks run one at a time.
 */
module CommandSession {
  import opened Prelude

  datatype StreamId = StreamId(number: nat)

  datatype CommandStream = CommandStream(
    refreshPending: bool,
    claimInFlight: bool,
    dataInFlight: bool,
    body: Bytes,
    offset: nat)

  /** `agent` is the binding the registry holds for this connection. */
  datatype Session = Session(
    closed: bool,
    agent: Option<string>,
    streams: map<StreamId, CommandStream>,
    writing: bool,
    pendingWrites: nat)

  /** The completion of a claim: an error, no task, or a task framed for the wire. */
  datatype Answer = ClaimError | NoTask | Command(frame: Bytes)

  /** How an asynchronous write ended. */
  datatype WriteOutcome = Sent | Aborted | Failed

  const OK_STATUS: nat := 200
  const BAD_REQUEST: nat := 400
  const NOT_FOUND: nat := 404

  const NEW_STREAM: CommandStream := CommandStream(true, false, false, [], 0)

  predicate Startable(c: CommandStream) {
    c.refreshPending && !c.claimInFlight && !c.dataInFlight && c.body == []
  }

  function Launch(c: CommandStream): (r: CommandStream) {
    if Startable(c) then c.(refreshPending := false, claimInFlight := true) else c
  }

  /** The streams a call of TryStartQueuedCommands submits a claim for. */
  function Started(s: Session): (r: set<StreamId>) {
    if s.closed || s.agent.None? then {} else set k | k in s.streams && Startable(s.streams[k])
  }

  function TryStart(s: Session): (r: Session)
    ensures r == s.(streams := r.streams) && r.streams.Keys == s.streams.Keys
    ensures forall k :: k in s.streams ==>
      r.streams[k] == if k in Started(s) then Launch(s.streams[k]) else s.streams[k]
  {
    s.(streams := map k | k in s.streams :: if k in Started(s) then Launch(s.streams[k]) else s.streams[k])
  }

  predicate FullyRead(c: CommandStream) { c.dataInFlight && c.body != [] && c.offset == |c.body| }

  function Finalized(c: CommandStream): (r: CommandStream) {
    if FullyRead(c) then CommandStream(true, c.claimInFlight, false, [], 0) else c
  }

  function FinalizeSent(s: Session): (r: Session)
    ensures r == s.(streams := r.streams) && r.streams.Keys == s.streams.Keys
    ensures forall k :: k in s.streams ==> r.streams[k] == Finalized(s.streams[k])
  {
    s.(streams := map k | k in s.streams :: Finalized(s.streams[k]))
  }

  function Refreshed(s: Session): (r: Session)
    ensures r == s.(streams := r.streams) && r.streams.Keys == s.streams.Keys
    ensures forall k :: k in s.streams ==> r.streams[k] == s.streams[k].(refreshPending := true)
  {
    s.(streams := map k | k in s.streams :: s.streams[k].(refreshPending := true))
  }

  /** The session just before a callback's final call of TryStartQueuedCommands. */
  function QueueChanged(s: Session): (r: Session) { if s.closed then s else Refreshed(s) }

  function Opened(s: Session, id: StreamId): (r: Session) {
    if s.closed || s.agent.None? then s else s.(streams := s.streams[id := NEW_STREAM])
  }

  function Written(s: Session): (r: Session) {
    var popped := s.(writing := false, pendingWrites := if s.pendingWrites > 0 then s.pendingWrites - 1 else 0);
    if s.closed then popped
    else
      var f := FinalizeSent(popped);
      f.(writing := f.pendingWrites > 0)
  }

  /** More output is queued, and written if no write is under way. */
  function Flushed(s: Session): (r: Session) {
    s.(pendingWrites := s.pendingWrites + 1, writing := true)
  }

  function AnsweredStream(c: CommandStream, answer: Answer): (r: CommandStream) {
    match answer
    case ClaimError => c.(claimInFlight := false)
    case NoTask => c.(claimInFlight := false)
    case Command(frame) => c.(claimInFlight := false, body := frame, offset := 0, dataInFlight := true)
  }

  /** What the completion of a claim does before anything is started or sent. */
  function Answered(s: Session, id: StreamId, answer: Answer): (r: Session) {
    if s.closed || id !in s.streams then s
    else s.(closed := answer.ClaimError?, streams := s.streams[id := AnsweredStream(s.streams[id], answer)])
  }

  /** Whether that completion goes on to TryStartQueuedCommands. */
  predicate AnswerStarts(s: Session, id: StreamId, answer: Answer) {
    !s.closed && id in s.streams && answer.NoTask? && s.streams[id].refreshPending
  }

  /** The HTTP/2 library pulls `n` bytes of a command into the output. */
  function ReadBytes(s: Session, id: StreamId, n: nat): (r: Session)
    requires id in s.streams && s.streams[id].offset + n <= |s.streams[id].body|
  {
    s.(streams := s.streams[id := s.streams[id].(offset := s.streams[id].offset + n)],
       pendingWrites := s.pendingWrites + 1, writing := true)
  }

  // ------------------------------------------------------- the session object

  class Http2Session {
    var closed: bool
    var agent: Option<string>
    var streams: map<StreamId, CommandStream>
    var writeInProgress: bool
    var pendingWrites: nat

    function View(): (s: Session)
      reads this
    {
      Session(closed, agent, streams, writeInProgress, pendingWrites)
    }

    constructor ()
      ensures View() == Session(false, None, map[], false, 0)
    {
      closed, agent, streams, writeInProgress, pendingWrites := false, None, map[], false, 0;
    }

    /** Submits a claim for every stream that wants one and has nothing in hand. */
    method TryStartQueuedCommands() returns (started: set<StreamId>)
      modifies this`streams
      ensures View() == TryStart(old(View()))
      ensures started == Started(old(View()))
      ensures streams.Keys == old(streams).Keys
      ensures forall k :: k in started <==>
        && !closed && agent.Some? && k in streams
        && old(streams)[k].refreshPending && !old(streams)[k].claimInFlight
        && !old(streams)[k].dataInFlight && old(streams)[k].body == []
      ensures forall k :: k in streams ==>
        streams[k] == if k in started then CommandStream(false, true, false, [], old(streams)[k].offset)
                      else old(streams)[k]
    {
      started := {};
      if closed || agent.None? {
        assert streams == TryStart(old(View())).streams;
        return;
      }
      var todo: set<StreamId> := streams.Keys;
      while todo != {}
        invariant todo <= streams.Keys && streams.Keys == old(streams.Keys)
        invariant forall k :: k in streams ==>
          streams[k] == if k in todo then old(streams)[k] else Launch(old(streams)[k])
        invariant started == set k | k in old(streams) && k !in todo && Startable(old(streams)[k])
        decreases todo
      {
        var k :| k in todo;
        todo := todo - {k};
        var c := streams[k];
        if !c.refreshPending || c.claimInFlight || c.dataInFlight || c.body != [] {
          continue;
        }
        streams := streams[k := c.(refreshPending := false, claimInFlight := true)];
        started := started + {k};
      }
      assert streams == TryStart(old(View())).streams;
    }

    method FinalizeSentCommandData()
      modifies this`streams
      ensures View() == FinalizeSent(old(View()))
      ensures streams.Keys == old(streams).Keys
      ensures forall k :: k in streams ==>
        var was := old(streams)[k];
        streams[k] ==
          if was.dataInFlight && was.body != [] && was.offset == |was.body|
          then CommandStream(true, was.claimInFlight, false, [], 0) else was
    {
      var todo: set<StreamId> := streams.Keys;
      while todo != {}
        invariant todo <= streams.Keys && streams.Keys == old(streams.Keys)
        invariant forall k :: k in streams ==>
          streams[k] == if k in todo then old(streams)[k] else Finalized(old(streams)[k])
        decreases todo
      {
        var k :| k in todo;
        todo := todo - {k};
        var c := streams[k];
        if c.dataInFlight && c.body != [] && c.offset == |c.body| {
          streams := streams[k := c.(body := [], offset := 0, dataInFlight := false, refreshPending := true)];
        }
      }
      assert streams == FinalizeSent(old(View())).streams;
    }

    method FlushOutput()
      modifies this`writeInProgress
      ensures writeInProgress == (if closed then old(writeInProgress) else old(writeInProgress) || pendingWrites > 0)
    {
      if closed || writeInProgress || pendingWrites == 0 {
        return;
      }
      writeInProgress := true;
    }

    method OnTaskQueueChanged() returns (started: set<StreamId>)
      modifies this`streams
      ensures View() == TryStart(QueueChanged(old(View())))
      ensures started == Started(QueueChanged(old(View())))
      ensures streams.Keys == old(streams).Keys
      ensures closed ==> streams == old(streams) && started == {}
      ensures forall k :: k in started <==>
        && !closed && agent.Some? && k in streams
        && !old(streams)[k].claimInFlight && !old(streams)[k].dataInFlight && old(streams)[k].body == []
      ensures !closed ==> forall k :: k in streams ==>
        streams[k] == if k in started then old(streams)[k].(refreshPending := false, claimInFlight := true)
                      else old(streams)[k].(refreshPending := true)
    {
      if closed {
        assert streams == TryStart(View()).streams;
        return {};
      }
      var todo: set<StreamId> := streams.Keys;
      while todo != {}
        invariant todo <= streams.Keys && streams.Keys == old(streams.Keys)
        invariant forall k :: k in streams ==>
          streams[k] == if k in todo then old(streams)[k] else old(streams)[k].(refreshPending := true)
        decreases todo
      {
        var k :| k in todo;
        todo := todo - {k};
        streams := streams[k := streams[k].(refreshPending := true)];
      }
      assert streams == Refreshed(old(View())).streams;
      started := TryStartQueuedCommands();
    }

    /** A GET on the command path opens a command stream if the registry knows
        which agent this connection belongs to; otherwise it is refused, and so
        is every other request. */
    method HandleCommandHeadersEnd(id: StreamId, rightRequest: bool) returns (status: nat, started: set<StreamId>)
      requires !closed
      modifies this`streams
      ensures status == if !rightRequest then 400 else if agent.None? then 404 else 200
      ensures View() == if status == 200 then TryStart(Opened(old(View()), id)) else old(View())
      ensures started == if status == 200 then Started(Opened(old(View()), id)) else {}
      ensures status == 200 ==>
        && streams.Keys == old(streams).Keys + {id} && id in started
        && streams[id] == CommandStream(false, true, false, [], 0)
    {
      if !rightRequest {
        return BAD_REQUEST, {};
      }
      if agent.None? {
        return NOT_FOUND, {};
      }
      streams := streams[id := CommandStream(false, false, false, [], 0)];
      streams := streams[id := streams[id].(refreshPending := true)];
      assert View() == Opened(old(View()), id);
      started := TryStartQueuedCommands();
      status := OK_STATUS;
    }

    /** A closed session only drops the buffer; a failed write closes the session. */
    method OnWrite(outcome: WriteOutcome) returns (started: set<StreamId>)
      modifies this`streams, this`writeInProgress, this`pendingWrites, this`closed
      ensures old(closed) || outcome.Sent? ==>
          View() == TryStart(Written(old(View()))) && started == Started(Written(old(View())))
      ensures !old(closed) && !outcome.Sent? ==>
        View() == old(View()).(writing := false, closed := outcome.Failed?) && started == {}
      ensures old(closed) || outcome.Sent? ==>
        && pendingWrites == (if old(pendingWrites) > 0 then old(pendingWrites) - 1 else 0) && closed == old(closed)
        && (writeInProgress <==> !closed && pendingWrites > 0)
      ensures old(closed) ==> streams == old(streams) && started == {}
      ensures !old(closed) && outcome.Sent? ==>
        && streams.Keys == old(streams).Keys
        && forall k :: k in streams ==>
             var was := old(streams)[k];
             var read := was.dataInFlight && was.body != [] && was.offset == |was.body|;
             && (k in started <==>
                   && agent.Some? && !was.claimInFlight
                   && (read || (was.refreshPending && !was.dataInFlight && was.body == [])))
             && streams[k] ==
                  if k in started then CommandStream(false, true, false, [], if read then 0 else was.offset)
                  else if read then CommandStream(true, was.claimInFlight, false, [], 0) else was
    {
      writeInProgress := false;
      started := {};
      if closed {
        if pendingWrites > 0 {
          pendingWrites := pendingWrites - 1;
        }
        assert streams == TryStart(Written(old(View()))).streams;
        return;
      }
      if outcome.Aborted? {
        return;
      }
      if outcome.Failed? {
        closed := true;
        return;
      }
      if pendingWrites > 0 {
        pendingWrites := pendingWrites - 1;
      }
      FinalizeSentCommandData();
      FlushOutput();
      assert View() == Written(old(View()));
      started := TryStartQueuedCommands();
    }

    method OnCommandClaimComplete(id: StreamId, answer: Answer) returns (started: set<StreamId>)
      modifies this`streams, this`closed
      ensures var s := Answered(old(View()), id, answer);
        && View() == (if AnswerStarts(old(View()), id, answer) then TryStart(s) else s)
        && started == if AnswerStarts(old(View()), id, answer) then Started(s) else {}
      ensures old(closed) || id !in old(streams) ==> View() == old(View()) && started == {}
      ensures !old(closed) && id in old(streams) ==>
        var was := old(streams)[id];
        && (closed <==> answer.ClaimError?) && streams.Keys == old(streams).Keys
        && (answer.ClaimError? ==>
              started == {} && streams == old(streams)[id := was.(claimInFlight := false)])
        && (answer.Command? ==>
              && started == {}
              && streams == old(streams)[id := CommandStream(was.refreshPending, false, true, answer.frame, 0)])
        && (answer.NoTask? && !was.refreshPending ==>
              started == {} && streams == old(streams)[id := was.(claimInFlight := false)])
        && (answer.NoTask? && was.refreshPending && agent.Some? && !was.dataInFlight && was.body == [] ==>
              id in started && streams[id] == was.(refreshPending := false, claimInFlight := true))
    {
      started := {};
      if closed || id !in streams {
        return;
      }
      streams := streams[id := streams[id].(claimInFlight := false)];
      match answer
      case ClaimError =>
        closed := true;
      case NoTask =>
        if streams[id].refreshPending {
          started := TryStartQueuedCommands();
        }
      case Command(frame) =>
        streams := streams[id := streams[id].(body := frame, offset := 0)];
        streams := streams[id := streams[id].(dataInFlight := true)];
    }
  }
}
