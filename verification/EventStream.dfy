/**
 The response of an event stream. Body chunks of one HTTP/2 request are handed
 to a worker pool and complete later, in any order; the stream answers once,
 when the request body has ended and no chunk is counted as pending.
 */
module EventStream {
  import opened Prelude

  const OK_STATUS: nat := 200
  const BAD_STATUS: nat := 400

  /** The flags of one stream, and the statuses submitted for it so far. */
  datatype Stream = Stream(
    pending: nat,
    hasError: bool,
    endReceived: bool,
    submitted: bool,
    responses: seq<nat>)

  function TrySubmit(s: Stream): (r: Stream) {
    if s.submitted || !s.endReceived || s.pending != 0 then s
    else s.(responses := s.responses + [if s.hasError then BAD_STATUS else OK_STATUS], submitted := true)
  }

  function Decremented(n: nat): (r: nat) { if n > 0 then n - 1 else 0 }

  /** A chunk on the right path, and whether the pool took it. A pool that is
      stopping refuses the chunk and still posts an error completion for it. */
  function ChunkReceived(s: Stream, taken: bool): (r: Stream) {
    if taken then s.(pending := s.pending + 1)
    else TrySubmit(s.(pending := Decremented(s.pending + 1), hasError := true))
  }

  function ChunkCompleted(s: Stream, failed: bool, accepted: seq<bool>): (r: Stream) {
    TrySubmit(s.(pending := Decremented(s.pending), hasError := s.hasError || failed || false in accepted))
  }

  function EndReceived(s: Stream): (r: Stream) { TrySubmit(s.(endReceived := true)) }

  class StreamState {
    var pendingEventChunks: nat
    var hasError: bool
    var endStreamReceived: bool
    var responseSubmitted: bool
    var responses: seq<nat>

    function View(): (s: Stream)
      reads this
    {
      Stream(pendingEventChunks, hasError, endStreamReceived, responseSubmitted, responses)
    }

    constructor ()
      ensures View() == Stream(0, false, false, false, [])
    {
      pendingEventChunks, hasError, endStreamReceived, responseSubmitted := 0, false, false, false;
      responses := [];
    }

    method TrySubmitEventResponse()
      modifies this
      ensures View() == TrySubmit(old(View()))
    {
      if responseSubmitted || !endStreamReceived || pendingEventChunks != 0 {
        return;
      }
      responses := responses + [if !hasError then OK_STATUS else BAD_STATUS];
      responseSubmitted := true;
    }

    method OnDataChunk(rightPath: bool, taken: bool)
      modifies this
      ensures View() == if rightPath then ChunkReceived(old(View()), taken) else old(View()).(hasError := true)
    {
      if !rightPath {
        hasError := true;
        return;
      }
      pendingEventChunks := pendingEventChunks + 1;
      if !taken {
        if pendingEventChunks > 0 {
          pendingEventChunks := pendingEventChunks - 1;
        }
        hasError := true;
        TrySubmitEventResponse();
      }
    }

    method OnChunkComplete(failed: bool, accepted: seq<bool>)
      modifies this
      ensures View() == ChunkCompleted(old(View()), failed, accepted)
    {
      if pendingEventChunks > 0 {
        pendingEventChunks := pendingEventChunks - 1;
      }
      if failed {
        hasError := true;
      }
      for i := 0 to |accepted|
        invariant hasError == (old(hasError) || failed || false in accepted[..i])
        invariant View() == old(View()).(pending := Decremented(old(pendingEventChunks)), hasError := hasError)
      {
        assert accepted[..i + 1] == accepted[..i] + [accepted[i]];
        if !accepted[i] {
          hasError := true;
        }
      }
      assert accepted[..|accepted|] == accepted;
      TrySubmitEventResponse();
    }

    method OnEndStream()
      modifies this
      ensures View() == EndReceived(old(View()))
    {
      endStreamReceived := true;
      TrySubmitEventResponse();
    }
  }

  // ------------------------------------------------------- the stream and its pool

  /** What became of one chunk. */
  datatype Fate = InPool | ErrorPosted | Finished(good: bool)

  /** The stream, whether the pool is stopping, and the fate of every chunk
      received on the right path; `strayChunk` records data on a wrong path. */
  datatype System = System(stream: Stream, stopping: bool, strayChunk: bool, chunks: seq<Fate>, refusals: nat)

  const INITIAL: System := System(Stream(0, false, false, false, []), false, false, [], 0)

  datatype Event =
    | Data(rightPath: bool)
    | Complete(chunk: nat, failed: bool, accepted: seq<bool>)
    | End
    | StopPool

  /** HTTP/2 delivers no data after END_STREAM; a refused chunk completes with
      an error and no results; a chunk completes once. */
  predicate Enabled(s: System, e: Event) {
    match e
    case Data(_) => !s.stream.endReceived
    case End => !s.stream.endReceived
    case StopPool => true
    case Complete(k, failed, accepted) =>
      k < |s.chunks| && !s.chunks[k].Finished? && (s.chunks[k].ErrorPosted? ==> failed && accepted == [])
  }

  function Next(s: System, e: Event): (r: System)
    requires Enabled(s, e)
  {
    match e
    case Data(rightPath) =>
      if !rightPath then s.(stream := s.stream.(hasError := true), strayChunk := true)
      else if s.stopping then
        s.(stream := ChunkReceived(s.stream, false), chunks := s.chunks + [ErrorPosted], refusals := s.refusals + 1)
      else s.(stream := ChunkReceived(s.stream, true), chunks := s.chunks + [InPool])
    case Complete(k, failed, accepted) =>
      s.(stream := ChunkCompleted(s.stream, failed, accepted),
         chunks := s.chunks[k := Finished(!failed && false !in accepted)])
    case End => s.(stream := EndReceived(s.stream))
    case StopPool => s.(stopping := true)
  }

  /** Every chunk of the request was taken, finished and had all its events accepted. */
  predicate AllAccepted(s: System) {
    !s.strayChunk && s.refusals == 0 && forall i :: 0 <= i < |s.chunks| ==> s.chunks[i] == Finished(true)
  }

  predicate Settled(s: System) {
    forall i :: 0 <= i < |s.chunks| ==> s.chunks[i].Finished?
  }

  /** Chunks whose completion has not been delivered. */
  function Outstanding(chunks: seq<Fate>): (n: nat)
    ensures n == 0 <==> forall i :: 0 <= i < |chunks| ==> chunks[i].Finished?
  {
    if chunks == [] then 0 else Outstanding(chunks[1..]) + if chunks[0].Finished? then 0 else 1
  }

  lemma {:induction false} OutstandingAppend(chunks: seq<Fate>, f: Fate)
    ensures Outstanding(chunks + [f]) == Outstanding(chunks) + if f.Finished? then 0 else 1
  {
    if chunks != [] {
      assert (chunks + [f])[1..] == chunks[1..] + [f];
      OutstandingAppend(chunks[1..], f);
    }
  }

  lemma {:induction false} OutstandingFinish(chunks: seq<Fate>, k: nat, good: bool)
    requires k < |chunks| && !chunks[k].Finished?
    ensures Outstanding(chunks[k := Finished(good)]) == Outstanding(chunks) - 1
  {
    if k > 0 {
      assert chunks[k := Finished(good)][1..] == chunks[1..][k - 1 := Finished(good)];
      OutstandingFinish(chunks[1..], k - 1, good);
    }
  }

  /** How many completions the count knows of: a refused chunk is taken off
      twice, and the count never goes below zero. */
  function Counted(outstanding: nat, refusals: nat): (n: nat) {
    if outstanding > refusals then outstanding - refusals else 0
  }

  /** The count is exact until the pool refuses a chunk, and from then on too
      low by the number of refusals. */
  ghost predicate Inv(s: System) {
    var t := s.stream;
    && |t.responses| == (if t.submitted then 1 else 0)
    && (t.submitted ==> t.endReceived)
    && t.pending == Counted(Outstanding(s.chunks), s.refusals)
    && (s.refusals > 0 ==> s.stopping)
    && (t.endReceived && t.pending == 0 ==> t.submitted)
    && (t.hasError <==> s.strayChunk || s.refusals > 0 || Finished(false) in s.chunks)
    && (ErrorPosted in s.chunks ==> s.refusals > 0)
    && (t.submitted && s.refusals == 0 ==> Settled(s))
    && (t.submitted ==> t.responses == [if t.hasError then BAD_STATUS else OK_STATUS])
  }

  lemma DataKeepsInv(s: System, rightPath: bool)
    requires Inv(s) && Enabled(s, Data(rightPath))
    ensures Inv(Next(s, Data(rightPath)))
  {
    OutstandingAppend(s.chunks, InPool);
    OutstandingAppend(s.chunks, ErrorPosted);
  }

  lemma CompleteKeepsInv(s: System, k: nat, failed: bool, accepted: seq<bool>)
    requires Inv(s) && Enabled(s, Complete(k, failed, accepted))
    ensures Inv(Next(s, Complete(k, failed, accepted)))
  {
    var fate := Finished(!failed && false !in accepted);
    OutstandingFinish(s.chunks, k, fate.good);
    var after := s.chunks[k := fate];
    assert after[k] == fate;
    assert forall i :: 0 <= i < |after| && i != k ==> after[i] == s.chunks[i];
    assert Finished(false) in after <==> Finished(false) in s.chunks || fate == Finished(false);
  }

  lemma InvNext(s: System, e: Event)
    requires Inv(s) && Enabled(s, e)
    ensures Inv(Next(s, e))
  {
    match e
    case Data(rightPath) => DataKeepsInv(s, rightPath);
    case Complete(k, failed, accepted) => CompleteKeepsInv(s, k, failed, accepted);
    case End =>
    case StopPool =>
  }

  /** The state after the events that were possible when they came up. */
  function RunFrom(start: System, events: seq<Event>): (s: System)
    decreases |events|
  {
    if events == [] then start
    else
      var s, e := RunFrom(start, events[..|events| - 1]), events[|events| - 1];
      if Enabled(s, e) then Next(s, e) else s
  }

  function Run(events: seq<Event>): (s: System) { RunFrom(INITIAL, events) }

  lemma {:induction false} RunInv(start: System, events: seq<Event>)
    requires Inv(start)
    ensures Inv(RunFrom(start, events))
    decreases |events|
  {
    if events != [] {
      var s, e := RunFrom(start, events[..|events| - 1]), events[|events| - 1];
      RunInv(start, events[..|events| - 1]);
      if Enabled(s, e) {
        InvNext(s, e);
      }
    }
  }

  /** Over every run: at most one response, none before END_STREAM, and a 200
      only when every chunk was taken, completed and fully accepted. */
  lemma OneHonestResponse(events: seq<Event>)
    ensures var s := Run(events);
      && |s.stream.responses| <= 1
      && (s.stream.responses != [] ==> s.stream.endReceived)
      && (s.stream.responses == [] || s.stream.responses == [200] || s.stream.responses == [400])
      && (s.stream.responses == [200] ==> AllAccepted(s))
  {
    RunInv(INITIAL, events);
  }

  /** Once the body has ended and every completion was delivered the response is
      there, and its status says exactly whether everything was accepted. */
  lemma SettledIsAnswered(events: seq<Event>)
    requires Run(events).stream.endReceived && Settled(Run(events))
    ensures Run(events).stream.responses == [if AllAccepted(Run(events)) then 200 else 400]
  {
    RunInv(INITIAL, events);
  }

  /** How many chunks on the right path came before the end of the body. */
  function Received(events: seq<Event>): (n: nat)
    decreases |events|
  {
    if events == [] then 0
    else
      var before, last := events[..|events| - 1], events[|events| - 1];
      Received(before) + if last == Data(true) && End !in before then 1 else 0
  }

  lemma NextRecords(s: System, e: Event)
    requires Enabled(s, e)
    ensures var t := Next(s, e);
      && |t.chunks| == |s.chunks| + (if e == Data(true) then 1 else 0)
      && (t.strayChunk <==> s.strayChunk || e == Data(false))
      && (t.stream.endReceived <==> s.stream.endReceived || e == End) && (t.stopping <==> s.stopping || e == StopPool)
  {
  }

  /** The stream's records are those of the events: every chunk before the end of
      the body counts, a wrong path is remembered, and so is the stop. */
  lemma {:induction false} RecordsEvents(events: seq<Event>)
    ensures var s := Run(events);
      && |s.chunks| == Received(events)
      && (s.strayChunk <==> exists i :: 0 <= i < |events| && events[i] == Data(false) && End !in events[..i])
      && (s.stream.endReceived <==> End in events) && (s.stopping <==> StopPool in events)
    decreases |events|
  {
    if events != [] {
      var before, last := events[..|events| - 1], events[|events| - 1];
      RecordsEvents(before);
      assert events == before + [last];
      forall i | 0 <= i < |before| ensures events[..i] == before[..i] && events[i] == before[i] {
      }
      assert Enabled(Run(before), last) || Run(events) == Run(before);
      if Enabled(Run(before), last) {
        NextRecords(Run(before), last);
      }
      assert last.Data? || last.End? ==> (Enabled(Run(before), last) <==> !Run(before).stream.endReceived);
      hide Next, Enabled;
      if Run(before).strayChunk {
        var i :| 0 <= i < |before| && before[i] == Data(false) && End !in before[..i];
        assert events[i] == Data(false) && End !in events[..i];
      }
      if last == Data(false) && End !in before {
        assert events[|before|] == Data(false) && events[..|before|] == before;
      }
    }
  }

  /** Data on a wrong path before the end of the body is answered with an error. */
  lemma StrayIsRefused(events: seq<Event>, i: nat)
    requires i < |events| && events[i] == Data(false) && End !in events[..i]
    ensures Run(events).stream.responses == [] || Run(events).stream.responses == [400]
  {
    RecordsEvents(events);
    OneHonestResponse(events);
  }

  // ------------------------------------------------------- answering early

  /** A response has gone out while a completion is still to come. */
  predicate AnsweredEarly(s: System) { s.stream.submitted && !Settled(s) }

  ghost predicate CanBeAnsweredEarly(s: System) {
    exists more: seq<Event> :: AnsweredEarly(RunFrom(s, more))
  }

  /** Without a refusal the response waits for every chunk, whatever fails. */
  lemma NoRefusalNeverEarly(events: seq<Event>)
    requires Run(events).refusals == 0
    ensures !AnsweredEarly(Run(events))
    ensures Run(events).stream.pending == Outstanding(Run(events).chunks)
  {
    RunInv(INITIAL, events);
  }

  lemma {:induction false} ChunksOnlyFinish(start: System, events: seq<Event>)
    requires start.stream.endReceived
    ensures var s := RunFrom(start, events);
      s.stream.endReceived && s.refusals == start.refusals && |s.chunks| == |start.chunks|
    decreases |events|
  {
    if events != [] {
      ChunksOnlyFinish(start, events[..|events| - 1]);
    }
  }

  lemma {:induction false} RunFirst(start: System, e: Event, events: seq<Event>)
    requires Enabled(start, e)
    ensures RunFrom(start, [e] + events) == RunFrom(Next(start, e), events)
    decreases |events|
  {
    if events == [] {
      assert [e] + [] == [e] && [e][..0] == [];
      assert RunFrom(start, []) == start;
    } else {
      RunFirst(start, e, events[..|events| - 1]);
      assert ([e] + events)[..|[e] + events| - 1] == [e] + events[..|events| - 1];
    }
  }

  /** Completing chunks one by one releases the response while others are still
      outstanding, if the count is too low. */
  lemma {:induction false} CompleteToAnswer(s: System) returns (events: seq<Event>)
    requires Inv(s) && s.stream.endReceived && s.refusals > 0
    requires s.stream.pending < Outstanding(s.chunks)
    ensures AnsweredEarly(RunFrom(s, events))
    decreases s.stream.pending
  {
    if s.stream.pending == 0 {
      events := [];
    } else {
      var k :| 0 <= k < |s.chunks| && !s.chunks[k].Finished?;
      var e := Complete(k, true, []);
      OutstandingFinish(s.chunks, k, false);
      CompleteKeepsInv(s, k, true, []);
      var more := CompleteToAnswer(Next(s, e));
      RunFirst(s, e, more);
      events := [e] + more;
    }
  }

  /** A stream whose body has ended and that is not answered yet can be answered
      before all its completions came if and only if the pool refused one of its
      chunks; equivalently, if the count is below the number outstanding. */
  lemma AnsweredEarlyExactly(past: seq<Event>)
    requires Run(past).stream.endReceived && !Run(past).stream.submitted
    ensures CanBeAnsweredEarly(Run(past)) <==> Run(past).refusals > 0
    ensures Run(past).refusals > 0 <==> Run(past).stream.pending < Outstanding(Run(past).chunks)
  {
    var s := Run(past);
    RunInv(INITIAL, past);
    if s.refusals > 0 {
      var more := CompleteToAnswer(s);
      assert AnsweredEarly(RunFrom(s, more));
    } else {
      forall more: seq<Event> ensures !AnsweredEarly(RunFrom(s, more)) {
        RunInv(s, more);
        ChunksOnlyFinish(s, more);
      }
    }
  }

  lemma RunLast(start: System, events: seq<Event>, e: Event)
    requires Enabled(RunFrom(start, events), e)
    ensures RunFrom(start, events + [e]) == Next(RunFrom(start, events), e)
  {
    assert (events + [e])[..|events|] == events;
  }

  /** Such a run: a chunk is taken, the pool stops and refuses the next one. */
  lemma RefusalCanAnswerEarly() returns (past: seq<Event>)
    ensures Run(past).stream.endReceived && !Run(past).stream.submitted && Run(past).refusals > 0
  {
    past := [];
    RunLast(INITIAL, past, Data(true));
    past := past + [Data(true)];
    RunLast(INITIAL, past, Data(true));
    past := past + [Data(true)];
    RunLast(INITIAL, past, StopPool);
    past := past + [StopPool];
    RunLast(INITIAL, past, Data(true));
    past := past + [Data(true)];
    RunLast(INITIAL, past, End);
    past := past + [End];
    assert Run(past).stream.pending == 2;
  }
}
