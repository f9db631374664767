/**
 The dispatcher of one event connection: bytes go into a frame decoder, every
 completed frame of a push is decoded, and only then are the events handled and
 the accepted ones entered in the connection registry. Payload decoding and the
 service's verdict are parameters.
 */
module ControlDispatcher {
  import opened Prelude
  import opened ConnectionRegistry
  import opened FrameCodec

  datatype Kind = Registration | Heartbeat | OtherEvent

  datatype AgentEvent = AgentEvent(kind: Kind, agentId: string, occurredAt: string, body: Bytes)

  /** `accepts` may depend on everything handled before. */
  datatype Service = Service(decode: Bytes -> Option<AgentEvent>, accepts: (seq<AgentEvent>, AgentEvent) -> bool)

  datatype EventResult = Accepted | Refused | InvalidChunk

  /** The events handled so far, and the registry. */
  datatype Progress = Progress(handled: seq<AgentEvent>, registry: State)

  function DecodedAll(svc: Service, frames: seq<Bytes>): (r: Option<seq<AgentEvent>>)
    ensures r.Some? <==> forall f :: f in frames ==> svc.decode(f).Some?
    ensures r.Some? ==> |r.value| == |frames| && forall i :: 0 <= i < |frames| ==>
        svc.decode(frames[i]) == Some(r.value[i])
    decreases |frames|
  {
    if frames == [] then Some([])
    else
      var front, last := frames[..|frames| - 1], frames[|frames| - 1];
      assert frames == front + [last];
      var events, event := DecodedAll(svc, front), svc.decode(last);
      if events.None? || event.None? then None else Some(events.value + [event.value])
  }

  function Recorded(s: State, id: string, e: AgentEvent): (r: State) {
    if id == "" then s
    else if e.kind.Registration? then Bind(s, id, e.agentId, e.occurredAt)
    else if e.kind.Heartbeat? then ConnectionRegistry.Heartbeat(s, id, e.agentId, e.occurredAt)
    else s
  }

  function HandledOne(svc: Service, id: string, p: Progress, e: AgentEvent): (r: Progress) {
    Progress(p.handled + [e], if svc.accepts(p.handled, e) then Recorded(p.registry, id, e) else p.registry)
  }

  function HandledAll(svc: Service, id: string, p: Progress, events: seq<AgentEvent>): (r: Progress)
    decreases |events|
  {
    if events == [] then p
    else HandledOne(svc, id, HandledAll(svc, id, p, events[..|events| - 1]), events[|events| - 1])
  }

  lemma {:induction false} HandledConcat(svc: Service, id: string, p: Progress, a: seq<AgentEvent>, b: seq<AgentEvent>)
    ensures HandledAll(svc, id, p, a + b) == HandledAll(svc, id, HandledAll(svc, id, p, a), b)
    decreases |b|
  {
    if b == [] {
      assert a + b == a;
    } else {
      HandledConcat(svc, id, p, a, b[..|b| - 1]);
      assert (a + b)[..|a + b| - 1] == a + b[..|b| - 1];
    }
  }

  lemma {:induction false} HandledAppends(svc: Service, id: string, p: Progress, events: seq<AgentEvent>)
    ensures HandledAll(svc, id, p, events).handled == p.handled + events
    decreases |events|
  {
    if events == [] {
      assert p.handled + [] == p.handled;
    } else {
      HandledAppends(svc, id, p, events[..|events| - 1]);
    }
  }

  // ------------------------------------------------------- what accepted events leave in the registry

  predicate TiesAgent(e: AgentEvent) {
    (e.kind.Registration? || e.kind.Heartbeat?) && e.agentId != "" && e.occurredAt != ""
  }

  /** The `i`-th of these events, after those handled before, is accepted and
      ties its agent to the connection. */
  predicate Ties(svc: Service, before: seq<AgentEvent>, events: seq<AgentEvent>, i: nat)
    requires i < |events|
  {
    svc.accepts(before + events[..i], events[i]) && TiesAgent(events[i])
  }

  ghost predicate LastTie(svc: Service, before: seq<AgentEvent>, events: seq<AgentEvent>, i: nat)
    requires i < |events|
  {
    Ties(svc, before, events, i) && forall j :: i < j < |events| ==> !Ties(svc, before, events, j)
  }

  /** A lookup of the event's agent answers this connection, bound to that agent;
      a heartbeat's time is noted. */
  ghost predicate Found(s: State, id: string, e: AgentEvent) {
    match FindByAgent(s, e.agentId)
    case None => false
    case Some(c) =>
      && c.connectionId == id && c.agentId == Some(e.agentId)
      && (e.kind.Heartbeat? ==> c.lastHeartbeatAt == Some(e.occurredAt))
  }

  lemma RecordedIsFound(s: State, id: string, e: AgentEvent)
    requires Indexed(s)
    ensures Indexed(Recorded(s, id, e))
    ensures if id != "" && TiesAgent(e) then Found(Recorded(s, id, e), id, e) else Recorded(s, id, e) == s
  {
    IndexedStep(s, BindOp(id, e.agentId, e.occurredAt));
    IndexedStep(s, HeartbeatOp(id, e.agentId, e.occurredAt));
  }

  /** After any events, the last accepted registration or heartbeat decides: its
      agent is found on this connection. Without one the registry is as before. */
  lemma {:induction false} LastTieIsFound(svc: Service, id: string, p: Progress, events: seq<AgentEvent>)
    requires Indexed(p.registry)
    ensures var s := HandledAll(svc, id, p, events).registry;
      && Indexed(s)
      && (forall i :: 0 <= i < |events| && id != "" && LastTie(svc, p.handled, events, i) ==> Found(s, id, events[i]))
      && (id == "" || (forall i :: 0 <= i < |events| ==> !Ties(svc, p.handled, events, i)) ==> s == p.registry)
    decreases |events|
  {
    if events != [] {
      var n := |events| - 1;
      var front, last := events[..n], events[n];
      LastTieIsFound(svc, id, p, front);
      HandledAppends(svc, id, p, front);
      RecordedIsFound(HandledAll(svc, id, p, front).registry, id, last);
      assert Ties(svc, p.handled, events, n) <==> svc.accepts(p.handled + front, last) && TiesAgent(last);
      forall i | 0 <= i < n ensures Ties(svc, p.handled, events, i) <==> Ties(svc, p.handled, front, i) {
        assert events[..i] == front[..i];
      }
      hide Ties, Found, Indexed, Recorded, TiesAgent;
    }
  }

  /** One push: all of its frames' events are handled, or none. */
  function Pushed(svc: Service, id: string, p: Progress, frames: seq<Bytes>): (r: Progress) {
    var events := DecodedAll(svc, frames);
    if events.None? then p else HandledAll(svc, id, p, events.value)
  }

  class Dispatcher {
    const service: Service
    const connectionId: string
    const decoder: FrameDecoder
    const registry: Registry
    /** What the service has been asked to handle, in order. */
    var handled: seq<AgentEvent>

    constructor (svc: Service, id: string, shared: Registry)
      ensures service == svc && connectionId == id && registry == shared && handled == []
      ensures fresh(decoder) && decoder.maxFrameBytes == DEFAULT_MAX_FRAME_BYTES && decoder.buffer == []
    {
      service, connectionId, registry, handled := svc, id, shared, [];
      decoder := new FrameDecoder(DEFAULT_MAX_FRAME_BYTES);
    }

    function View(): (p: Progress)
      reads this, registry
    {
      Progress(handled, registry.View())
    }

    /** `events` are those of the frames this push completed, if all decode. */
    method PushEventBytes(bytes: Bytes) returns (results: seq<EventResult>, ghost events: seq<AgentEvent>)
      requires Indexed(registry.View())
      modifies this, decoder, registry
      ensures Indexed(registry.View())
      ensures var p := ParseStream(decoder.maxFrameBytes, old(decoder.buffer) + bytes);
        && decoder.buffer == p.rest
        && View() == (if p.ok then Pushed(service, connectionId, old(View()), p.frames) else old(View()))
        && (if p.ok && (forall f :: f in p.frames ==> service.decode(f).Some?)
            then |results| == |events| == |p.frames|
                 && (forall i :: 0 <= i < |events| ==> service.decode(p.frames[i]) == Some(events[i]))
            else results == [InvalidChunk] && events == [])
      ensures handled == old(handled) + events
      ensures forall i :: 0 <= i < |events| ==>
        results[i] == if service.accepts(old(handled) + events[..i], events[i]) then Accepted else Refused
      ensures connectionId != "" ==>
        forall i :: 0 <= i < |events| && LastTie(service, old(handled), events, i) ==>
          Found(registry.View(), connectionId, events[i])
      ensures connectionId == "" || (forall i :: 0 <= i < |events| ==> !Ties(service, old(handled), events, i)) ==>
        registry.View() == old(registry.View())
    {
      hide ParseStream, Recorded, Indexed, Ties, Found, LastTie;
      var pushed := decoder.Push(bytes);
      if pushed.Err? {
        assert handled + [] == handled;
        return [InvalidChunk], [];
      }
      var decoded := DecodeFrames(pushed.value);
      if decoded.None? {
        assert handled + [] == handled;
        return [InvalidChunk], [];
      }
      LastTieIsFound(service, connectionId, View(), decoded.value);
      results := HandleEvents(decoded.value);
      events := decoded.value;
    }

    /** Decodes every frame before any event is handled. */
    method DecodeFrames(frames: seq<Bytes>) returns (r: Option<seq<AgentEvent>>)
      ensures r == DecodedAll(service, frames)
    {
      var decoded: seq<AgentEvent> := [];
      assert frames[..0] == [];
      for i := 0 to |frames|
        invariant DecodedAll(service, frames[..i]) == Some(decoded)
      {
        assert frames[..i + 1][..i] == frames[..i];
        var event := service.decode(frames[i]);
        if event.None? {
          assert frames[i] in frames;
          return None;
        }
        decoded := decoded + [event.value];
      }
      assert frames[..|frames|] == frames;
      return Some(decoded);
    }

    /** The events of one chunk, one after the other. */
    method HandleEvents(events: seq<AgentEvent>) returns (results: seq<EventResult>)
      requires Indexed(registry.View())
      modifies this, registry
      ensures Indexed(registry.View())
      ensures View() == HandledAll(service, connectionId, old(View()), events)
      ensures handled == old(handled) + events
      ensures |results| == |events|
      ensures forall i :: 0 <= i < |events| ==>
        results[i] == if service.accepts(old(handled) + events[..i], events[i]) then Accepted else Refused
    {
      hide Recorded, Indexed;
      results := [];
      assert events[..0] == [] && handled + [] == handled;
      for i := 0 to |events|
        invariant Indexed(registry.View())
        invariant View() == HandledAll(service, connectionId, old(View()), events[..i])
        invariant handled == old(handled) + events[..i]
        invariant |results| == i
        invariant forall k :: 0 <= k < i ==>
          results[k] == if service.accepts(old(handled) + events[..k], events[k]) then Accepted else Refused
      {
        assert events[..i + 1][..i] == events[..i];
        var event := events[i];
        var accepted := service.accepts(handled, event);
        handled := handled + [event];
        if accepted {
          RecordAcceptedEvent(event);
        }
        results := results + [if accepted then Accepted else Refused];
      }
      assert events[..|events|] == events;
    }

    method RecordAcceptedEvent(event: AgentEvent)
      requires Indexed(registry.View())
      modifies registry
      ensures registry.View() == Recorded(old(registry.View()), connectionId, event) && Indexed(registry.View())
      ensures connectionId == "" || event.kind.OtherEvent? || event.agentId == "" || event.occurredAt == "" ==>
        registry.View() == old(registry.View())
      ensures connectionId != "" && !event.kind.OtherEvent? && event.agentId != "" && event.occurredAt != "" ==>
        var c := FindByAgent(registry.View(), event.agentId);
        && c.Some? && c.value.connectionId == connectionId && c.value.agentId == Some(event.agentId)
        && (event.kind.Heartbeat? ==> c.value.lastHeartbeatAt == Some(event.occurredAt))
        && (event.kind.Registration? ==>
              var was := old(registry.connectionsById);
              c.value.lastHeartbeatAt == if connectionId in was then was[connectionId].lastHeartbeatAt else None)
    {
      if connectionId == "" {
        return;
      }
      IndexedStep(registry.View(), BindOp(connectionId, event.agentId, event.occurredAt));
      IndexedStep(registry.View(), HeartbeatOp(connectionId, event.agentId, event.occurredAt));
      if event.kind.Registration? {
        var _ := registry.BindAgent(connectionId, event.agentId, event.occurredAt);
      } else if event.kind.Heartbeat? {
        var _ := registry.RecordHeartbeat(connectionId, event.agentId, event.occurredAt);
      }
    }
  }

  // ------------------------------------------------------- runs of pushes

  /** Pushes one after the other, in order; a chunk that fails is answered and
      the stream goes on. */
  function PushedAll(svc: Service, id: string, limit: nat, buffer: Bytes, p: Progress, cuts: seq<Bytes>): (r: Progress)
    decreases |cuts|
  {
    if cuts == [] then p
    else
      var parse := ParseStream(limit, buffer + cuts[0]);
      PushedAll(svc, id, limit, parse.rest, if parse.ok then Pushed(svc, id, p, parse.frames) else p, cuts[1..])
  }

  /** Nothing after an over-long prefix is ever handled. */
  lemma {:induction false} OverlongSilences(svc: Service, id: string, limit: nat, buffer: Bytes, p: Progress,
                                            cuts: seq<Bytes>)
    requires ParseStream(limit, buffer) == Parse([], buffer, false)
    ensures PushedAll(svc, id, limit, buffer, p, cuts) == p
    decreases |cuts|
  {
    if cuts != [] {
      OverlongPrefixIsFinal(limit, buffer, cuts[0]);
      ParseSplit(limit, buffer, cuts[0]);
      RestIsDrained(limit, buffer + cuts[0]);
      OverlongSilences(svc, id, limit, ParseStream(limit, buffer + cuts[0]).rest, p, cuts[1..]);
    }
  }

  lemma DecodedConcat(svc: Service, a: seq<Bytes>, b: seq<Bytes>)
    requires DecodedAll(svc, a + b).Some?
    ensures DecodedAll(svc, a).Some? && DecodedAll(svc, b).Some?
    ensures DecodedAll(svc, a + b).value == DecodedAll(svc, a).value + DecodedAll(svc, b).value
  {
    var whole, left, right := DecodedAll(svc, a + b), DecodedAll(svc, a), DecodedAll(svc, b);
    assert forall f :: f in a ==> f in a + b;
    assert forall f :: f in b ==> f in a + b;
    forall i | 0 <= i < |a| + |b| ensures whole.value[i] == (left.value + right.value)[i] {
      assert svc.decode((a + b)[i]) == Some(whole.value[i]);
    }
  }

  lemma PushedConcat(svc: Service, id: string, p: Progress, a: seq<Bytes>, b: seq<Bytes>)
    requires DecodedAll(svc, a + b).Some?
    ensures Pushed(svc, id, p, a + b) == Pushed(svc, id, Pushed(svc, id, p, a), b)
    ensures DecodedAll(svc, b).Some?
  {
    DecodedConcat(svc, a, b);
    HandledConcat(svc, id, p, DecodedAll(svc, a).value, DecodedAll(svc, b).value);
  }

  /** However an event stream is cut, as long as the pushes arrive in order and
      its frames decode, the events handled and the registry are those of one
      push of the whole stream. */
  lemma {:induction false} CutsDoNotMatter(svc: Service, id: string, limit: nat, buffer: Bytes, p: Progress,
                                           cuts: seq<Bytes>)
    requires ParseStream(limit, buffer) == Parse([], buffer, true)
    requires var whole := ParseStream(limit, buffer + Concat(cuts)); whole.ok && DecodedAll(svc, whole.frames).Some?
    ensures var whole := ParseStream(limit, buffer + Concat(cuts));
      PushedAll(svc, id, limit, buffer, p, cuts) == Pushed(svc, id, p, whole.frames)
    decreases |cuts|
  {
    if cuts == [] {
      assert buffer + Concat(cuts) == buffer;
    } else {
      var s := buffer + cuts[0];
      assert buffer + Concat(cuts) == s + Concat(cuts[1..]);
      ParseSplit(limit, s, Concat(cuts[1..]));
      RestIsDrained(limit, s);
      hide ParseStream, Pushed, DecodedAll, Concat;
      var first := ParseStream(limit, s);
      var rest := ParseStream(limit, first.rest + Concat(cuts[1..]));
      PushedConcat(svc, id, p, first.frames, rest.frames);
      CutsDoNotMatter(svc, id, limit, first.rest, Pushed(svc, id, p, first.frames), cuts[1..]);
    }
  }

  // ------------------------------------------------------- when the cuts matter

  /** The events of the frames that decode. */
  function Decodable(svc: Service, frames: seq<Bytes>): (events: seq<AgentEvent>)
    ensures events == [] <==> forall f :: f in frames ==> svc.decode(f).None?
    ensures |events| == |frames| <==> forall f :: f in frames ==> svc.decode(f).Some?
    ensures |events| <= |frames|
  {
    if frames == [] then []
    else
      assert frames == [frames[0]] + frames[1..];
      var e := svc.decode(frames[0]);
      (if e.Some? then [e.value] else []) + Decodable(svc, frames[1..])
  }

  lemma {:induction false} DecodableAll(svc: Service, frames: seq<Bytes>)
    requires DecodedAll(svc, frames).Some?
    ensures Decodable(svc, frames) == DecodedAll(svc, frames).value
  {
    if frames != [] {
      assert frames == [frames[0]] + frames[1..];
      DecodedConcat(svc, [frames[0]], frames[1..]);
      DecodableAll(svc, frames[1..]);
      assert DecodedAll(svc, [frames[0]]).value == [svc.decode(frames[0]).value];
    }
  }

  /** A push handles all the frames it completes if every one of them decodes,
      and otherwise none. */
  lemma PushHandles(svc: Service, id: string, p: Progress, frames: seq<Bytes>)
    ensures Pushed(svc, id, p, frames).handled ==
      p.handled + if forall f :: f in frames ==> svc.decode(f).Some? then Decodable(svc, frames) else []
    ensures (exists f :: f in frames && svc.decode(f).None?) ==> Pushed(svc, id, p, frames) == p
  {
    if DecodedAll(svc, frames).Some? {
      DecodableAll(svc, frames);
      HandledAppends(svc, id, p, DecodedAll(svc, frames).value);
    }
  }

  /** The stream in one push. An over-long length loses every frame completed
      by the same push. */
  lemma OnePush(svc: Service, id: string, limit: nat, p: Progress, s: Bytes)
    ensures var whole := ParseStream(limit, s);
      PushedAll(svc, id, limit, [], p, [s]) == if whole.ok then Pushed(svc, id, p, whole.frames) else p
  {
    hide ParseStream, Pushed;
    assert [] + s == s && |[s][1..]| == 0;
  }

  /** The stream cut after every complete frame. */
  function FrameCuts(limit: nat, s: Bytes): (cuts: seq<Bytes>)
    decreases |s|
  {
    if |s| >= PREFIX && ReadLength(s) <= limit && |s| >= PREFIX + ReadLength(s) then
      [s[..PREFIX + ReadLength(s)]] + FrameCuts(limit, s[PREFIX + ReadLength(s)..])
    else [s]
  }

  lemma {:induction false} FrameCutsConcat(limit: nat, s: Bytes)
    ensures Concat(FrameCuts(limit, s)) == s
    decreases |s|
  {
    hide ReadLength;
    if |s| >= PREFIX && ReadLength(s) <= limit && |s| >= PREFIX + ReadLength(s) {
      var size := PREFIX + ReadLength(s);
      FrameCutsConcat(limit, s[size..]);
      assert FrameCuts(limit, s)[1..] == FrameCuts(limit, s[size..]);
    } else {
      assert [s][1..] == [] && s + [] == s;
    }
  }

  lemma FirstFrame(limit: nat, s: Bytes)
    requires |s| >= PREFIX && ReadLength(s) <= limit && |s| >= PREFIX + ReadLength(s)
    ensures var size := PREFIX + ReadLength(s);
      && ParseStream(limit, s[..size]) == Parse([s[PREFIX..size]], [], true)
      && ParseStream(limit, s).frames == [s[PREFIX..size]] + ParseStream(limit, s[size..]).frames
  {
    var size := PREFIX + ReadLength(s);
    var head := s[..size];
    assert ReadLength(head) == ReadLength(s);
    hide ReadLength;
    assert head[PREFIX..size] == s[PREFIX..size] && head[size..] == [];
    assert [s[PREFIX..size]] + [] == [s[PREFIX..size]];
  }

  lemma PushFirst(svc: Service, id: string, limit: nat, p: Progress, first: Bytes, payload: Bytes, rest: seq<Bytes>)
    requires ParseStream(limit, first) == Parse([payload], [], true)
    ensures PushedAll(svc, id, limit, [], p, [first] + rest) ==
        PushedAll(svc, id, limit, [], Pushed(svc, id, p, [payload]), rest)
  {
    hide ParseStream, Pushed;
    assert [] + first == first && ([first] + rest)[1..] == rest;
  }

  /** Frame by frame, exactly the frames that decode are handled, also those
      before an over-long length. */
  lemma {:induction false} FrameByFrame(svc: Service, id: string, limit: nat, p: Progress, s: Bytes)
    ensures PushedAll(svc, id, limit, [], p, FrameCuts(limit, s)).handled
         == p.handled + Decodable(svc, ParseStream(limit, s).frames)
    decreases |s|
  {
    hide ReadLength, ParseStream, Pushed, PushedAll, FrameCuts, Decodable;
    if |s| >= PREFIX && ReadLength(s) <= limit && |s| >= PREFIX + ReadLength(s) {
      var size := PREFIX + ReadLength(s);
      var payload, tail := s[PREFIX..size], s[size..];
      var more := ParseStream(limit, tail).frames;
      FirstFrame(limit, s);
      FirstCut(limit, s);
      var q := Pushed(svc, id, p, [payload]);
      PushFirst(svc, id, limit, p, s[..size], payload, FrameCuts(limit, tail));
      PushHandles(svc, id, p, [payload]);
      FrameByFrame(svc, id, limit, q, tail);
      DecodableCons(svc, payload, more);
      AppendAssociates(p.handled, Decodable(svc, [payload]), Decodable(svc, more));
      assert payload in [payload];
    } else {
      NoFrame(limit, s);
      OnePush(svc, id, limit, p, s);
      PushHandles(svc, id, p, []);
    }
  }

  lemma FirstCut(limit: nat, s: Bytes)
    requires |s| >= PREFIX && ReadLength(s) <= limit && |s| >= PREFIX + ReadLength(s)
    ensures FrameCuts(limit, s) == [s[..PREFIX + ReadLength(s)]] + FrameCuts(limit, s[PREFIX + ReadLength(s)..])
  {
    hide ReadLength;
  }

  lemma NoFrame(limit: nat, s: Bytes)
    requires !(|s| >= PREFIX && ReadLength(s) <= limit && |s| >= PREFIX + ReadLength(s))
    ensures FrameCuts(limit, s) == [s] && ParseStream(limit, s).frames == []
  {
    hide ReadLength;
  }

  lemma DecodableCons(svc: Service, first: Bytes, rest: seq<Bytes>)
    ensures Decodable(svc, [first] + rest) == Decodable(svc, [first]) + Decodable(svc, rest)
    ensures svc.decode(first).None? ==> Decodable(svc, [first]) == []
  {
    assert ([first] + rest)[1..] == rest && [first][1..] == [];
  }

  /** A stream none of whose frames decodes leaves everything as it was, in any cut. */
  lemma {:induction false} NothingDecodes(svc: Service, id: string, limit: nat, buffer: Bytes, p: Progress,
                                          cuts: seq<Bytes>)
    requires ParseStream(limit, buffer) == Parse([], buffer, true)
    requires forall f :: f in ParseStream(limit, buffer + Concat(cuts)).frames ==> svc.decode(f).None?
    ensures PushedAll(svc, id, limit, buffer, p, cuts) == p
    decreases |cuts|
  {
    if cuts != [] {
      var s := buffer + cuts[0];
      var first := ParseStream(limit, s);
      assert buffer + Concat(cuts) == s + Concat(cuts[1..]);
      ParseSplit(limit, s, Concat(cuts[1..]));
      RestIsDrained(limit, s);
      hide ParseStream;
      if first.ok {
        assert forall f :: f in first.frames ==> f in ParseStream(limit, buffer + Concat(cuts)).frames;
        if first.frames != [] {
          assert first.frames[0] in first.frames;
          PushHandles(svc, id, p, first.frames);
        }
        NothingDecodes(svc, id, limit, first.rest, p, cuts[1..]);
      } else {
        OverlongSilences(svc, id, limit, first.rest, p, cuts[1..]);
      }
    }
  }

  /** What is handled and recorded does not depend on how the stream is cut. */
  ghost predicate CutIndependent(svc: Service, id: string, limit: nat, p: Progress, s: Bytes) {
    forall a: seq<Bytes>, b: seq<Bytes> :: Concat(a) == s && Concat(b) == s ==>
      PushedAll(svc, id, limit, [], p, a) == PushedAll(svc, id, limit, [], p, b)
  }

  lemma NoneDecodesIndependent(svc: Service, id: string, limit: nat, p: Progress, s: Bytes)
    requires forall f :: f in ParseStream(limit, s).frames ==> svc.decode(f).None?
    ensures CutIndependent(svc, id, limit, p, s)
  {
    hide ParseStream, PushedAll;
    ParseNothing(limit);
    forall cuts: seq<Bytes> | Concat(cuts) == s ensures PushedAll(svc, id, limit, [], p, cuts) == p {
      assert [] + Concat(cuts) == s;
      NothingDecodes(svc, id, limit, [], p, cuts);
    }
  }

  lemma AllDecodeIndependent(svc: Service, id: string, limit: nat, p: Progress, s: Bytes)
    requires ParseStream(limit, s).ok && forall f :: f in ParseStream(limit, s).frames ==> svc.decode(f).Some?
    ensures CutIndependent(svc, id, limit, p, s)
  {
    hide ParseStream, PushedAll, Pushed;
    ParseNothing(limit);
    var frames := ParseStream(limit, s).frames;
    forall cuts: seq<Bytes> | Concat(cuts) == s
      ensures PushedAll(svc, id, limit, [], p, cuts) == Pushed(svc, id, p, frames)
    {
      assert [] + Concat(cuts) == s;
      CutsDoNotMatter(svc, id, limit, [], p, cuts);
    }
  }

  /** Otherwise frame by frame and in one push differ. */
  lemma SomeDecodeDepends(svc: Service, id: string, limit: nat, p: Progress, s: Bytes)
    requires var whole := ParseStream(limit, s);
      && (exists f :: f in whole.frames && svc.decode(f).Some?)
      && (!whole.ok || exists f :: f in whole.frames && svc.decode(f).None?)
    ensures !CutIndependent(svc, id, limit, p, s)
  {
    hide ParseStream, Pushed, PushedAll;
    var whole, cuts := ParseStream(limit, s), FrameCuts(limit, s);
    FrameCutsConcat(limit, s);
    FrameByFrame(svc, id, limit, p, s);
    OnePush(svc, id, limit, p, s);
    PushHandles(svc, id, p, whole.frames);
    assert Concat([s]) == s by { assert [s][1..] == [] && s + [] == s; }
    assert PushedAll(svc, id, limit, [], p, [s]).handled == p.handled;
    assert PushedAll(svc, id, limit, [], p, cuts) != PushedAll(svc, id, limit, [], p, [s]);
  }

  /** For every stream: the cuts do not matter if and only if none of its frames
      decodes, or all of them do and no over-long length follows. */
  lemma CutsMatterExactly(svc: Service, id: string, limit: nat, p: Progress, s: Bytes)
    ensures var whole := ParseStream(limit, s);
      CutIndependent(svc, id, limit, p, s) <==>
        || (forall f :: f in whole.frames ==> svc.decode(f).None?)
        || (whole.ok && forall f :: f in whole.frames ==> svc.decode(f).Some?)
  {
    hide ParseStream, CutIndependent;
    var whole := ParseStream(limit, s);
    if forall f :: f in whole.frames ==> svc.decode(f).None? {
      NoneDecodesIndependent(svc, id, limit, p, s);
    } else if whole.ok && forall f :: f in whole.frames ==> svc.decode(f).Some? {
      AllDecodeIndependent(svc, id, limit, p, s);
    } else {
      SomeDecodeDepends(svc, id, limit, p, s);
    }
  }
}
