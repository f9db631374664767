/**
 The connection registry of apps/server: live control connections by id, and
 an index from each agent to the connection it was last seen on.
 */
module ConnectionRegistry {
  import opened Prelude

  datatype Connection = Connection(
    connectionId: string,
    agentId: Option<string>,
    connectedAt: string,
    disconnectedAt: Option<string>,
    lastHeartbeatAt: Option<string>)

  datatype Closed = Closed(
    connectionId: string,
    agentId: Option<string>,
    disconnectedAt: string,
    wasCurrent: bool)

  /** The two maps of the registry as one value. */
  datatype State = State(byId: map<string, Connection>, byAgent: map<string, string>)

  function NewConnection(id: string, at: string): (r: Connection) {
    Connection(id, None, at, None, None)
  }

  // ------------------------------------------------------- the operations on values

  function Open(s: State, id: string, at: string): (r: State) {
    if id == "" || at == "" then s else s.(byId := s.byId[id := NewConnection(id, at)])
  }

  /** The connection an agent is taken away from when `id` binds it. */
  function Superseded(s: State, id: string, agent: string): (r: set<string>) {
    if agent in s.byAgent && s.byAgent[agent] != id then {s.byAgent[agent]} else {}
  }

  function Bind(s: State, id: string, agent: string, at: string): (r: State) {
    if agent == "" || at == "" then s
    else
      var c := if id in s.byId then s.byId[id] else NewConnection(id, at);
      State((s.byId - Superseded(s, id, agent))[id := c.(agentId := Some(agent), disconnectedAt := None)],
            s.byAgent[agent := id])
  }

  function Heartbeat(s: State, id: string, agent: string, at: string): (r: State) {
    if agent == "" || at == "" then s
    else
      var b := Bind(s, id, agent, at);
      b.(byId := b.byId[id := b.byId[id].(lastHeartbeatAt := Some(at))])
  }

  function Close(s: State, id: string, at: string): (r: (State, Option<Closed>)) {
    if id !in s.byId then (s, None)
    else
      var c := s.byId[id];
      var current := c.agentId.Some? && c.agentId.value in s.byAgent && s.byAgent[c.agentId.value] == c.connectionId;
      (State(s.byId - {id}, if current then s.byAgent - {c.agentId.value} else s.byAgent),
       Some(Closed(c.connectionId, c.agentId, at, current)))
  }

  function FindByAgent(s: State, agent: string): (r: Option<Connection>) {
    if agent in s.byAgent && s.byAgent[agent] in s.byId && s.byId[s.byAgent[agent]].disconnectedAt.None?
    then Some(s.byId[s.byAgent[agent]]) else None
  }

  /** The agent a session marks offline when it closes its connection. */
  function MarkedOffline(s: State, id: string, at: string): (r: Option<string>) {
    var closed := Close(s, id, at).1;
    if closed.Some? && closed.value.agentId.Some? && closed.value.wasCurrent
    then closed.value.agentId else None
  }

  // ------------------------------------------------------- the registry object

  class Registry {
    var connectionsById: map<string, Connection>
    var connectionByAgentId: map<string, string>

    function View(): (s: State)
      reads this
    {
      State(connectionsById, connectionByAgentId)
    }

    constructor ()
      ensures View() == State(map[], map[])
    {
      connectionsById := map[];
      connectionByAgentId := map[];
    }

    method OpenConnection(id: string, at: string) returns (accepted: bool)
      modifies this
      ensures accepted <==> id != "" && at != ""
      ensures View() == Open(old(View()), id, at)
      ensures connectionByAgentId == old(connectionByAgentId)
      ensures accepted ==>
        connectionsById == old(connectionsById)[id := Connection(id, None, at, None, None)]
      ensures !accepted ==> connectionsById == old(connectionsById)
    {
      if id == "" || at == "" {
        return false;
      }
      connectionsById := connectionsById[id := NewConnection(id, at)];
      return true;
    }

    method CloseConnection(id: string, at: string) returns (closed: Option<Closed>)
      modifies this
      ensures (View(), closed) == Close(old(View()), id, at)
      ensures connectionsById == old(connectionsById) - {id}
      ensures closed.Some? <==> id in old(connectionsById)
      ensures closed.Some? ==>
        var was := old(connectionsById)[id];
        && closed.value.connectionId == was.connectionId && closed.value.agentId == was.agentId
        && closed.value.disconnectedAt == at
        && (closed.value.wasCurrent <==>
              was.agentId.Some? && was.agentId.value in old(connectionByAgentId)
              && old(connectionByAgentId)[was.agentId.value] == was.connectionId)
      ensures connectionByAgentId ==
        old(connectionByAgentId) - if closed.Some? && closed.value.wasCurrent then {closed.value.agentId.value} else {}
    {
      if id !in connectionsById {
        return None;
      }
      var connection := connectionsById[id];
      var snapshot := Closed(connection.connectionId, connection.agentId, at, false);
      connectionsById := connectionsById[id := connection.(disconnectedAt := Some(at))];
      if connection.agentId.Some? {
        var agent := connection.agentId.value;
        if agent in connectionByAgentId && connectionByAgentId[agent] == connection.connectionId {
          connectionByAgentId := connectionByAgentId - {agent};
          snapshot := snapshot.(wasCurrent := true);
        }
      }
      connectionsById := connectionsById - {id};
      assert connectionsById == old(connectionsById) - {id};
      return Some(snapshot);
    }

    method BindAgentLocked(id: string, agent: string, at: string)
      requires agent != "" && at != ""
      requires id in connectionsById ==> connectionsById[id].connectionId == id
      modifies this
      ensures View() == Bind(old(View()), id, agent, at)
      ensures connectionByAgentId == old(connectionByAgentId)[agent := id]
      ensures id in connectionsById
      ensures var c := connectionsById[id];
        && c.connectionId == id && c.agentId == Some(agent) && c.disconnectedAt.None?
        && (id in old(connectionsById) ==>
              c.connectedAt == old(connectionsById)[id].connectedAt
              && c.lastHeartbeatAt == old(connectionsById)[id].lastHeartbeatAt)
        && (id !in old(connectionsById) ==> c.connectedAt == at && c.lastHeartbeatAt.None?)
      ensures forall other :: other != id ==>
        if agent in old(connectionByAgentId) && old(connectionByAgentId)[agent] == other
        then other !in connectionsById
        else (other in connectionsById <==> other in old(connectionsById))
             && (other in connectionsById ==> connectionsById[other] == old(connectionsById)[other])
    {
      if id !in connectionsById {
        connectionsById := connectionsById[id := NewConnection(id, at)];
      }
      var connection := connectionsById[id];
      if agent in connectionByAgentId && connectionByAgentId[agent] != connection.connectionId {
        var previous := connectionByAgentId[agent];
        if previous in connectionsById {
          connectionsById := connectionsById - {previous};
        }
      }
      connectionsById := connectionsById[id := connection.(agentId := Some(agent), disconnectedAt := None)];
      connectionByAgentId := connectionByAgentId[agent := connection.connectionId];
      assert connectionsById == Bind(old(View()), id, agent, at).byId;
    }

    method BindAgent(id: string, agent: string, at: string) returns (accepted: bool)
      requires id in connectionsById ==> connectionsById[id].connectionId == id
      modifies this
      ensures accepted <==> agent != "" && at != ""
      ensures View() == Bind(old(View()), id, agent, at)
      ensures !accepted ==> View() == old(View())
      ensures accepted ==> id in connectionsById && connectionsById[id].agentId == Some(agent)
      ensures accepted ==> connectionByAgentId == old(connectionByAgentId)[agent := id]
    {
      if agent == "" || at == "" {
        return false;
      }
      BindAgentLocked(id, agent, at);
      return true;
    }

    method RecordHeartbeat(id: string, agent: string, at: string) returns (accepted: bool)
      requires id in connectionsById ==> connectionsById[id].connectionId == id
      modifies this
      ensures accepted <==> agent != "" && at != ""
      ensures View() == Heartbeat(old(View()), id, agent, at)
      ensures !accepted ==> View() == old(View())
      ensures accepted ==>
        id in connectionsById && connectionsById[id].agentId == Some(agent)
        && connectionsById[id].lastHeartbeatAt == Some(at)
      ensures accepted ==> connectionByAgentId == old(connectionByAgentId)[agent := id]
    {
      if agent == "" || at == "" {
        return false;
      }
      BindAgentLocked(id, agent, at);
      if id in connectionsById {
        connectionsById := connectionsById[id := connectionsById[id].(lastHeartbeatAt := Some(at))];
      }
      return true;
    }
  }

  // ------------------------------------------------------- runs

  datatype Op =
    | OpenOp(id: string, at: string)
    | BindOp(id: string, agent: string, at: string)
    | HeartbeatOp(id: string, agent: string, at: string)
    | CloseOp(id: string, at: string)
  {
    /** The connection and agent this operation ties together, if it does. */
    function Binds(): (r: Option<(string, string)>) {
      match this
      case BindOp(id, agent, at) => if agent == "" || at == "" then None else Some((id, agent))
      case HeartbeatOp(id, agent, at) => if agent == "" || at == "" then None else Some((id, agent))
      case _ => None
    }
  }

  function Apply(s: State, op: Op): (r: State) {
    match op
    case OpenOp(id, at) => Open(s, id, at)
    case BindOp(id, agent, at) => Bind(s, id, agent, at)
    case HeartbeatOp(id, agent, at) => Heartbeat(s, id, agent, at)
    case CloseOp(id, at) => Close(s, id, at).0
  }

  function Run(ops: seq<Op>): (s: State)
    decreases |ops|
  {
    if ops == [] then State(map[], map[]) else Apply(Run(ops[..|ops| - 1]), ops[|ops| - 1])
  }

  /** Every connection is filed under its own id and was never left marked
      disconnected; an agent's bound connection is the one the index names. */
  ghost predicate Indexed(s: State) {
    && (forall id :: id in s.byId ==> s.byId[id].connectionId == id && s.byId[id].disconnectedAt.None?)
    && (forall id :: id in s.byId && s.byId[id].agentId.Some? ==>
          s.byId[id].agentId.value in s.byAgent && s.byAgent[s.byId[id].agentId.value] == id)
  }

  lemma IndexedStep(s: State, op: Op)
    requires Indexed(s)
    ensures Indexed(Apply(s, op))
  {
  }

  /** In every reachable state each agent has at most one bound connection, and
      the index names it. */
  lemma {:induction false} RunIndexed(ops: seq<Op>)
    ensures Indexed(Run(ops))
    ensures forall c, d ::
      (c in Run(ops).byId && d in Run(ops).byId && Run(ops).byId[c].agentId.Some?
       && Run(ops).byId[c].agentId == Run(ops).byId[d].agentId) ==> c == d
    decreases |ops|
  {
    if ops != [] {
      RunIndexed(ops[..|ops| - 1]);
      IndexedStep(Run(ops[..|ops| - 1]), ops[|ops| - 1]);
    }
  }

  /** Who an agent belongs to, read off the log alone: the connection that bound
      it last, unless that connection has since been closed. */
  function Owner(ops: seq<Op>, agent: string): (r: Option<string>)
    decreases |ops|
  {
    if ops == [] then None
    else
      var before := Owner(ops[..|ops| - 1], agent);
      var op := ops[|ops| - 1];
      if op.Binds().Some? && op.Binds().value.1 == agent then Some(op.Binds().value.0)
      else if op.CloseOp? && before == Some(op.id) then None
      else before
  }

  lemma {:induction false} BoundIsOwner(ops: seq<Op>, id: string)
    requires id in Run(ops).byId && Run(ops).byId[id].agentId.Some?
    ensures Owner(ops, Run(ops).byId[id].agentId.value) == Some(id)
    decreases |ops|
  {
    var before, op := ops[..|ops| - 1], ops[|ops| - 1];
    RunIndexed(before);
    RunIndexed(ops);
    if id in Run(before).byId && Run(before).byId[id].agentId == Run(ops).byId[id].agentId {
      BoundIsOwner(before, id);
    }
  }

  /** Closing a bound connection always reports it as current, and a close marks
      an agent offline only when the log says the agent still belongs to the
      connection being closed: a superseded connection never does. */
  lemma CloseMarksOwnerOnly(ops: seq<Op>, id: string, at: string)
    ensures var s := Run(ops);
      id in s.byId && s.byId[id].agentId.Some? ==> MarkedOffline(s, id, at) == s.byId[id].agentId
    ensures MarkedOffline(Run(ops), id, at).Some? ==> Owner(ops, MarkedOffline(Run(ops), id, at).value) == Some(id)
  {
    RunIndexed(ops);
    if id in Run(ops).byId && Run(ops).byId[id].agentId.Some? {
      BoundIsOwner(ops, id);
    }
  }

  // ------------------------------------------------------- when lookups are right

  /** The index names no connection but the one bound to the agent. */
  ghost predicate Exact(s: State) {
    forall a :: a in s.byAgent ==> s.byAgent[a] in s.byId && s.byId[s.byAgent[a]].agentId == Some(a)
  }

  /** The operation moves a bound connection to another agent, or opens an id
      that is already bound. */
  predicate Rebinds(s: State, op: Op) {
    if op.OpenOp? then op.id != "" && op.at != "" && op.id in s.byId && s.byId[op.id].agentId.Some?
    else op.Binds().Some? && op.id in s.byId && s.byId[op.id].agentId.Some?
         && s.byId[op.id].agentId.value != op.Binds().value.1
  }

  /** A step keeps the index exact precisely when it does not rebind. */
  lemma ExactStep(s: State, op: Op)
    requires Indexed(s) && Exact(s)
    ensures Exact(Apply(s, op)) <==> !Rebinds(s, op)
  {
    if Rebinds(s, op) {
      var first := s.byId[op.id].agentId.value;
      assert first in Apply(s, op).byAgent && Apply(s, op).byAgent[first] == op.id;
    } else if op.CloseOp? && op.id in s.byId {
      var s' := Apply(s, op);
      forall a | a in s'.byAgent
        ensures s'.byAgent[a] in s'.byId && s'.byId[s'.byAgent[a]].agentId == Some(a)
      {
        assert s.byAgent[a] != op.id;
      }
    } else {
      var s' := Apply(s, op);
      forall a | a in s'.byAgent
        ensures s'.byAgent[a] in s'.byId && s'.byId[s'.byAgent[a]].agentId == Some(a)
      {
        assert a in s.byAgent ==> s.byId[s.byAgent[a]].agentId == Some(a);
      }
    }
  }

  /** No step of the run rebinds: each connection speaks for one agent. */
  ghost predicate Faithful(ops: seq<Op>) {
    forall i {:trigger ops[i]} :: 0 <= i < |ops| ==> !Rebinds(Run(ops[..i]), ops[i])
  }

  /** When no connection changes its agent, looking an agent up answers with the
      connection the log names, bound to that very agent, and with nothing when
      the log names none. */
  lemma {:induction false} LookupMatchesLog(ops: seq<Op>, agent: string)
    requires Faithful(ops)
    ensures Exact(Run(ops))
    ensures match FindByAgent(Run(ops), agent)
      case None => Owner(ops, agent) == None
      case Some(c) => Owner(ops, agent) == Some(c.connectionId) && c.agentId == Some(agent)
    decreases |ops|
  {
    RunIndexed(ops);
    if ops != [] {
      var before, op := ops[..|ops| - 1], ops[|ops| - 1];
      RunIndexed(before);
      assert Faithful(before) by {
        forall i {:trigger before[i]} | 0 <= i < |before| ensures !Rebinds(Run(before[..i]), before[i]) {
          assert before[..i] == ops[..i] && before[i] == ops[i];
        }
      }
      LookupMatchesLog(before, agent);
      ExactStep(Run(before), op);
      if agent in Run(before).byAgent {
        assert FindByAgent(Run(before), agent).Some?;
      }
    }
  }

  /** Right after it was bound, looking an agent up answers with the connection
      that bound it, for a heartbeat with its time. */
  lemma BoundIsFound(ops: seq<Op>, op: Op)
    requires op.Binds().Some?
    ensures match FindByAgent(Run(ops + [op]), op.Binds().value.1)
      case None => false
      case Some(c) =>
        && c.connectionId == op.id && c.agentId == Some(op.Binds().value.1)
        && (op.HeartbeatOp? ==> c.lastHeartbeatAt == Some(op.at))
  {
    assert (ops + [op])[..|ops|] == ops;
    RunIndexed(ops);
  }

  // ------------------------------------------------------- when lookups are wrong

  /** A lookup is right if it finds the live connection bound to the agent, and
      nothing when there is none. */
  ghost predicate RightLookup(s: State, agent: string) {
    match FindByAgent(s, agent)
    case Some(c) => c.agentId == Some(agent)
    case None => forall id :: id in s.byId ==> s.byId[id].agentId != Some(agent)
  }

  /** The index has an entry for the agent that no bound connection backs. */
  predicate StaleEntry(s: State, agent: string) {
    agent in s.byAgent && !(s.byAgent[agent] in s.byId && s.byId[s.byAgent[agent]].agentId == Some(agent))
  }

  /** The operation ends what connection `id` was to its agent without closing
      it: it moves it to another agent, opens it anew, or binds a different agent
      whose stale entry names it, which drops it. */
  predicate Takes(s: State, op: Op, id: string) {
    || (op.id == id && Rebinds(s, op))
    || (op.Binds().Some? && id in Superseded(s, op.id, op.Binds().value.1))
  }

  /** The `i`-th operation took connection `id` away from the agent without
      closing it, and no later one bound the agent. */
  ghost predicate LeftAt(ops: seq<Op>, i: nat, agent: string, id: string)
    requires i < |ops|
  {
    && id in Run(ops[..i]).byId && Run(ops[..i]).byId[id].agentId == Some(agent)
    && Takes(Run(ops[..i]), ops[i], id)
    && forall j :: i <= j < |ops| ==> !BindsAgent(ops[j], agent)
  }

  ghost predicate Left(ops: seq<Op>, agent: string, id: string) {
    exists i :: 0 <= i < |ops| && LeftAt(ops, i, agent, id)
  }

  predicate BindsAgent(op: Op, agent: string) { op.Binds().Some? && op.Binds().value.1 == agent }

  lemma LeftSnoc(ops: seq<Op>, op: Op, agent: string, id: string)
    ensures Left(ops + [op], agent, id) <==>
      && !BindsAgent(op, agent)
      && (Left(ops, agent, id)
          || (id in Run(ops).byId && Run(ops).byId[id].agentId == Some(agent) && Takes(Run(ops), op, id)))
  {
    hide Takes, Run;
    var all := ops + [op];
    forall i | 0 <= i < |ops|
      ensures LeftAt(all, i, agent, id) <==> LeftAt(ops, i, agent, id) && !BindsAgent(op, agent)
    {
      assert all[..i] == ops[..i] && all[i] == ops[i];
      assert all[|ops|] == op && forall j :: i <= j < |ops| ==> all[j] == ops[j];
    }
    assert all[..|ops|] == ops && all[|ops|] == op;
    assert LeftAt(all, |ops|, agent, id) <==>
      id in Run(ops).byId && Run(ops).byId[id].agentId == Some(agent) && Takes(Run(ops), op, id)
          && !BindsAgent(op, agent);
    if Left(all, agent, id) {
      var i :| 0 <= i < |all| && LeftAt(all, i, agent, id);
    }
    if Left(ops, agent, id) && !BindsAgent(op, agent) {
      var i :| 0 <= i < |ops| && LeftAt(ops, i, agent, id);
      assert LeftAt(all, i, agent, id);
    }
  }

  /** What one operation does to stale entries. */
  lemma StaleStep(s: State, op: Op, agent: string, id: string)
    requires Indexed(s)
    ensures var s' := Apply(s, op);
      StaleEntry(s', agent) && s'.byAgent[agent] == id <==>
        && !BindsAgent(op, agent)
        && ((StaleEntry(s, agent) && s.byAgent[agent] == id)
            || (id in s.byId && s.byId[id].agentId == Some(agent) && Takes(s, op, id)))
  {
    match op
    case OpenOp(c, at) =>
    case BindOp(c, a, at) =>
    case HeartbeatOp(c, a, at) =>
    case CloseOp(c, at) =>
  }

  lemma {:induction false} StaleIsLeft(ops: seq<Op>, agent: string, id: string)
    ensures StaleEntry(Run(ops), agent) && Run(ops).byAgent[agent] == id <==> Left(ops, agent, id)
    decreases |ops|
  {
    if ops != [] {
      var before, op := ops[..|ops| - 1], ops[|ops| - 1];
      StaleIsLeft(before, agent, id);
      RunIndexed(before);
      hide Left, StaleEntry, Takes;
      StaleStep(Run(before), op, agent, id);
      LeftSnoc(before, op, agent, id);
      assert before + [op] == ops;
    }
  }

  /** In every run, whatever connections do: looking an agent up is wrong if and
      only if a connection that is live now was taken from it without being
      closed, and no operation has bound the agent since. */
  lemma LookupWrongExactly(ops: seq<Op>, agent: string)
    ensures !RightLookup(Run(ops), agent) <==> exists id :: id in Run(ops).byId && Left(ops, agent, id)
  {
    var s := Run(ops);
    RunIndexed(ops);
    hide Run;
    forall id ensures StaleEntry(s, agent) && s.byAgent[agent] == id <==> Left(ops, agent, id) {
      StaleIsLeft(ops, agent, id);
    }
    hide Left;
    if !RightLookup(s, agent) {
      assert FindByAgent(s, agent).Some?;
      assert Left(ops, agent, s.byAgent[agent]);
    }
  }

  /** Binding an agent drops the connection its index entry names, which speaks
      for another agent, or for none, exactly if that entry is stale. */
  lemma BindDropsStranger(ops: seq<Op>, op: Op, id: string)
    requires op.Binds().Some? && id in Run(ops).byId && id in Superseded(Run(ops), op.id, op.Binds().value.1)
    ensures id !in Run(ops + [op]).byId
    ensures Run(ops).byId[id].agentId != Some(op.Binds().value.1) <==> StaleEntry(Run(ops), op.Binds().value.1)
  {
    assert (ops + [op])[..|ops|] == ops;
    assert Run(ops + [op]) == Apply(Run(ops), op);
  }

  /** A connection that registers a second agent stays in the index under the
      first: looking the first agent up answers with the second one's connection. */
  lemma RebindingMisleadsLookup()
    ensures var s := Run([OpenOp("c", "1"), BindOp("c", "a", "2"), BindOp("c", "b", "3")]);
      FindByAgent(s, "a").Some? && FindByAgent(s, "a").value.agentId == Some("b")
  {
    var o1, o2, o3 := OpenOp("c", "1"), BindOp("c", "a", "2"), BindOp("c", "b", "3");
    assert [o1, o2, o3][..2] == [o1, o2] && [o1, o2][..1] == [o1] && [o1][..0] == [];
    var s1 := Apply(State(map[], map[]), o1);
    var s2 := Apply(s1, o2);
    assert Run([o1]) == s1 by { assert Run([o1]) == Apply(Run([o1][..0]), o1); }
    assert Run([o1, o2]) == s2 by { assert Run([o1, o2]) == Apply(Run([o1, o2][..1]), o2); }
    assert Run([o1, o2, o3]) == Apply(s2, o3);
  }
}
