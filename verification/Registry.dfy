/** What `Hub.agents` holds, and what each critical section under `Hub.mu` does to it
    (internal/hub/hub.go). A superseded agent state is reachable only for writes on its connection,
    so the registry itself is a map from agent ids to the states now registered. */
module Registry {
  import opened Wrappers
  import opened MuxFrame

  type AgentId = string
  /** The identity of one agent connection. */
  type ConnId = nat
  /** Client ids are rendered from a counter that starts at 1; 0 stands for the empty string. */
  type ClientId = nat
  const NO_CLIENT: ClientId := 0

  datatype Client = Client(id: ClientId, proto: nat, session: Bytes)

  datatype Agent = Agent(
    conn: ConnId, clients: map<ClientId, Client>, writer: ClientId, write: bool, sess: Bytes)

  type Agents = map<AgentId, Agent>

  // ----- the critical sections that only look

  predicate IsWriter(r: Agents, a: AgentId, c: ClientId) {
    a in r && r[a].writer == c && c != NO_CLIENT
  }

  predicate HasWriter(r: Agents, a: AgentId) {
    a in r && r[a].writer != NO_CLIENT
  }

  predicate WebWritable(r: Agents, a: AgentId) {
    a in r && r[a].write
  }

  function Writer(r: Agents, a: AgentId): ClientId {
    if a in r then r[a].writer else NO_CLIENT
  }

  function Snapshot(r: Agents, a: AgentId): map<ClientId, Client> {
    if a in r then r[a].clients else map[]
  }

  /** Why a client may not become the writer now: it lacks the permission, the agent is locked or gone,
      or somebody else is the writer. */
  function WhyNotWriter(r: Agents, a: AgentId, id: ClientId, mayWrite: bool): Option<string> {
    if !mayWrite then Some("not_authorized")
    else if a !in r || !r[a].write then Some("locked")
    else if r[a].writer == NO_CLIENT || r[a].writer == id then None
    else Some("another_writer")
  }

  // ----- the critical sections that change something

  datatype Op =
    | Register(a: AgentId, conn: ConnId)
    | Unregister(a: AgentId, conn: ConnId)
    | AddClient(a: AgentId, client: Client)
    | RemoveClient(a: AgentId, id: ClientId)
    | SetSession(a: AgentId, session: Bytes)
    | SetWriter(a: AgentId, id: ClientId)
    | ClearWriter(a: AgentId)
    | SetWebWritable(a: AgentId, session: Bytes, enabled: bool)

  function NewAgent(conn: ConnId): Agent {
    Agent(conn, map[], NO_CLIENT, true, [])
  }

  predicate LockAccepted(r: Agents, a: AgentId, session: Bytes) {
    a in r && (r[a].sess == [] || r[a].sess == session)
  }

  function Apply(r: Agents, op: Op): Agents {
    if op.Register? then r[op.a := NewAgent(op.conn)]
    else if op.a !in r then r
    else
      var s := r[op.a];
      match op
      case Unregister(a, conn) => if s.conn == conn then r - {a} else r
      case AddClient(a, client) => r[a := s.(clients := s.clients[client.id := client])]
      case RemoveClient(a, id) =>
        r[a := s.(clients := s.clients - {id}, writer := if s.writer == id then NO_CLIENT else s.writer)]
      case SetSession(a, session) => r[a := s.(sess := session)]
      case SetWriter(a, id) => r[a := s.(writer := id)]
      case ClearWriter(a) => r[a := s.(writer := NO_CLIENT)]
      case SetWebWritable(a, session, enabled) =>
        if LockAccepted(r, a, session) then r[a := s.(write := enabled)] else r
  }

  /** The clients whose connections a critical section closes. */
  function Closes(r: Agents, op: Op): set<ClientId> {
    if op.Unregister? && op.a in r && r[op.a].conn == op.conn then r[op.a].clients.Keys else {}
  }

  function Run(r: Agents, ops: seq<Op>): Agents {
    if ops == [] then r else Apply(Run(r, ops[..|ops| - 1]), ops[|ops| - 1])
  }

  // ----- the registry as a history

  /** Position i registered the connection that serves agent a after all of `ops`: no later
      registration of a, and no later departure of that same connection. */
  predicate Serving(ops: seq<Op>, a: AgentId, i: nat) {
    && i < |ops| && ops[i].Register? && ops[i].a == a
    && forall j :: i < j < |ops| ==> ops[j] != Unregister(a, ops[i].conn) && !(ops[j].Register? && ops[j].a == a)
  }

  /** The registry rebuilt from a fresh state of agent a by the sections after position i. */
  function Rebuilt(ops: seq<Op>, a: AgentId, i: nat): Agents
    requires i < |ops| && ops[i].Register?
  {
    Run(map[a := NewAgent(ops[i].conn)], ops[i + 1..])
  }

  /** Agent a is registered with the connection of position i, in the state rebuilt from there. */
  predicate IsRebuilt(ops: seq<Op>, a: AgentId, i: nat)
    requires i < |ops| && ops[i].Register?
  {
    var now, rebuilt := Run(map[], ops), Rebuilt(ops, a, i);
    a in now && a in rebuilt && now[a] == rebuilt[a] && now[a].conn == ops[i].conn
  }

  /** One critical section on two registries that agree on agent a. */
  lemma ApplyIsLocal(r: Agents, s: Agents, op: Op, a: AgentId)
    requires a in r <==> a in s
    requires a in r ==> r[a] == s[a]
    ensures a in Apply(r, op) <==> a in Apply(s, op)
    ensures a in Apply(r, op) ==> Apply(r, op)[a] == Apply(s, op)[a]
  {
  }

  lemma {:induction false} ServedIsRebuilt(ops: seq<Op>, a: AgentId, i: nat)
    requires Serving(ops, a, i)
    ensures IsRebuilt(ops, a, i)
    decreases |ops|
  {
    var n := |ops| - 1;
    var front, suffix := ops[..n], ops[i + 1..];
    if i < n {
      assert Serving(front, a, i);
      ServedIsRebuilt(front, a, i);
      assert suffix[..|suffix| - 1] == front[i + 1..];
      ApplyIsLocal(Run(map[], front), Rebuilt(front, a, i), ops[n], a);
    } else {
      assert suffix == [];
    }
  }

  lemma {:induction false} RegisteredIsServed(ops: seq<Op>, a: AgentId) returns (i: nat)
    requires a in Run(map[], ops)
    ensures Serving(ops, a, i)
  {
    var n := |ops| - 1;
    if ops[n].Register? && ops[n].a == a {
      i := n;
    } else {
      i := RegisteredIsServed(ops[..n], a);
      ServedIsRebuilt(ops[..n], a, i);
    }
  }

  /** After any critical sections, agent a is registered exactly when some registration is still being
      served, and then its state is what the later sections make of a fresh state: no earlier writer,
      lock, session or client survives a new registration. */
  lemma RegistryIsHistory(ops: seq<Op>, a: AgentId)
    ensures a in Run(map[], ops) <==> exists i: nat :: Serving(ops, a, i)
    ensures forall i: nat :: Serving(ops, a, i) ==> IsRebuilt(ops, a, i)
  {
    forall i: nat | Serving(ops, a, i) ensures IsRebuilt(ops, a, i) {
      ServedIsRebuilt(ops, a, i);
    }
    if a in Run(map[], ops) {
      var i := RegisteredIsServed(ops, a);
    }
  }

  /** The late departure of a connection that a newer registration has superseded changes nothing and
      closes no client. */
  lemma {:induction false} LateUnregisterIsIgnored(ops: seq<Op>, a: AgentId, i: nat, conn: ConnId)
    requires i < |ops| && ops[i].Register? && ops[i].a == a && ops[i].conn != conn
    requires forall j :: i < j < |ops| ==> !(ops[j].Register? && ops[j].a == a)
    ensures Run(map[], ops + [Unregister(a, conn)]) == Run(map[], ops)
    ensures Closes(Run(map[], ops), Unregister(a, conn)) == {}
  {
    var late := Unregister(a, conn);
    assert (ops + [late])[..|ops|] == ops;
    RegistryIsHistory(ops, a);
    if a in Run(map[], ops) {
      var k: nat :| Serving(ops, a, k);
      assert k == i;
    }
  }

  /** A departure that is not late removes exactly its own agent and closes exactly its clients. */
  lemma UnregisterOfServingAgent(ops: seq<Op>, a: AgentId, i: nat)
    requires Serving(ops, a, i)
    ensures var r := Run(map[], ops);
      && a in r && Run(map[], ops + [Unregister(a, ops[i].conn)]) == r - {a}
      && Closes(r, Unregister(a, ops[i].conn)) == r[a].clients.Keys
  {
  }

  // ----- the lock

  /** The session that was last recorded for agent a since it was last registered; the empty one if none
      was. */
  function LastSession(ops: seq<Op>, a: AgentId): Bytes {
    if ops == [] then []
    else
      var op := ops[|ops| - 1];
      if op.Register? && op.a == a then []
      else if op.SetSession? && op.a == a then op.session
      else LastSession(ops[..|ops| - 1], a)
  }

  lemma {:induction false} SessionIsLast(ops: seq<Op>, a: AgentId)
    requires a in Run(map[], ops)
    ensures Run(map[], ops)[a].sess == LastSession(ops, a)
  {
    var op := ops[|ops| - 1];
    if !(op.Register? && op.a == a) {
      SessionIsLast(ops[..|ops| - 1], a);
    }
  }

  /** A lock request takes effect exactly if the agent is registered and no session, or the requested one,
      was last recorded for it; it then sets the lock as asked and nothing else, and otherwise it changes
      nothing. */
  lemma LockExactly(ops: seq<Op>, a: AgentId, session: Bytes, enabled: bool)
    ensures var r, t := Run(map[], ops), Run(map[], ops + [SetWebWritable(a, session, enabled)]);
      if a in r && (LastSession(ops, a) == [] || LastSession(ops, a) == session)
      then LockAccepted(r, a, session) && t == r[a := r[a].(write := enabled)]
      else !LockAccepted(r, a, session) && t == r
  {
    assert (ops + [SetWebWritable(a, session, enabled)])[..|ops|] == ops;
    if a in Run(map[], ops) {
      SessionIsLast(ops, a);
    }
  }

  /** The reasons for refusing the role, in the order in which they are found. */
  lemma RefusalsExactly(r: Agents, a: AgentId, id: ClientId, mayWrite: bool)
    ensures var why := WhyNotWriter(r, a, id, mayWrite);
      && (why.None? <==> mayWrite && a in r && r[a].write && (r[a].writer == NO_CLIENT || r[a].writer == id))
      && (why == Some("not_authorized") <==> !mayWrite)
      && (why == Some("locked") <==> mayWrite && (a in r ==> !r[a].write))
      && (why == Some("another_writer") <==>
            mayWrite && a in r && r[a].write && r[a].writer != NO_CLIENT && r[a].writer != id)
  {
  }
}
