/** The hub as objects that are updated in place (internal/hub/hub.go). Every method that takes
    `Hub.mu` is proved to do to the registry what `Registry.Apply` says. */
module HubObjects {
  import opened Wrappers
  import opened MuxFrame
  import opened Registry
  import opened FanOut

  /** A message on a client connection. */
  datatype Message = Status(write: bool) | Denied(code: string) | Output(data: Bytes)

  class ClientState {
    const id: ClientId
    const proto: nat
    const session: Bytes
    var sent: seq<Message>

    constructor (id: ClientId, proto: nat, session: Bytes)
      ensures this.id == id && this.proto == proto && this.session == session && sent == []
    {
      this.id, this.proto, this.session, this.sent := id, proto, session, [];
    }

    function View(): Client {
      Client(id, proto, session)
    }

    method WriteData(data: Bytes)
      modifies this
      ensures sent == old(sent) + Outputs([data])
    {
      sent := sent + [Output(data)];
    }

    /** An old-protocol client is sent the payload, unless the frame is for another session. */
    method RelayPayload(f: Frame)
      modifies this
      ensures sent == old(sent) + Outputs(if session != [] && f.session != session then [] else [f.payload])
    {
      if session != [] && f.session != session {
        return;
      }
      WriteData(f.payload);
    }

    method WriteJSON(m: Message)
      modifies this
      ensures sent == old(sent) + [m]
    {
      sent := sent + [m];
    }
  }

  class AgentState {
    const id: AgentId
    const conn: ConnId
    var clients: map<ClientId, ClientState>
    var writer: ClientId
    var write: bool
    var sess: Bytes

    constructor (id: AgentId, conn: ConnId)
      ensures this.id == id && this.conn == conn
      ensures clients == map[] && writer == NO_CLIENT && write && sess == []
    {
      this.id, this.conn := id, conn;
      clients, writer, write, sess := map[], NO_CLIENT, true, [];
    }

    ghost function View(): Agent
      reads this
    {
      Agent(conn, map c | c in clients :: clients[c].View(), writer, write, sess)
    }

    /** Forgets a client, and the writer if that is the one. */
    method Forget(id: ClientId) returns (wasWriter: bool)
      modifies this`clients, this`writer
      ensures clients == old(clients) - {id} && wasWriter == (old(writer) == id)
      ensures View() == old(View()).(
        clients := old(View()).clients - {id}, writer := if old(writer) == id then NO_CLIENT else old(writer))
    {
      clients := clients - {id};
      if writer == id {
        writer := NO_CLIENT;
        return true;
      }
      return false;
    }

    ghost predicate Valid()
      reads this
    {
      forall c :: c in clients ==> clients[c].id == c && c != NO_CLIENT
    }
  }

  class Hub {
    var agents: map<AgentId, AgentState>
    var clientID: nat
    ghost var issued: set<ClientId>

    constructor ()
      ensures Valid() && View() == map[] && agents == map[] && issued == {}
    {
      agents, clientID, issued := map[], 0, {};
    }

    /** `issued` records every id given to a client; all of them are behind the counter. */
    ghost predicate Valid()
      reads this, agents.Values
    {
      && (forall a :: a in agents ==> agents[a].id == a && agents[a].Valid())
      && (forall c :: c in issued ==> 0 < c <= clientID)
    }

    ghost function View(): Agents
      reads this, agents.Values
    {
      map a | a in agents :: agents[a].View()
    }

    // ----- the critical sections

    method RegisterAgent(a: AgentId, conn: ConnId) returns (state: AgentState)
      requires Valid()
      modifies this`agents
      ensures Valid() && View() == Apply(old(View()), Register(a, conn))
      ensures fresh(state) && state.clients == map[] && agents == old(agents)[a := state]
    {
      state := new AgentState(a, conn);
      agents := agents[a := state];
    }

    /** Answers the clients whose connections it closes. */
    method UnregisterAgent(a: AgentId, conn: ConnId) returns (closed: set<ClientId>)
      requires Valid()
      modifies this`agents
      ensures Valid() && View() == Apply(old(View()), Unregister(a, conn))
      ensures forall b :: b in agents ==> b in old(agents) && agents[b] == old(agents)[b]
      ensures closed == Closes(old(View()), Unregister(a, conn))
    {
      if a !in agents || agents[a].conn != conn {
        return {};
      }
      closed := agents[a].clients.Keys;
      agents := agents - {a};
    }

    method AddClient(a: AgentId, client: ClientState) returns (added: bool)
      requires Valid() && client.id != NO_CLIENT
      modifies agents.Values`clients
      ensures Valid() && agents == old(agents) && added == (a in agents)
      ensures forall b :: b in agents ==>
        agents[b].clients == if b == a then old(agents[b].clients)[client.id := client] else old(agents[b].clients)
      ensures View() == Apply(old(View()), Op.AddClient(a, client.View()))
    {
      if a !in agents {
        return false;
      }
      var state := agents[a];
      state.clients := state.clients[client.id := client];
      assert state.View().clients == old(View())[a].clients[client.id := client.View()];
      return true;
    }

    method RemoveClient(a: AgentId, id: ClientId) returns (wasWriter: bool)
      requires Valid()
      modifies agents.Values`clients, agents.Values`writer
      ensures Valid() && agents == old(agents)
      ensures forall b :: b in agents ==>
        agents[b].clients == if b == a then old(agents[b].clients) - {id} else old(agents[b].clients)
      ensures View() == Apply(old(View()), Op.RemoveClient(a, id))
      ensures wasWriter == (a in old(View()) && old(View())[a].writer == id)
    {
      if a !in agents {
        return false;
      }
      wasWriter := agents[a].Forget(id);
    }

    method SetSession(a: AgentId, session: Bytes)
      requires Valid()
      modifies agents.Values`sess
      ensures Valid() && agents == old(agents) && View() == Apply(old(View()), Op.SetSession(a, session))
    {
      if a in agents {
        agents[a].sess := session;
      }
    }

    /** An id that no client was given before. */
    method NextClientID() returns (id: ClientId)
      requires Valid()
      modifies this`clientID, this`issued
      ensures Valid() && id != NO_CLIENT
      ensures id !in old(issued) && issued == old(issued) + {id}
    {
      clientID := clientID + 1;
      id := clientID;
      issued := issued + {id};
    }

    method IsWriter(a: AgentId, id: ClientId) returns (r: bool)
      requires Valid()
      ensures r == Registry.IsWriter(View(), a, id)
    {
      return a in agents && agents[a].writer == id && id != NO_CLIENT;
    }

    method HasWriter(a: AgentId) returns (r: bool)
      requires Valid()
      ensures r == Registry.HasWriter(View(), a)
    {
      return a in agents && agents[a].writer != NO_CLIENT;
    }

    method WebWritable(a: AgentId) returns (r: bool)
      requires Valid()
      ensures r == Registry.WebWritable(View(), a)
    {
      return a in agents && agents[a].write;
    }

    method SetWriter(a: AgentId, id: ClientId)
      requires Valid()
      modifies agents.Values`writer
      ensures Valid() && agents == old(agents) && View() == Apply(old(View()), Op.SetWriter(a, id))
      ensures Clients(a) == old(Clients(a))
    {
      if a in agents {
        agents[a].writer := id;
      }
    }

    method ClearWriter(a: AgentId)
      requires Valid()
      modifies agents.Values`writer
      ensures Valid() && agents == old(agents) && View() == Apply(old(View()), Op.ClearWriter(a))
      ensures Clients(a) == old(Clients(a))
    {
      if a in agents {
        agents[a].writer := NO_CLIENT;
      }
    }

    method SetWebWritable(a: AgentId, session: Bytes, enabled: bool) returns (ok: bool)
      requires Valid()
      modifies agents.Values`write
      ensures Valid() && agents == old(agents)
      ensures View() == Apply(old(View()), Op.SetWebWritable(a, session, enabled))
      ensures ok == LockAccepted(old(View()), a, session)
    {
      if a !in agents {
        return false;
      }
      var state := agents[a];
      if state.sess != [] && state.sess != session {
        return false;
      }
      state.write := enabled;
      return true;
    }

    ghost function Clients(a: AgentId): set<ClientState>
      reads this, agents.Values
    {
      if a in agents then agents[a].clients.Values else {}
    }

    // ----- writes to many clients

    /** Tells every client of the agent whether it is the writer; nobody else hears anything. */
    method BroadcastWriteStatus(a: AgentId)
      requires Valid()
      modifies Clients(a)
      ensures Valid() && View() == old(View()) && Clients(a) == old(Clients(a))
      ensures forall c :: c in Clients(a) ==>
        c.sent == old(c.sent) + [Status(c.id == Writer(View(), a))]
    {
      if a !in agents {
        return;
      }
      var clients := agents[a].clients;
      var writer := agents[a].writer;
      var todo := clients.Keys;
      while todo != {}
        invariant todo <= clients.Keys
        invariant forall c :: c in todo ==> clients[c].sent == old(clients[c].sent)
        invariant forall c :: c in clients.Keys - todo ==>
          clients[c].sent == old(clients[c].sent) + [Status(c == writer)]
        decreases todo
      {
        var c :| c in todo;
        clients[c].WriteJSON(Status(c == writer));
        todo := todo - {c};
      }
    }

    /** One output frame of the agent, relayed to every client registered now. */
    method RelayFrame(a: AgentId, data: Bytes)
      requires Valid()
      modifies Clients(a)
      ensures Valid() && View() == old(View())
      ensures forall c :: c in Clients(a) ==>
        c.sent == old(c.sent) + Outputs(Relayed(c.proto, c.session, data))
    {
      var f := Decode(data);
      if f.Err? || a !in agents {
        return;
      }
      var clients := agents[a].clients;
      var todo := clients.Keys;
      while todo != {}
        invariant todo <= clients.Keys
        invariant forall c :: c in todo ==> clients[c].sent == old(clients[c].sent)
        invariant forall c :: c in clients.Keys - todo ==>
          clients[c].sent == old(clients[c].sent) + Outputs(Relayed(clients[c].proto, clients[c].session, data))
        decreases todo
      {
        var c :| c in todo;
        var client := clients[c];
        if client.proto < 2 {
          client.RelayPayload(f.value);
        } else {
          client.WriteData(data);
        }
        todo := todo - {c};
      }
    }

    // ----- whole messages

    /** `setWriter` and its announcement. */
    method Grant(a: AgentId, id: ClientId)
      requires Valid()
      modifies agents.Values, Clients(a)
      ensures Valid() && agents == old(agents) && Clients(a) == old(Clients(a))
      ensures View() == Apply(old(View()), Op.SetWriter(a, id))
      ensures forall c :: c in old(Clients(a)) ==> c.sent == old(c.sent) + [Status(c.id == id)]
    {
      SetWriter(a, id);
      BroadcastWriteStatus(a);
    }

    /** The checks of `request_write`, in their order. */
    method CheckRequest(a: AgentId, id: ClientId, mayWrite: bool) returns (refusal: Option<string>)
      requires Valid()
      ensures refusal == WhyNotWriter(View(), a, id, mayWrite)
    {
      if !mayWrite {
        return Some("not_authorized");
      }
      var writable := WebWritable(a);
      if !writable {
        return Some("locked");
      }
      var has := HasWriter(a);
      var mine := IsWriter(a, id);
      if has && !mine {
        return Some("another_writer");
      }
      return None;
    }

    /** `request_write`, undisturbed: a refusal is told to the one who asked and changes nothing; a grant
        is told to every client of the agent. */
    method RequestWrite(a: AgentId, client: ClientState, mayWrite: bool) returns (refusal: Option<string>)
      requires Valid()
      modifies agents.Values, Clients(a), client
      ensures Valid() && refusal == WhyNotWriter(old(View()), a, client.id, mayWrite)
      ensures refusal.None? ==> View() == Apply(old(View()), Op.SetWriter(a, client.id))
      ensures refusal.None? ==> forall c :: c in old(Clients(a)) ==> c.sent == old(c.sent) + [Status(c.id == client.id)]
      ensures refusal.Some? ==> View() == old(View()) && client.sent == old(client.sent) + [Denied(refusal.value)]
      ensures refusal.Some? ==> forall c :: c in old(Clients(a)) && c != client ==> c.sent == old(c.sent)
    {
      refusal := CheckRequest(a, client.id, mayWrite);
      match refusal {
        case Some(code) => client.WriteJSON(Denied(code));
        case None => Grant(a, client.id);
      }
    }

    /** `clearWriter` and its announcement. */
    method Revoke(a: AgentId)
      requires Valid()
      modifies agents.Values, Clients(a)
      ensures Valid() && agents == old(agents) && Clients(a) == old(Clients(a))
      ensures View() == Apply(old(View()), Op.ClearWriter(a))
      ensures a in agents ==> forall c :: c in old(Clients(a)) ==> c.sent == old(c.sent) + [Status(c.id == NO_CLIENT)]
    {
      ClearWriter(a);
      BroadcastWriteStatus(a);
    }

    /** `release_write`, undisturbed: only the writer's own release counts, and it is announced. */
    method ReleaseWrite(a: AgentId, client: ClientState) returns (released: bool)
      requires Valid() && client.id != NO_CLIENT
      modifies agents.Values, Clients(a)
      ensures Valid() && agents == old(agents) && Clients(a) == old(Clients(a))
      ensures released == Registry.IsWriter(old(View()), a, client.id)
      ensures View() == if released then Apply(old(View()), Op.ClearWriter(a)) else old(View())
      ensures forall c :: c in old(Clients(a)) ==>
        c.sent == old(c.sent) + if released then [Status(false)] else []
    {
      released := IsWriter(a, client.id);
      if released {
        Revoke(a);
      }
    }
  }

  /** Binary messages with these contents. */
  function Outputs(data: seq<Bytes>): (out: seq<Message>)
    ensures |out| == |data| && forall i :: 0 <= i < |data| ==> out[i] == Output(data[i])
  {
    seq(|data|, i requires 0 <= i < |data| => Output(data[i]))
  }
}
