/** The session table and the message loop of `Client.Run` (internal/agent/agent.go) as objects that are
    updated in place, proved to follow `AgentTable`. */
module AgentObjects {
  import opened MuxFrame
  import opened AgentTable

  class Session {
    const id: Bytes
    ghost const number: nat
    var doneCloses: nat
    var sessionCloses: nat
    var typed: seq<Bytes>
    var sizes: seq<(int, int)>

    constructor (id: Bytes, ghost number: nat)
      ensures this.id == id && this.number == number
      ensures doneCloses == 0 && sessionCloses == 0 && typed == [] && sizes == []
    {
      this.id, this.number := id, number;
      doneCloses, sessionCloses, typed, sizes := 0, 0, [], [];
    }

    ghost function View(): Handle
      reads this
    {
      Handle(id, doneCloses, sessionCloses, typed, sizes)
    }

    method Write(payload: Bytes)
      modifies this
      ensures View() == old(View()).(typed := old(typed) + [payload])
    {
      typed := typed + [payload];
    }

    method Resize(cols: int, rows: int)
      modifies this
      ensures View() == old(View()).(sizes := old(sizes) + [(cols, rows)])
    {
      sizes := sizes + [(cols, rows)];
    }

    method Close()
      modifies this
      ensures View() == AgentTable.Close(old(View()))
    {
      doneCloses := doneCloses + 1;
      sessionCloses := sessionCloses + 1;
    }
  }

  /** The variables of `Client.Run`. `all` records every session object it has made. */
  class Client {
    var sessions: map<Bytes, Session>
    var replies: seq<Reply>
    ghost var all: seq<Session>

    constructor ()
      ensures Valid() && View() == EMPTY_TABLE
    {
      sessions, replies, all := map[], [], [];
    }

    ghost predicate Valid()
      reads this
    {
      && (forall k :: 0 <= k < |all| ==> all[k].number == k)
      && (forall id :: id in sessions ==>
            sessions[id].id == id && sessions[id].number < |all| && all[sessions[id].number] == sessions[id])
    }

    ghost function View(): Table
      reads this, all
    {
      Table(map id | id in sessions :: sessions[id].number,
            seq(|all|, k requires 0 <= k < |all| reads this, all => all[k].View()),
            replies)
    }

    method CloseSession(id: Bytes)
      requires Valid()
      modifies this, all
      ensures Valid() && all == old(all) && View() == AgentTable.CloseSession(old(View()), id)
      ensures sessions == old(sessions) - {id}
    {
      if id in sessions {
        var s := sessions[id];
        s.Close();
        sessions := sessions - {id};
      }
    }

    method CloseAll()
      requires Valid() && Conserved(View())
      modifies this, all
      ensures Valid() && all == old(all) && View() == AgentTable.CloseAll(old(View()))
    {
      while sessions != map[]
        invariant Valid() && all == old(all) && Conserved(View())
        invariant AgentTable.CloseAll(View()) == AgentTable.CloseAll(old(View()))
        decreases |sessions|
      {
        var id :| id in sessions;
        CloseAllStep(View(), id);
        CloseSession(id);
      }
      CloseAllDone(View());
    }

    method AttachSession(id: Bytes, succeeds: bool) returns (ok: bool)
      requires Valid()
      modifies this
      ensures Valid() && old(all) <= all && forall k :: |old(all)| <= k < |all| ==> fresh(all[k])
      ensures View() == (if id in old(sessions) || !succeeds then old(View())
        else old(View()).(sessions := old(View()).sessions[id := |old(View()).handles|],
                          handles := old(View()).handles + [Handle(id, 0, 0, [], [])]))
      ensures ok == (id in old(sessions) || succeeds)
    {
      if id in sessions {
        return true;
      }
      if !succeeds {
        return false;
      }
      var s := new Session(id, |all|);
      sessions := sessions[id := s];
      all := all + [s];
      return true;
    }

    /** One message, read and decoded. */
    method HandleMessage(m: Inbound)
      requires Valid()
      modifies this, all
      ensures Valid() && old(all) <= all && forall k :: |old(all)| <= k < |all| ==> fresh(all[k])
      ensures View() == OnMessage(old(View()), m)
    {
      match m {
        case Attach(id, succeeds) =>
          if id == [] {
            return;
          }
          var ok := AttachSession(id, succeeds);
          if !ok {
            replies := replies + [AttachFailed];
          }
        case Detach(id) =>
          if id != [] {
            CloseSession(id);
          }
        case Resize(id, cols, rows) =>
          if id != [] && id in sessions {
            sessions[id].Resize(cols, rows);
          }
        case ListSessions(request, names) =>
          replies := replies + [Sessions(request, names)];
        case Ignored =>
        case Binary(data) =>
          var f := Decode(data);
          if f.Ok? && f.value.session in sessions {
            sessions[f.value.session].Write(f.value.payload);
          }
      }
    }

    /** The loop, from an empty table to the read error that ends it. */
    method Run(msgs: seq<Inbound>)
      requires Valid() && View() == EMPTY_TABLE
      modifies this, all
      ensures Valid() && View() == AgentTable.CloseAll(OnMessages(EMPTY_TABLE, msgs))
    {
      assert all == [] by {
        assert View().handles == [];
      }
      var i := 0;
      while i < |msgs|
        invariant 0 <= i <= |msgs| && Valid()
        invariant forall k :: 0 <= k < |all| ==> fresh(all[k])
        invariant View() == OnMessages(EMPTY_TABLE, msgs[..i])
      {
        HandleMessage(msgs[i]);
        assert msgs[..i + 1][..i] == msgs[..i];
        i := i + 1;
      }
      assert msgs[..i] == msgs;
      HandlesAreConserved(msgs);
      CloseAll();
    }
  }

  lemma CloseAllStep(t: Table, id: Bytes)
    requires Conserved(t) && id in t.sessions
    ensures Conserved(AgentTable.CloseSession(t, id))
    ensures AgentTable.CloseAll(AgentTable.CloseSession(t, id)) == AgentTable.CloseAll(t)
  {
    CloseSessionConserves(t, id);
    var t' := AgentTable.CloseSession(t, id);
    forall k | 0 <= k < |t.handles| && k != t.sessions[id]
      ensures k in t.sessions.Values <==> k in t'.sessions.Values
    {
      if k in t.sessions.Values {
        var other :| other in t.sessions && t.sessions[other] == k;
        assert t'.sessions[other] == k;
      }
    }
    var mine := t.sessions[id];
    assert mine in t.sessions.Values;
    assert Open(t', mine) || ClosedOnce(t', mine);
    assert Open(t, mine) || ClosedOnce(t, mine);
    assert AgentTable.CloseAll(t').handles == AgentTable.CloseAll(t).handles;
  }

  lemma CloseAllDone(t: Table)
    requires t.sessions == map[]
    ensures AgentTable.CloseAll(t) == t
  {
  }
}
