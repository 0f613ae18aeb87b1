/** The agent's table of open sessions and the message loop that drives it (internal/agent/agent.go,
    `Client.Run`), as a function of the messages read. */
module AgentTable {
  import opened MuxFrame

  // ----- messages

  /** What the loop reads. An attach message carries whether `Manager.Attach` would succeed for it. */
  datatype Inbound =
    | Attach(id: Bytes, succeeds: bool)
    | Detach(id: Bytes)
    | Resize(id: Bytes, cols: int, rows: int)
    | ListSessions(request: string, names: seq<Bytes>)
    | Ignored
    | Binary(data: Bytes)

  /** What the loop writes on the connection by itself. */
  datatype Reply = AttachFailed | Sessions(request: string, names: seq<Bytes>)

  /** One handle obtained from `Manager.Attach`: how often its `done` channel and its session have been
      closed, the payloads written to it, and the sizes it was set to. */
  datatype Handle = Handle(id: Bytes, doneCloses: nat, sessionCloses: nat, typed: seq<Bytes>, sizes: seq<(int, int)>)

  /** Every handle ever obtained, and the open ones by session id. */
  datatype Table = Table(sessions: map<Bytes, nat>, handles: seq<Handle>, replies: seq<Reply>)

  const EMPTY_TABLE := Table(map[], [], [])

  function Close(h: Handle): Handle {
    h.(doneCloses := h.doneCloses + 1, sessionCloses := h.sessionCloses + 1)
  }

  function CloseSession(t: Table, id: Bytes): Table {
    if id !in t.sessions || t.sessions[id] >= |t.handles| then t
    else
      var k := t.sessions[id];
      t.(sessions := t.sessions - {id}, handles := t.handles[k := Close(t.handles[k])])
  }

  function OnMessage(t: Table, m: Inbound): Table {
    match m
    case Attach(id, succeeds) =>
      if id == [] || id in t.sessions then t
      else if !succeeds then t.(replies := t.replies + [AttachFailed])
      else t.(sessions := t.sessions[id := |t.handles|], handles := t.handles + [Handle(id, 0, 0, [], [])])
    case Detach(id) => if id == [] then t else CloseSession(t, id)
    case Resize(id, cols, rows) =>
      if id == [] || id !in t.sessions || t.sessions[id] >= |t.handles| then t
      else
        var k := t.sessions[id];
        var h := t.handles[k];
        t.(handles := t.handles[k := h.(sizes := h.sizes + [(cols, rows)])])
    case ListSessions(request, names) => t.(replies := t.replies + [Sessions(request, names)])
    case Ignored => t
    case Binary(data) =>
      (match Decode(data)
       case Ok(f) =>
         if f.session !in t.sessions || t.sessions[f.session] >= |t.handles| then t
         else
           var k := t.sessions[f.session];
           var h := t.handles[k];
           t.(handles := t.handles[k := h.(typed := h.typed + [f.payload])])
       case Err(_) => t)
  }

  /** The effect of `closeAll` when the connection fails. */
  function CloseAll(t: Table): Table {
    Table(map[],
          seq(|t.handles|, k requires 0 <= k < |t.handles| =>
            if k in t.sessions.Values then Close(t.handles[k]) else t.handles[k]),
          t.replies)
  }

  function OnMessages(t: Table, msgs: seq<Inbound>): Table {
    if msgs == [] then t else OnMessage(OnMessages(t, msgs[..|msgs| - 1]), msgs[|msgs| - 1])
  }

  // ----- conservation of handles

  /** A handle is in the table under its own id with nothing closed yet. */
  predicate Open(t: Table, k: nat)
    requires k < |t.handles|
  {
    var h := t.handles[k];
    h.id in t.sessions && t.sessions[h.id] == k && h.doneCloses == 0 && h.sessionCloses == 0
  }

  /** A handle has been closed, once, and is not in the table. */
  predicate ClosedOnce(t: Table, k: nat)
    requires k < |t.handles|
  {
    var h := t.handles[k];
    k !in t.sessions.Values && h.doneCloses == 1 && h.sessionCloses == 1
  }

  predicate Conserved(t: Table) {
    && (forall id :: id in t.sessions ==> t.sessions[id] < |t.handles| && t.handles[t.sessions[id]].id == id)
    && (forall k :: 0 <= k < |t.handles| ==> Open(t, k) || ClosedOnce(t, k))
  }

  lemma CloseSessionConserves(t: Table, id: Bytes)
    requires Conserved(t)
    ensures Conserved(CloseSession(t, id))
  {
    var t' := CloseSession(t, id);
    forall k | 0 <= k < |t'.handles| ensures Open(t', k) || ClosedOnce(t', k) {
      assert Open(t, k) || ClosedOnce(t, k);
    }
  }

  lemma OnMessageConserves(t: Table, m: Inbound)
    requires Conserved(t)
    ensures Conserved(OnMessage(t, m))
  {
    if m.Detach? {
      CloseSessionConserves(t, m.id);
    } else {
      var t' := OnMessage(t, m);
      forall k | 0 <= k < |t'.handles| ensures Open(t', k) || ClosedOnce(t', k) {
        if k < |t.handles| {
          assert Open(t, k) || ClosedOnce(t, k);
        }
      }
    }
  }

  /** Conservation: after any messages, with any attach attempts failing, each handle obtained is either
      in the table under its own id with its `done` channel open, or it has been closed exactly once. */
  lemma {:induction false} HandlesAreConserved(msgs: seq<Inbound>)
    ensures Conserved(OnMessages(EMPTY_TABLE, msgs))
  {
    if msgs != [] {
      HandlesAreConserved(msgs[..|msgs| - 1]);
      OnMessageConserves(OnMessages(EMPTY_TABLE, msgs[..|msgs| - 1]), msgs[|msgs| - 1]);
    }
  }

  /** When the connection fails the table ends empty, and every handle ever obtained, open or closed
      before, has been closed exactly once. */
  lemma FailureClosesEverythingOnce(msgs: seq<Inbound>)
    ensures var t := CloseAll(OnMessages(EMPTY_TABLE, msgs));
      && t.sessions == map[] && |t.handles| == |OnMessages(EMPTY_TABLE, msgs).handles|
      && forall k :: 0 <= k < |t.handles| ==> t.handles[k].doneCloses == 1 && t.handles[k].sessionCloses == 1
  {
    var t := OnMessages(EMPTY_TABLE, msgs);
    HandlesAreConserved(msgs);
    forall k | 0 <= k < |t.handles|
      ensures CloseAll(t).handles[k].doneCloses == 1 && CloseAll(t).handles[k].sessionCloses == 1
    {
      assert Open(t, k) || ClosedOnce(t, k);
      if Open(t, k) {
        assert t.sessions[t.handles[k].id] in t.sessions.Values;
      }
    }
  }

  /** Handles are opened one for each attach that finds its id free and succeeds; a repeated attach
      opens nothing. */
  lemma AttachOpensAtMostOne(msgs: seq<Inbound>, m: Inbound)
    ensures var t, t' := OnMessages(EMPTY_TABLE, msgs), OnMessage(OnMessages(EMPTY_TABLE, msgs), m);
      && (|t'.handles| == |t.handles| + 1 <==> m.Attach? && m.id != [] && m.id !in t.sessions && m.succeeds)
      && |t.handles| <= |t'.handles| <= |t.handles| + 1
      && forall k :: 0 <= k < |t.handles| ==>
           t'.handles[k].id == t.handles[k].id && t.handles[k].typed <= t'.handles[k].typed
  {
  }

  // ----- what each message does

  lemma AfterOneMore(msgs: seq<Inbound>, m: Inbound)
    ensures OnMessages(EMPTY_TABLE, msgs + [m]) == OnMessage(OnMessages(EMPTY_TABLE, msgs), m)
  {
    assert (msgs + [m])[..|msgs|] == msgs;
  }

  /** What a detach of session id leaves of a handle: one of that session closed once, any other as it
      was. */
  predicate Detached(before: Handle, id: Bytes, after: Handle) {
    if before.id != id then after == before
    else after == before.(doneCloses := 1, sessionCloses := 1)
  }

  lemma OneDetached(t: Table, id: Bytes, k: nat)
    requires Conserved(t) && id != [] && k < |t.handles|
    ensures |OnMessage(t, Detach(id)).handles| == |t.handles|
    ensures Detached(t.handles[k], id, OnMessage(t, Detach(id)).handles[k])
  {
    assert Open(t, k) || ClosedOnce(t, k);
    if id in t.sessions {
      assert t.sessions[id] in t.sessions.Values;
      assert Open(t, t.sessions[id]) || ClosedOnce(t, t.sessions[id]);
    }
  }

  /** After a detach the session is not open, every handle it ever had has been closed once, and nothing has
      happened to any other handle. */
  lemma DetachCloses(msgs: seq<Inbound>, id: Bytes)
    requires id != []
    ensures var t, t' := OnMessages(EMPTY_TABLE, msgs), OnMessages(EMPTY_TABLE, msgs + [Detach(id)]);
      && t'.sessions == t.sessions - {id} && |t'.handles| == |t.handles| && t'.replies == t.replies
      && forall k :: 0 <= k < |t.handles| ==> Detached(t.handles[k], id, t'.handles[k])
  {
    var t := OnMessages(EMPTY_TABLE, msgs);
    AfterOneMore(msgs, Detach(id));
    HandlesAreConserved(msgs);
    forall k | 0 <= k < |t.handles| ensures Detached(t.handles[k], id, OnMessage(t, Detach(id)).handles[k]) {
      OneDetached(t, id, k);
    }
  }

  /** After a successful attach the session is open, under a handle of its own: the one it had, untouched,
      or else a new one. */
  lemma AttachOpens(msgs: seq<Inbound>, id: Bytes)
    requires id != []
    ensures var t, t' := OnMessages(EMPTY_TABLE, msgs), OnMessages(EMPTY_TABLE, msgs + [Attach(id, true)]);
      && id in t'.sessions && t'.sessions[id] < |t'.handles|
      && var h := t'.handles[t'.sessions[id]];
      && h.id == id && h.doneCloses == 0 && h.sessionCloses == 0
      && (if id in t.sessions then t' == t
          else t'.sessions == t.sessions[id := |t.handles|] && h.typed == [] && h.sizes == []
               && t'.handles[..|t.handles|] == t.handles)
  {
    AfterOneMore(msgs, Attach(id, true));
    HandlesAreConserved(msgs + [Attach(id, true)]);
    var t' := OnMessages(EMPTY_TABLE, msgs + [Attach(id, true)]);
    assert Open(t', t'.sessions[id]) || ClosedOnce(t', t'.sessions[id]);
  }

  /** A resize sets the size of the open session it names, and of no other. */
  lemma ResizeReaches(msgs: seq<Inbound>, id: Bytes, cols: int, rows: int)
    ensures var t, t' := OnMessages(EMPTY_TABLE, msgs), OnMessages(EMPTY_TABLE, msgs + [Resize(id, cols, rows)]);
      && t'.sessions == t.sessions && |t'.handles| == |t.handles| && t'.replies == t.replies
      && forall k :: 0 <= k < |t.handles| ==>
           var sized := t.handles[k].(sizes := t.handles[k].sizes + [(cols, rows)]);
           t'.handles[k] == if id in t.sessions && t.sessions[id] == k then sized else t.handles[k]
  {
    AfterOneMore(msgs, Resize(id, cols, rows));
    HandlesAreConserved(msgs);
    EmptyIdIsNeverOpen(msgs);
  }

  lemma {:induction false} EmptyIdIsNeverOpen(msgs: seq<Inbound>)
    ensures [] !in OnMessages(EMPTY_TABLE, msgs).sessions
  {
    if msgs != [] {
      EmptyIdIsNeverOpen(msgs[..|msgs| - 1]);
    }
  }

  /** The list messages, in order, with what they are answered. */
  function Lists(msgs: seq<Inbound>): seq<Reply> {
    if msgs == [] then []
    else
      var m := msgs[|msgs| - 1];
      Lists(msgs[..|msgs| - 1]) + (if m.ListSessions? then [Sessions(m.request, m.names)] else [])
  }

  function Answers(replies: seq<Reply>): seq<Reply> {
    if replies == [] then []
    else
      var r := replies[|replies| - 1];
      Answers(replies[..|replies| - 1]) + (if r.Sessions? then [r] else [])
  }

  /** Every request for the list is answered once, in order, under its own id with the sessions there are. */
  lemma {:induction false} ListsAreAnswered(msgs: seq<Inbound>)
    ensures Answers(OnMessages(EMPTY_TABLE, msgs).replies) == Lists(msgs)
  {
    if msgs != [] {
      var front, m := msgs[..|msgs| - 1], msgs[|msgs| - 1];
      var t, t' := OnMessages(EMPTY_TABLE, front), OnMessages(EMPTY_TABLE, msgs);
      ListsAreAnswered(front);
      if t'.replies != t.replies {
        assert t'.replies[..|t.replies|] == t.replies;
      }
      assert Lists(front) + [] == Lists(front);
      assert Answers(t.replies) + [] == Answers(t.replies);
    }
  }

  /** A failing attach of a session that is not open is answered with an error and changes nothing else. */
  lemma FailedAttachIsAnswered(msgs: seq<Inbound>, id: Bytes)
    requires id != []
    ensures var t, t' := OnMessages(EMPTY_TABLE, msgs), OnMessages(EMPTY_TABLE, msgs + [Attach(id, false)]);
      t' == if id in t.sessions then t else t.(replies := t.replies + [AttachFailed])
  {
    AfterOneMore(msgs, Attach(id, false));
  }
}
