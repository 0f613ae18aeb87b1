/** The hub as a concurrent state machine (internal/hub/hub.go). Client handlers, agent connections and
    lock requests interleave; one step is one critical section of `Hub.mu`, one write on a connection,
    one message read, or one turn of the client id counter. */
module HubSteps {
  import opened Wrappers
  import opened MuxFrame
  import opened Registry
  import opened ClientLoop

  // ----- the state

  datatype AgentWrite = AgentWrite(conn: ConnId, from: nat, msg: AgentMsg)

  /** What is written on client connections. */
  datatype Answer = WriteDenied(code: string) | Failed(code: string)

  datatype ClientOut = Attached(write: bool) | WriteStatus(write: bool) | Answered(answer: Answer)

  datatype Delivery = Delivery(to: ClientId, msg: ClientOut)

  /** Where a handler stands in `ServeClientConn`: before it is added to the registry, greeting its
      client, at the head of the loop, handling one of the messages, broadcasting, or gone. */
  datatype Pc =
    | Arriving(arrive: Arrive)
    | Greeting(greet: Greet)
    | Reading
    | WritingAgent(control: Control)
    | Answering(answer: Answer, thenLeave: bool)
    | Requesting(request: Request)
    | Releasing(release: Release)
    | Typing(typing: Typing)
    | Removing
    | Broadcasting(cast: Broadcast, leaving: bool)
    | Done

  datatype Arrive = Lookup | TakeId | Adding
  datatype Greet = SettingSession | TellingAgent | TellingClient | AskingStatus | TellingStatus(write: bool)
  datatype Request = AskLock | AskHas | AskIs | Setting
  datatype Release = Asking | Clearing
  datatype Typing = InLock(data: Bytes) | InWriter(data: Bytes) | Forwarding(frame: Bytes)
  datatype Broadcast = Snapping | GettingWriter(ids: set<ClientId>) | Sending(todo: set<ClientId>, writer: ClientId)

  /** One client handler. `agentConn` is the connection of the agent state it found at first;
      `requested` and `heard` record its history. */
  datatype Handler = Handler(
    b: Binding, id: ClientId, agentConn: ConnId, pc: Pc, view: View, requested: bool, heard: seq<Heard>)

  /** A critical section that a handler entered. */
  datatype Entry = Entry(from: nat, op: Op)

  /** The shared state, with the traces of everything written, of every critical section that changed
      the registry, of the handlers that entered `setWriter`, and of who entered which section.
      `owner` records which handler was given an id. */
  datatype HubState = HubState(
    agents: Agents, lastId: ClientId, owner: map<ClientId, nat>, handlers: seq<Handler>,
    wire: seq<AgentWrite>, sent: seq<Delivery>, ops: seq<Op>, grants: seq<nat>, entered: seq<Entry>)

  const EMPTY_HUB := HubState(map[], 0, map[], [], [], [], [], [], [])

  // ----- the steps

  /** What the environment decides about a handler's step. */
  datatype Input = Go | Hear(msg: ClientMsg) | ReadError | WriteError | Pick(id: ClientId)

  datatype Action =
    | AgentConnects(a: AgentId, conn: ConnId)
    | AgentLeaves(a: AgentId, conn: ConnId)
    | LockRequest(a: AgentId, session: Bytes, enabled: bool)
    | ClientConnects(hello: Hello, token: Claims)
    | Turn(i: nat, input: Input)

  /** What one step of a handler does: its new local state, the registry update if any, and the message
      it writes on the agent connection or on client connections. */
  datatype Effect = Effect(h: Handler, op: Option<Op>, wire: Option<AgentMsg>, out: seq<Delivery>)

  function Goto(h: Handler, pc: Pc): Effect {
    Effect(h.(pc := pc), None, None, [])
  }

  function Enter(h: Handler, op: Op, pc: Pc): Effect {
    Effect(h.(pc := pc), Some(op), None, [])
  }

  function Tell(h: Handler, to: ClientId, msg: ClientOut, pc: Pc): Effect {
    Effect(h.(pc := pc), None, None, [Delivery(to, msg)])
  }

  function Write(h: Handler, msg: AgentMsg, pc: Pc): Effect {
    Effect(h.(pc := pc), None, Some(msg), [])
  }

  function Deny(h: Handler, code: string): Effect {
    Goto(h, Answering(WriteDenied(code), false))
  }

  function OnArrive(h: Handler, p: Arrive, r: Agents, nextId: ClientId): Effect {
    var a := h.b.claims.agent;
    match p
    case Lookup => if a in r then Goto(h.(agentConn := r[a].conn), Arriving(TakeId)) else Goto(h, Done)
    case TakeId => Goto(h.(id := nextId), Arriving(Adding))
    case Adding =>
      if a in r then Enter(h, AddClient(a, Client(h.id, h.b.proto, h.b.claims.session)), Greeting(SettingSession))
      else Goto(h, Done)
  }

  function OnGreet(h: Handler, p: Greet, r: Agents, input: Input): Effect {
    var a := h.b.claims.agent;
    match p
    case SettingSession => Enter(h, SetSession(a, h.b.claims.session), Greeting(TellingAgent))
    case TellingAgent => Write(h, Ctl(AttachSession(h.b.first, h.b.proto)), Greeting(TellingClient))
    case TellingClient =>
      Tell(h, h.id, ClientOut.Attached(h.b.claims.write),
           if input.WriteError? then Removing else Greeting(AskingStatus))
    case AskingStatus => Goto(h, Greeting(TellingStatus(IsWriter(r, a, h.id))))
    case TellingStatus(w) => Tell(h, h.id, WriteStatus(w), Reading)
  }

  /** The local part of handling a message. */
  function OnMessage(h: Handler, m: ClientMsg): Effect {
    var b := h.b;
    var h := h.(heard := h.heard + [Heard(m, false, false)], view := Observe(b, h.view, m));
    if EndsLoop(b, m) then Goto(h, Answering(Failed("bad_request or not_authorized"), true))
    else
      match m
      case Attach(session) => Goto(h, if b.proto < 2 then Reading else WritingAgent(AttachSession(session, b.proto)))
      case Detach(session) => Goto(h, if b.proto < 2 then Reading else WritingAgent(DetachSession(session)))
      case Resize(session, cols, rows) =>
        var named := if b.proto >= 2 && session == [] then h.view.active else session;
        Goto(h, WritingAgent(ResizeSession(named, cols, rows)))
      case RequestWrite =>
        if b.claims.write then Goto(h.(requested := true), Requesting(AskLock)) else Deny(h, "not_authorized")
      case ReleaseWrite => Goto(h, Releasing(Asking))
      case Binary(data) => Goto(h, if b.claims.write && h.view.focus then Typing(InLock(data)) else Reading)
      case _ => Goto(h, Reading)
  }

  function OnRequest(h: Handler, p: Request, r: Agents): Effect {
    var a := h.b.claims.agent;
    match p
    case AskLock => if WebWritable(r, a) then Goto(h, Requesting(AskHas)) else Deny(h, "locked")
    case AskHas => Goto(h, Requesting(if HasWriter(r, a) then AskIs else Setting))
    case AskIs => if IsWriter(r, a, h.id) then Goto(h, Requesting(Setting)) else Deny(h, "another_writer")
    case Setting => Enter(h, SetWriter(a, h.id), Broadcasting(Snapping, false))
  }

  function OnRelease(h: Handler, p: Release, r: Agents): Effect {
    var a := h.b.claims.agent;
    match p
    case Asking => Goto(h, if IsWriter(r, a, h.id) then Releasing(Clearing) else Reading)
    case Clearing => Enter(h, ClearWriter(a), Broadcasting(Snapping, false))
  }

  /** Records what the gates answered for the message being handled. */
  function Noted(h: Handler, writable: bool, writer: bool): Handler {
    if h.heard == [] then h
    else
      var n := |h.heard| - 1;
      h.(heard := h.heard[..n] + [Heard(h.heard[n].msg, writable, writer)])
  }

  function OnTyping(h: Handler, p: Typing, r: Agents): Effect {
    var a := h.b.claims.agent;
    match p
    case InLock(data) =>
      if WebWritable(r, a) then Goto(Noted(h, true, false), Typing(InWriter(data))) else Goto(h, Reading)
    case InWriter(data) =>
      if !IsWriter(r, a, h.id) then Goto(h, Reading)
      else
        (match FrameFor(h.b, h.view, data)
         case Some(f) => Goto(Noted(h, true, true), Typing(Forwarding(f)))
         case None => Goto(Noted(h, true, true), Reading))
    case Forwarding(f) => Write(h, AgentMsg.Input(f), Reading)
  }

  function OnBroadcast(h: Handler, p: Broadcast, leaving: bool, r: Agents, input: Input): Effect {
    var a := h.b.claims.agent;
    var after := if leaving then Done else Reading;
    match p
    case Snapping =>
      var ids := Snapshot(r, a).Keys;
      Goto(h, if ids == {} then after else Broadcasting(GettingWriter(ids), leaving))
    case GettingWriter(ids) => Goto(h, Broadcasting(Sending(ids, Writer(r, a)), leaving))
    case Sending(todo, w) =>
      if todo == {} then Goto(h, after)
      else if input.Pick? && input.id in todo then
        Tell(h, input.id, WriteStatus(input.id == w), Broadcasting(Sending(todo - {input.id}, w), leaving))
      else Goto(h, h.pc)
  }

  /** The next step of a handler, given the registry and the next client id. */
  function React(h: Handler, r: Agents, nextId: ClientId, input: Input): Effect {
    match h.pc
    case Arriving(p) => OnArrive(h, p, r, nextId)
    case Greeting(p) => OnGreet(h, p, r, input)
    case Reading =>
      if input.Hear? then OnMessage(h, input.msg) else Goto(h, if input.ReadError? then Removing else Reading)
    case WritingAgent(m) => Write(h, Ctl(m), Reading)
    case Answering(m, leave) => Tell(h, h.id, Answered(m), if leave then Removing else Reading)
    case Requesting(p) => OnRequest(h, p, r)
    case Releasing(p) => OnRelease(h, p, r)
    case Typing(p) => OnTyping(h, p, r)
    case Removing =>
      var a := h.b.claims.agent;
      Enter(h, RemoveClient(a, h.id), if Writer(r, a) == h.id then Broadcasting(Snapping, true) else Done)
    case Broadcasting(p, leaving) => OnBroadcast(h, p, leaving, r, input)
    case Done => Goto(h, Done)
  }

  function Perform(s: HubState, op: Op): HubState {
    s.(agents := Apply(s.agents, op), ops := s.ops + [op])
  }

  /** The state after handler i has made the step e. */
  function Advance(s: HubState, i: nat, e: Effect): HubState
    requires i < |s.handlers|
  {
    var h := s.handlers[i];
    var s1 := if e.op.Some? then Perform(s, e.op.value) else s;
    var s2 := s1.(
      handlers := s.handlers[i := e.h],
      wire := if e.wire.Some? then s.wire + [AgentWrite(h.agentConn, i, e.wire.value)] else s.wire,
      sent := s.sent + e.out,
      grants := if e.op.Some? && e.op.value.SetWriter? then s.grants + [i] else s.grants,
      entered := if e.op.Some? then s.entered + [Entry(i, e.op.value)] else s.entered);
    if h.pc == Arriving(TakeId) then s2.(lastId := s.lastId + 1, owner := s.owner[s.lastId + 1 := i]) else s2
  }

  function Turned(s: HubState, i: nat, input: Input): Effect
    requires i < |s.handlers|
  {
    React(s.handlers[i], s.agents, s.lastId + 1, input)
  }

  /** The state after an action. An action that is not possible leaves the state as it is. */
  function Fire(s: HubState, act: Action): HubState {
    match act
    case AgentConnects(a, conn) => Perform(s, Register(a, conn))
    case AgentLeaves(a, conn) => Perform(s, Unregister(a, conn))
    case LockRequest(a, session, enabled) => Perform(s, SetWebWritable(a, session, enabled))
    case ClientConnects(hello, token) =>
      (match Handshake(hello, token)
       case Ok(b) =>
         s.(handlers := s.handlers + [Handler(b, NO_CLIENT, 0, Arriving(Lookup), InitialView(b), false, [])])
       case Err(_) => s)
    case Turn(i, input) => if i < |s.handlers| then Advance(s, i, Turned(s, i, input)) else s
  }

  predicate Steps(s: HubState, act: Action, t: HubState) {
    t == Fire(s, act)
  }

  /** A run from the empty hub: any schedule of actions, with the states it goes through. */
  ghost predicate IsRun(states: seq<HubState>, acts: seq<Action>) {
    && |states| == |acts| + 1
    && states[0] == EMPTY_HUB
    && forall k :: 0 <= k < |acts| ==> StepsAt(states, acts, k)
  }

  predicate StepsAt(states: seq<HubState>, acts: seq<Action>, k: nat)
    requires k < |acts| < |states|
  {
    Steps(states[k], acts[k], states[k + 1])
  }

  // ----- what every step keeps

  /** The handler has been added to the registry and has not yet run `removeClient`. */
  predicate Live(h: Handler) {
    !h.pc.Arriving? && !h.pc.Done? && !(h.pc.Broadcasting? && h.pc.leaving)
  }

  ghost predicate IdsOk(s: HubState) {
    && (forall c :: c in s.owner <==> 1 <= c <= s.lastId)
    && (forall c :: c in s.owner ==> s.owner[c] < |s.handlers| && s.handlers[s.owner[c]].id == c)
    && (forall i :: 0 <= i < |s.handlers| ==> IdOk(s, i))
  }

  ghost predicate IdOk(s: HubState, i: nat)
    requires i < |s.handlers|
  {
    var h := s.handlers[i];
    && (h.id != NO_CLIENT ==>
          h.id in s.owner && s.owner[h.id] == i && h.pc != Arriving(Lookup) && h.pc != Arriving(TakeId))
    && (h.id == NO_CLIENT ==> h.pc == Arriving(Lookup) || h.pc == Arriving(TakeId) || h.pc.Done?)
  }

  /** Client id c was given to a live handler bound to agent a. */
  ghost predicate LiveOn(s: HubState, a: AgentId, c: ClientId) {
    && c in s.owner && s.owner[c] < |s.handlers|
    && var h := s.handlers[s.owner[c]]; h.id == c && Live(h) && h.b.claims.agent == a
  }

  ghost predicate ClientOk(s: HubState, a: AgentId, c: ClientId)
    requires a in s.agents && c in s.agents[a].clients
  {
    LiveOn(s, a, c) && s.agents[a].clients[c].id == c
  }

  ghost predicate WriterOk(s: HubState, a: AgentId, w: ClientId) {
    LiveOn(s, a, w) && MayWrite(s.handlers[s.owner[w]])
  }

  ghost predicate AgentOk(s: HubState, a: AgentId)
    requires a in s.agents
  {
    && (forall c :: c in s.agents[a].clients ==> ClientOk(s, a, c))
    && (s.agents[a].writer != NO_CLIENT ==> WriterOk(s, a, s.agents[a].writer))
  }

  predicate MayWrite(h: Handler) {
    h.b.claims.write && h.requested
  }

  ghost predicate Inv(s: HubState) {
    && IdsOk(s)
    && (forall a :: a in s.agents ==> AgentOk(s, a))
    && (forall i :: 0 <= i < |s.handlers| && s.handlers[i].pc.Requesting? ==> MayWrite(s.handlers[i]))
  }

  /** What a step of any handler respects: it keeps its binding and its id, it is live between the
      critical sections that add and remove it, and the only client id it writes into the registry is
      its own. */
  predicate Fits(h: Handler, e: Effect, nextId: ClientId) {
    && e.h.b == h.b
    && e.h.id == (if h.pc == Arriving(TakeId) then nextId else h.id)
    && (h.requested ==> e.h.requested)
    && (e.h.pc.Arriving? ==> e.h.pc.arrive == (if h.pc == Arriving(Lookup) then TakeId else Adding))
    && (h.pc == Arriving(Lookup) ==> e.h.pc == Arriving(TakeId) || e.h.pc == Done)
    && (h.pc == Arriving(TakeId) ==> e.h.pc == Arriving(Adding))
    && (h.pc.Done? ==> e.h.pc.Done?)
    && (e.h.pc.Requesting? ==> MayWrite(e.h) || h.pc.Requesting?)
    && (h.pc.Reading? || h.pc.Typing? || KeepsHistory(h, e.h))
    && e.wire == Due(h)
    && (IsPlain(h.pc) ==> e.op.None? && IsOpening(e.h.pc) && NoStatus(e.out))
    && OpFits(h, e)
  }

  /** Stages in which nothing depends on the registry being as it was found. */
  predicate IsPlain(pc: Pc) {
    pc.Reading? || pc.WritingAgent? || pc.Answering? || pc.Typing? || pc.Done?
  }

  predicate IsOpening(pc: Pc) {
    pc.Removing? || (pc.Requesting? && pc.request.AskLock?) || pc == Releasing(Asking) || IsPlain(pc)
  }

  predicate NoStatus(out: seq<Delivery>) {
    out == [] || (|out| == 1 && !out[0].msg.WriteStatus?)
  }

  predicate Leaving(h: Handler) {
    (h.pc.Answering? && h.pc.thenLeave) || h.pc.Removing? || (h.pc.Broadcasting? && h.pc.leaving) || h.pc.Done?
  }

  /** The handler may not have written anything to the agent. */
  predicate IsUnmet(h: Handler) {
    h.pc.Arriving? || h.pc == Greeting(SettingSession) || h.pc.Done?
  }

  /** What the handler will write on the agent connection in its next step. */
  function Due(h: Handler): Option<AgentMsg> {
    if h.pc.WritingAgent? then Some(Ctl(h.pc.control))
    else if h.pc == Greeting(TellingAgent) then Some(Ctl(AttachSession(h.b.first, h.b.proto)))
    else if h.pc.Typing? && h.pc.typing.Forwarding? then Some(AgentMsg.Input(h.pc.typing.frame))
    else None
  }

  predicate KeepsHistory(h: Handler, h': Handler) {
    && (Due(h').Some? ==> h.pc == Greeting(SettingSession) && h'.pc == Greeting(TellingAgent))
    && ((h.pc.Greeting? && !h.pc.greet.SettingSession?) ==> !IsUnmet(h'))
    && (IsUnmet(h') ==> h'.pc.Done? || h.pc.Arriving?)
    && h'.view == h.view && h'.heard == h.heard && h'.requested == h.requested
    && !h'.pc.Typing? && (Leaving(h) ==> Leaving(h'))
  }

  predicate OpFits(h: Handler, e: Effect) {
    if e.op.None? then Live(h) == Live(e.h)
    else
      var op := e.op.value;
      && op.a == h.b.claims.agent
      && (op.AddClient? || op.RemoveClient? || op.SetWriter? || op.SetSession? || op.ClearWriter?)
      && (if op.AddClient? then op.client.id == h.id && h.pc == Arriving(Adding) else Live(h))
      && (if op.RemoveClient? then op.id == h.id && !Live(e.h) else Live(e.h))
      && (op.SetWriter? ==> op.id == h.id && h.pc == Requesting(Setting))
  }

  predicate AboutToForward(h: Handler) {
    h.pc.Typing? && h.pc.typing.Forwarding?
  }

  /** The handler has passed the lock check of the message it is handling. */
  predicate PassedLock(h: Handler) {
    (h.pc.Requesting? && !h.pc.request.AskLock?) || (h.pc.Typing? && !h.pc.typing.InLock?)
  }

  /** How input frames and grants are gated: a frame is written only by a handler that was about to
      forward it, which saw itself as the writer one step before; and no handler gets past the lock
      check while the agent is locked, or past it twice. */
  predicate Gated(h: Handler, e: Effect, r: Agents) {
    var a := h.b.claims.agent;
    && (e.wire.Some? && e.wire.value.Input? <==> AboutToForward(h))
    && (AboutToForward(h) ==> e.wire.value.frame == h.pc.typing.frame && e.h == h.(pc := Reading))
    && (AboutToForward(e.h) ==> h.pc.Typing? && h.pc.typing.InWriter? && IsWriter(r, a, h.id))
    && (e.op.Some? && e.op.value.SetWriter? ==> h.pc.Requesting? && PassedLock(h) && !PassedLock(e.h))
    && (PassedLock(e.h) ==> PassedLock(h) || WebWritable(r, a))
  }

  lemma MessageFits(h: Handler, m: ClientMsg, r: Agents, nextId: ClientId)
    requires h.pc.Reading?
    ensures Fits(h, OnMessage(h, m), nextId) && Gated(h, OnMessage(h, m), r)
  {
  }

  lemma ArriveFits(h: Handler, p: Arrive, r: Agents, nextId: ClientId)
    requires h.pc == Arriving(p)
    ensures Fits(h, OnArrive(h, p, r, nextId), nextId) && Gated(h, OnArrive(h, p, r, nextId), r)
  {
  }

  lemma GreetFits(h: Handler, p: Greet, r: Agents, nextId: ClientId, input: Input)
    requires h.pc == Greeting(p)
    ensures Fits(h, OnGreet(h, p, r, input), nextId) && Gated(h, OnGreet(h, p, r, input), r)
  {
  }

  lemma RequestFits(h: Handler, p: Request, r: Agents, nextId: ClientId)
    requires h.pc == Requesting(p)
    ensures Fits(h, OnRequest(h, p, r), nextId) && Gated(h, OnRequest(h, p, r), r)
  {
  }

  lemma TypingFits(h: Handler, p: Typing, r: Agents, nextId: ClientId)
    requires h.pc == Typing(p)
    ensures Fits(h, OnTyping(h, p, r), nextId) && Gated(h, OnTyping(h, p, r), r)
  {
  }

  lemma BroadcastFits(h: Handler, p: Broadcast, leaving: bool, r: Agents, nextId: ClientId, input: Input)
    requires h.pc == Broadcasting(p, leaving)
    ensures Fits(h, OnBroadcast(h, p, leaving, r, input), nextId) && Gated(h, OnBroadcast(h, p, leaving, r, input), r)
  {
  }

  lemma ReleaseFits(h: Handler, p: Release, r: Agents, nextId: ClientId)
    requires h.pc == Releasing(p)
    ensures Fits(h, OnRelease(h, p, r), nextId) && Gated(h, OnRelease(h, p, r), r)
  {
  }

  /** The stages that only write one message, leave, or are over. */
  lemma OtherStagesFit(h: Handler, r: Agents, nextId: ClientId, input: Input)
    requires h.pc.WritingAgent? || h.pc.Answering? || h.pc.Removing? || h.pc.Done?
    ensures Fits(h, React(h, r, nextId, input), nextId) && Gated(h, React(h, r, nextId, input), r)
  {
  }

  lemma {:induction false} TurnFits(h: Handler, r: Agents, nextId: ClientId, input: Input)
    ensures Fits(h, React(h, r, nextId, input), nextId) && Gated(h, React(h, r, nextId, input), r)
  {
    match h.pc
    case Arriving(p) => ArriveFits(h, p, r, nextId);
    case Greeting(p) => GreetFits(h, p, r, nextId, input);
    case Reading =>
      if input.Hear? {
        MessageFits(h, input.msg, r, nextId);
      }
    case Requesting(p) => RequestFits(h, p, r, nextId);
    case Releasing(p) => ReleaseFits(h, p, r, nextId);
    case Typing(p) => TypingFits(h, p, r, nextId);
    case Broadcasting(p, leaving) => BroadcastFits(h, p, leaving, r, nextId, input);
    case _ => OtherStagesFit(h, r, nextId, input);
  }

  lemma AdvanceKeepsIds(s: HubState, i: nat, e: Effect)
    requires Inv(s) && i < |s.handlers| && Fits(s.handlers[i], e, s.lastId + 1)
    ensures IdsOk(Advance(s, i, e))
  {
    var t := Advance(s, i, e);
    assert IdOk(s, i);
    forall j | 0 <= j < |t.handlers| ensures IdOk(t, j) {
      assert IdOk(s, j);
    }
  }

  /** A step leaves a live client live unless it is that client's own departure. */
  lemma LiveOnKept(s: HubState, i: nat, e: Effect, a: AgentId, c: ClientId)
    requires Inv(s) && i < |s.handlers| && Fits(s.handlers[i], e, s.lastId + 1)
    requires LiveOn(s, a, c) && e.op != Some(RemoveClient(a, c))
    ensures LiveOn(Advance(s, i, e), a, c)
    ensures MayWrite(s.handlers[s.owner[c]]) ==> MayWrite(Advance(s, i, e).handlers[s.owner[c]])
  {
  }

  lemma OwnLiveOn(s: HubState, i: nat, e: Effect)
    requires Inv(s) && i < |s.handlers| && Fits(s.handlers[i], e, s.lastId + 1)
    requires Live(e.h)
    ensures LiveOn(Advance(s, i, e), e.h.b.claims.agent, e.h.id)
  {
    assert IdOk(s, i);
  }

  /** Which clients and which writer an agent can have after a step. */
  lemma AgentAfter(s: HubState, i: nat, e: Effect, a: AgentId)
    requires i < |s.handlers| && Fits(s.handlers[i], e, s.lastId + 1)
    requires a in Advance(s, i, e).agents
    ensures var h, now := s.handlers[i], Advance(s, i, e).agents[a];
      && a in s.agents
      && (forall c :: c in now.clients ==>
            || (&& c in s.agents[a].clients && now.clients[c] == s.agents[a].clients[c]
                && e.op != Some(RemoveClient(a, c)))
            || (c == h.id == now.clients[c].id && a == h.b.claims.agent && Live(e.h)))
      && (now.writer != NO_CLIENT ==>
            || (now.writer == s.agents[a].writer && e.op != Some(RemoveClient(a, now.writer)))
            || (now.writer == h.id && a == h.b.claims.agent && Live(e.h) && h.pc == Requesting(Setting)))
  {
  }

  lemma AdvanceKeepsAgents(s: HubState, i: nat, e: Effect, a: AgentId)
    requires Inv(s) && i < |s.handlers| && Fits(s.handlers[i], e, s.lastId + 1)
    requires a in Advance(s, i, e).agents
    ensures AgentOk(Advance(s, i, e), a)
  {
    var t := Advance(s, i, e);
    AgentAfter(s, i, e, a);
    assert AgentOk(s, a);
    if Live(e.h) {
      OwnLiveOn(s, i, e);
    }
    forall c | c in t.agents[a].clients ensures ClientOk(t, a, c) {
      if c in s.agents[a].clients && e.op != Some(RemoveClient(a, c)) {
        assert ClientOk(s, a, c);
        LiveOnKept(s, i, e, a, c);
      }
    }
    var w := t.agents[a].writer;
    if w != NO_CLIENT && w == s.agents[a].writer && e.op != Some(RemoveClient(a, w)) {
      LiveOnKept(s, i, e, a, w);
    } else if w != NO_CLIENT {
      assert IdOk(s, i) && MayWrite(s.handlers[i]);
    }
  }

  lemma AdvanceKeepsInv(s: HubState, i: nat, e: Effect)
    requires Inv(s) && i < |s.handlers| && Fits(s.handlers[i], e, s.lastId + 1)
    ensures Inv(Advance(s, i, e))
  {
    AdvanceKeepsIds(s, i, e);
    forall a | a in Advance(s, i, e).agents ensures AgentOk(Advance(s, i, e), a) {
      AdvanceKeepsAgents(s, i, e, a);
    }
  }

  lemma OtherActionsKeepAgent(s: HubState, act: Action, a: AgentId)
    requires Inv(s) && !act.Turn? && a in Fire(s, act).agents
    ensures AgentOk(Fire(s, act), a)
  {
  }

  lemma OtherActionsKeepInv(s: HubState, act: Action)
    requires Inv(s) && !act.Turn?
    ensures Inv(Fire(s, act))
  {
    var t := Fire(s, act);
    forall j | 0 <= j < |t.handlers| ensures IdOk(t, j) {
      assert j < |s.handlers| ==> IdOk(s, j);
    }
    forall a | a in t.agents ensures AgentOk(t, a) {
      OtherActionsKeepAgent(s, act, a);
    }
  }

  lemma FireKeepsInv(s: HubState, act: Action, t: HubState)
    requires Inv(s) && Steps(s, act, t)
    ensures Inv(t)
  {
    match act
    case Turn(i, input) =>
      if i < |s.handlers| {
        TurnFits(s.handlers[i], s.agents, s.lastId + 1, input);
        AdvanceKeepsInv(s, i, Turned(s, i, input));
      }
    case _ => OtherActionsKeepInv(s, act);
  }

  lemma {:induction false} InvHolds(states: seq<HubState>, acts: seq<Action>, k: nat)
    requires IsRun(states, acts) && k < |states|
    ensures Inv(states[k])
  {
    if k > 0 {
      InvHolds(states, acts, k - 1);
      assert StepsAt(states, acts, k - 1);
      FireKeepsInv(states[k - 1], acts[k - 1], states[k]);
    }
  }
}
