/** The part of `ServeClientConn` (internal/hub/hub.go) that one handler decides by itself: the
    handshake, and the loop that updates the focus and the active session and gates input frames. */
module ClientLoop {
  import opened Wrappers
  import opened MuxFrame
  import opened Registry

  // ----- the handshake

  datatype Claims = Claims(agent: AgentId, session: Bytes, write: bool)

  /** The first message of a client. */
  datatype Hello = Hello(isAttach: bool, agent: AgentId, session: Bytes, version: int)

  datatype Refusal = NotAttach | BadVersion | IdsRequired | AgentMismatch | SessionMismatch

  /** What the handler keeps of the handshake: the effective claims, the protocol, and the session
      named in the attach message sent to the agent. */
  datatype Binding = Binding(claims: Claims, proto: nat, first: Bytes)

  predicate Anonymous(claims: Claims) {
    claims.agent == "" && claims.session == []
  }

  function Handshake(hello: Hello, token: Claims): Result<Binding, Refusal> {
    if !hello.isAttach then Err(NotAttach)
    else if hello.version != 0 && hello.version != 1 && hello.version != 2 then Err(BadVersion)
    else
      var proto := if hello.version == 0 then 1 else hello.version;
      if Anonymous(token) && (hello.agent == "" || hello.session == []) then Err(IdsRequired)
      else
        var claims :=
          if Anonymous(token) then Claims(hello.agent, if proto < 2 then hello.session else [], true)
          else token;
        if hello.agent != "" && hello.agent != claims.agent then Err(AgentMismatch)
        else if proto < 2 && hello.session != claims.session then Err(SessionMismatch)
        else if proto >= 2 && claims.session != [] && hello.session != claims.session then Err(SessionMismatch)
        else Ok(Binding(claims, proto, if hello.session == [] then claims.session else hello.session))
  }

  /** An accepted client is bound to its token and to nothing wider: the agent, the session and the
      write permission are those of a non-empty token, and an old-protocol client is bound to exactly
      the session it named. */
  lemma HandshakeBindsToToken(hello: Hello, token: Claims)
    requires Handshake(hello, token).Ok?
    ensures var b := Handshake(hello, token).value;
      && (!Anonymous(token) ==> b.claims == token)
      && (Anonymous(token) ==> b.claims.agent == hello.agent != "" && b.claims.write && b.first != [])
      && (hello.agent != "" ==> b.claims.agent == hello.agent)
      && (b.proto < 2 ==> b.claims.session == hello.session == b.first)
      && (b.proto >= 2 && b.claims.session != [] ==> b.first == hello.session == b.claims.session)
      && (b.proto == 1 || b.proto == 2)
  {
  }

  /** Which handshakes are accepted: an attach of a known version that, for an anonymous token, names an
      agent and a session, and otherwise contradicts neither the agent nor the session of the token. */
  lemma HandshakeAccepts(hello: Hello, token: Claims)
    ensures Handshake(hello, token).Ok? <==>
      && hello.isAttach && 0 <= hello.version <= 2
      && (if token.agent == "" && token.session == [] then hello.agent != "" && hello.session != []
          else
            && (hello.agent == "" || hello.agent == token.agent)
            && (hello.session == token.session || (hello.version == 2 && token.session == [])))
  {
  }

  /** What an accepted client is bound to: protocol 2 only if it asked for that; the claims of its token or,
      for an anonymous one, the agent it named and, by the old protocol, the session; and the session it
      named to be attached first, or else that of its token. */
  lemma HandshakeOutcome(hello: Hello, token: Claims)
    requires Handshake(hello, token).Ok?
    ensures var b := Handshake(hello, token).value;
      && b.proto == (if hello.version == 2 then 2 else 1)
      && b.first == (if hello.session == [] then token.session else hello.session)
      && (if token.agent == "" && token.session == []
          then b.claims == Claims(hello.agent, if hello.version == 2 then [] else hello.session, true)
          else b.claims == token)
  {
  }

  /** Which refusal a client is answered. */
  lemma RefusalsExactly(hello: Hello, token: Claims)
    ensures var r := Handshake(hello, token);
      var anonymous := token.agent == "" && token.session == [];
      var known := hello.isAttach && 0 <= hello.version <= 2;
      var named := !anonymous || (hello.agent != "" && hello.session != []);
      var agentOk := anonymous || hello.agent == "" || hello.agent == token.agent;
      && (r == Err(NotAttach) <==> !hello.isAttach)
      && (r == Err(BadVersion) <==> hello.isAttach && !known)
      && (r == Err(IdsRequired) <==> known && !named)
      && (r == Err(AgentMismatch) <==> known && named && !agentOk)
      && (r == Err(SessionMismatch) <==>
            && known && named && agentOk && !anonymous && hello.session != token.session
            && (hello.version < 2 || token.session != []))
  {
  }

  // ----- the messages of a client

  datatype ClientMsg =
    | BadJson
    | Attach(session: Bytes)
    | RequestWrite
    | ReleaseWrite
    | Detach(session: Bytes)
    | Active(session: Bytes)
    | Resize(session: Bytes, cols: int, rows: int)
    | Focus(state: string)
    | Other
    | Binary(data: Bytes)

  /** A message together with the answers that `webWritable` and `isWriter` gave, or would have
      given, while it was handled. */
  datatype Heard = Heard(msg: ClientMsg, writable: bool, writer: bool)

  /** What a handler writes on its agent connection. */
  datatype Control =
    | AttachSession(session: Bytes, proto: nat)
    | DetachSession(session: Bytes)
    | ResizeSession(session: Bytes, cols: int, rows: int)

  datatype AgentMsg = Ctl(control: Control) | Input(frame: Bytes)

  // ----- the loop, one message at a time

  /** The local variables of the loop. */
  datatype View = View(focus: bool, active: Bytes)

  function InitialView(b: Binding): View {
    View(true, if b.claims.session == [] then b.first else b.claims.session)
  }

  /** The loop answers an error and returns. */
  predicate EndsLoop(b: Binding, m: ClientMsg) {
    || m.BadJson?
    || (b.proto >= 2 && (m.Attach? || m.Detach? || m.Active?) && m.session == [])
    || (b.proto >= 2 && m.Attach? && b.claims.session != [] && m.session != b.claims.session)
  }

  /** Which messages those are: one that is no JSON and, by the new protocol, an attach, detach or active
      that names no session, and an attach of another session than the claimed one. */
  lemma EndsExactly(b: Binding, m: ClientMsg)
    ensures b.proto < 2 ==> (EndsLoop(b, m) <==> m == BadJson)
    ensures b.proto >= 2 ==> (EndsLoop(b, m) <==>
      || m in {BadJson, ClientMsg.Attach([]), ClientMsg.Detach([]), Active([])}
      || exists s :: m == ClientMsg.Attach(s) && b.claims.session != [] && s != b.claims.session)
  {
  }

  function Observe(b: Binding, v: View, m: ClientMsg): View {
    match m
    case Attach(s) => if b.proto >= 2 && v.active == [] then v.(active := s) else v
    case Active(s) => if b.proto >= 2 then v.(active := s) else v
    case Focus(state) => if state == "on" then v.(focus := true) else if state == "off" then v.(focus := false) else v
    case _ => v
  }

  /** The frame sent to the agent for a binary message whose gates are all open. */
  function FrameFor(b: Binding, v: View, data: Bytes): Option<Bytes> {
    if b.proto < 2 then
      match Encode(b.claims.session, data) { case Ok(f) => Some(f) case Err(_) => None }
    else
      match Decode(data) {
        case Ok(f) => if f.session == v.active then Some(data) else None
        case Err(_) => None
      }
  }

  /** What the loop writes to the agent for one message, at most one thing. */
  function Say(b: Binding, v: View, h: Heard): Option<AgentMsg> {
    if EndsLoop(b, h.msg) then None
    else
      match h.msg
      case Attach(s) => if b.proto >= 2 then Some(Ctl(AttachSession(s, b.proto))) else None
      case Detach(s) => if b.proto >= 2 then Some(Ctl(DetachSession(s))) else None
      case Resize(s, cols, rows) =>
        Some(Ctl(ResizeSession(if b.proto >= 2 && s == [] then v.active else s, cols, rows)))
      case Binary(data) =>
        if b.claims.write && v.focus && h.writable && h.writer then
          match FrameFor(b, v, data) { case Some(f) => Some(AgentMsg.Input(f)) case None => None }
        else None
      case _ => None
  }

  function ViewAfter(b: Binding, heard: seq<Heard>): View {
    if heard == [] then InitialView(b)
    else Observe(b, ViewAfter(b, heard[..|heard| - 1]), heard[|heard| - 1].msg)
  }

  // ----- the loop as a history

  /** The last "on" or "off" among the first k messages is not "off". */
  predicate LastFocusOn(heard: seq<Heard>, k: nat)
    requires k <= |heard|
  {
    forall i :: 0 <= i < k && heard[i].msg == Focus("off") ==>
      exists j :: i < j < k && heard[j].msg == Focus("on")
  }

  /** The session of the last "active" message, otherwise the first non-empty session named by the
      token, the handshake or an "attach" message. */
  function ActiveSession(b: Binding, heard: seq<Heard>, k: nat): Bytes
    requires k <= |heard|
  {
    match LastActive(heard, k)
    case Some(s) => s
    case None => FirstNonEmpty(Named(b, heard, k))
  }

  /** The sessions named by the token, the handshake and the first k messages, in order. */
  function Named(b: Binding, heard: seq<Heard>, k: nat): seq<Bytes>
    requires k <= |heard|
  {
    [b.claims.session, b.first] + Attached(heard, k)
  }

  function LastActive(heard: seq<Heard>, k: nat): Option<Bytes>
    requires k <= |heard|
  {
    if k == 0 then None
    else if heard[k - 1].msg.Active? then Some(heard[k - 1].msg.session)
    else LastActive(heard, k - 1)
  }

  function Attached(heard: seq<Heard>, k: nat): seq<Bytes>
    requires k <= |heard|
  {
    if k == 0 then []
    else Attached(heard, k - 1) + (if heard[k - 1].msg.Attach? then [heard[k - 1].msg.session] else [])
  }

  function FirstNonEmpty(names: seq<Bytes>): Bytes {
    if names == [] then [] else if names[0] != [] then names[0] else FirstNonEmpty(names[1..])
  }

  /** Message k is an input frame that reaches the agent. */
  predicate Passes(b: Binding, heard: seq<Heard>, k: nat)
    requires k < |heard|
  {
    && heard[k].msg.Binary?
    && (forall j :: 0 <= j < k ==> !EndsLoop(b, heard[j].msg))
    && b.claims.write
    && LastFocusOn(heard, k)
    && heard[k].writable && heard[k].writer
    && (if b.proto < 2 then Encode(b.claims.session, heard[k].msg.data).Ok?
        else Decode(heard[k].msg.data).Ok?
             && Decode(heard[k].msg.data).value.session == ActiveSession(b, heard, k))
  }

  /** What the agent is sent for it: an old-protocol payload wrapped for the claimed session, a
      new-protocol frame unchanged. */
  function FrameAt(b: Binding, heard: seq<Heard>, k: nat): Bytes
    requires k < |heard| && Passes(b, heard, k)
  {
    if b.proto < 2 then Encode(b.claims.session, heard[k].msg.data).value else heard[k].msg.data
  }

  /** The frames of the first n messages that pass. */
  function Passed(b: Binding, heard: seq<Heard>, n: nat): seq<Bytes>
    requires n <= |heard|
  {
    if n == 0 then []
    else Passed(b, heard, n - 1) + (if Passes(b, heard, n - 1) then [FrameAt(b, heard, n - 1)] else [])
  }

  function Forwarded(b: Binding, heard: seq<Heard>): seq<Bytes> {
    Passed(b, heard, |heard|)
  }

  /** What message k makes the handler write to the agent, read off the history: nothing once the loop
      has ended. A resize that names no session is meant for the active one. */
  function SaysAt(b: Binding, heard: seq<Heard>, k: nat): seq<AgentMsg>
    requires k < |heard|
  {
    if exists j :: 0 <= j <= k && EndsLoop(b, heard[j].msg) then []
    else
      match heard[k].msg
      case Attach(s) => if b.proto >= 2 then [Ctl(AttachSession(s, b.proto))] else []
      case Detach(s) => if b.proto >= 2 then [Ctl(DetachSession(s))] else []
      case Resize(s, cols, rows) =>
        [Ctl(ResizeSession(if b.proto >= 2 && s == [] then ActiveSession(b, heard, k) else s, cols, rows))]
      case Binary(_) => if Passes(b, heard, k) then [AgentMsg.Input(FrameAt(b, heard, k))] else []
      case _ => []
  }

  function SaidUpTo(b: Binding, heard: seq<Heard>, n: nat): seq<AgentMsg>
    requires n <= |heard|
  {
    if n == 0 then [] else SaidUpTo(b, heard, n - 1) + SaysAt(b, heard, n - 1)
  }

  /** Everything that a history makes the handler write to the agent, in order. */
  function Said(b: Binding, heard: seq<Heard>): seq<AgentMsg> {
    SaidUpTo(b, heard, |heard|)
  }

  /** The input frames among what is written. */
  function InputFrames(msgs: seq<AgentMsg>): seq<Bytes> {
    if msgs == [] then []
    else
      var m := msgs[|msgs| - 1];
      InputFrames(msgs[..|msgs| - 1]) + (if m.Input? then [m.frame] else [])
  }

  lemma InputFramesAppend(msgs: seq<AgentMsg>, more: seq<AgentMsg>)
    requires |more| <= 1
    ensures InputFrames(msgs + more) ==
      InputFrames(msgs) + if |more| == 1 && more[0].Input? then [more[0].frame] else []
  {
    if more == [] {
      assert msgs + more == msgs;
    } else {
      assert (msgs + more)[..|msgs|] == msgs;
    }
  }

  /** Among the things said for a message there is an input frame exactly when the message passes. */
  lemma SaysFrame(b: Binding, heard: seq<Heard>, k: nat)
    requires k < |heard|
    ensures var says := SaysAt(b, heard, k);
      && |says| <= 1
      && (Passes(b, heard, k) ==> says == [AgentMsg.Input(FrameAt(b, heard, k))])
      && (!Passes(b, heard, k) ==> says == [] || says[0].Ctl?)
  {
  }

  /** The frames among what is said are the messages that pass. */
  lemma {:induction false} SaidFrames(b: Binding, heard: seq<Heard>, n: nat)
    requires n <= |heard|
    ensures InputFrames(SaidUpTo(b, heard, n)) == Passed(b, heard, n)
  {
    if n > 0 {
      SaidFrames(b, heard, n - 1);
      SaysFrame(b, heard, n - 1);
      InputFramesAppend(SaidUpTo(b, heard, n - 1), SaysAt(b, heard, n - 1));
    }
  }

  // ----- what may be written

  /** A control message names only sessions that its client may name: by the old protocol there are no
      attaches and detaches, by the new one they name a session, and an attach the claimed one, if a session
      is claimed. */
  predicate MayWriteControl(b: Binding, c: Control) {
    match c
    case AttachSession(s, proto) =>
      b.proto >= 2 && proto == b.proto && s != [] && (b.claims.session != [] ==> s == b.claims.session)
    case DetachSession(s) => b.proto >= 2 && s != []
    case ResizeSession(_, _, _) => true
  }

  predicate Within(b: Binding, m: AgentMsg) {
    match m
    case Ctl(c) => MayWriteControl(b, c)
    case Input(frame) =>
      b.claims.write && Decode(frame).Ok? && (b.proto < 2 ==> Decode(frame).value.session == b.claims.session)
  }

  lemma SaysWithin(b: Binding, heard: seq<Heard>, k: nat)
    requires k < |heard|
    ensures forall m :: m in SaysAt(b, heard, k) ==> Within(b, m)
  {
    if Passes(b, heard, k) && b.proto < 2 {
      EncodeThenDecode(b.claims.session, heard[k].msg.data);
    }
  }

  /** Whatever a client sends, all that its handler writes stays within what the client may name. */
  lemma {:induction false} SaidStaysWithin(b: Binding, heard: seq<Heard>, n: nat)
    requires n <= |heard|
    ensures forall m :: m in SaidUpTo(b, heard, n) ==> Within(b, m)
  {
    if n > 0 {
      SaidStaysWithin(b, heard, n - 1);
      SaysWithin(b, heard, n - 1);
    }
  }

  /** Nothing is written from a message that is no JSON on. */
  lemma {:induction false} NothingAfterBadJson(b: Binding, heard: seq<Heard>, k: nat, n: nat)
    requires k <= n <= |heard| && k < |heard| && heard[k].msg == BadJson
    ensures SaidUpTo(b, heard, n) == SaidUpTo(b, heard, k)
  {
    if k < n {
      NothingAfterBadJson(b, heard, k, n - 1);
      assert EndsLoop(b, heard[k].msg);
    }
  }

  /** As long as no message is refused, each attach, detach and resize of a new-protocol client is passed on
      at once, for the session it names; a resize that names none, for the active one. */
  lemma ControlsArePassedOn(b: Binding, heard: seq<Heard>, k: nat)
    requires k < |heard| && b.proto >= 2 && forall j :: 0 <= j <= k ==> !EndsLoop(b, heard[j].msg)
    ensures match heard[k].msg
      case Attach(s) => SaysAt(b, heard, k) == [Ctl(AttachSession(s, b.proto))]
      case Detach(s) => SaysAt(b, heard, k) == [Ctl(DetachSession(s))]
      case Resize(s, cols, rows) =>
        SaysAt(b, heard, k) == [Ctl(ResizeSession(if s == [] then ActiveSession(b, heard, k) else s, cols, rows))]
      case Binary(_) => SaysAt(b, heard, k) != [] ==> SaysAt(b, heard, k)[0].Input?
      case _ => SaysAt(b, heard, k) == []
  {
  }

  /** An old-protocol client's resizes are passed on as they are, and its other control messages are not. */
  lemma OldControlsAreDropped(b: Binding, heard: seq<Heard>, k: nat)
    requires k < |heard| && b.proto < 2 && forall j :: 0 <= j <= k ==> heard[j].msg != BadJson
    ensures match heard[k].msg
      case Resize(s, cols, rows) => SaysAt(b, heard, k) == [Ctl(ResizeSession(s, cols, rows))]
      case Binary(_) => SaysAt(b, heard, k) != [] ==> SaysAt(b, heard, k)[0].Input?
      case _ => SaysAt(b, heard, k) == []
  {
  }

  // ----- the one-message view agrees with the history

  lemma {:induction false} FirstNonEmptyAppend(names: seq<Bytes>, s: Bytes)
    ensures FirstNonEmpty(names + [s]) == if FirstNonEmpty(names) == [] then s else FirstNonEmpty(names)
  {
    if names != [] {
      assert (names + [s])[1..] == names[1..] + [s];
      FirstNonEmptyAppend(names[1..], s);
    }
  }

  lemma {:induction false} HistoryIsLocal(heard: seq<Heard>, k: nat, n: nat)
    requires k <= n <= |heard|
    ensures LastActive(heard[..n], k) == LastActive(heard, k)
    ensures Attached(heard[..n], k) == Attached(heard, k)
  {
    if k > 0 {
      HistoryIsLocal(heard, k - 1, n);
    }
  }

  lemma ActiveAtStart(b: Binding)
    ensures InitialView(b).active == FirstNonEmpty([b.claims.session, b.first])
  {
    var names := [b.claims.session, b.first];
    assert names[1..] == [b.first] && names[1..][1..] == [];
    assert FirstNonEmpty(names[1..]) == b.first;
  }

  lemma NamedStep(b: Binding, heard: seq<Heard>, k: nat)
    requires k < |heard|
    ensures Named(b, heard, k + 1) ==
      if heard[k].msg.Attach? then Named(b, heard, k) + [heard[k].msg.session] else Named(b, heard, k)
  {
  }

  /** One message moves the active session of the history as it moves the loop variable. */
  lemma ActiveStep(b: Binding, heard: seq<Heard>, k: nat)
    requires k < |heard| && b.proto >= 2 && !EndsLoop(b, heard[k].msg)
    requires LastActive(heard, k).Some? ==> LastActive(heard, k).value != []
    ensures ActiveSession(b, heard, k + 1) == Observe(b, View(true, ActiveSession(b, heard, k)), heard[k].msg).active
  {
    NamedStep(b, heard, k);
    if heard[k].msg.Attach? {
      FirstNonEmptyAppend(Named(b, heard, k), heard[k].msg.session);
    }
  }

  /** For a new-protocol client the loop variables hold what the history says, as long as no message
      has ended the loop. */
  lemma {:induction false} ViewIsHistory(b: Binding, heard: seq<Heard>)
    requires forall j :: 0 <= j < |heard| ==> !EndsLoop(b, heard[j].msg)
    ensures ViewAfter(b, heard).focus == LastFocusOn(heard, |heard|)
    ensures b.proto >= 2 ==> ViewAfter(b, heard).active == ActiveSession(b, heard, |heard|)
    ensures b.proto >= 2 && LastActive(heard, |heard|).Some? ==> LastActive(heard, |heard|).value != []
  {
    var n := |heard|;
    if n == 0 {
      ActiveAtStart(b);
      assert [b.claims.session, b.first] + [] == [b.claims.session, b.first];
    } else {
      ViewIsHistory(b, heard[..n - 1]);
      HistoryIsLocal(heard, n - 1, n - 1);
      FocusStep(heard);
      if b.proto >= 2 {
        ActiveStep(b, heard, n - 1);
      }
    }
  }

  lemma FocusStep(heard: seq<Heard>)
    requires heard != []
    ensures var n := |heard| - 1;
      LastFocusOn(heard, n + 1) == if heard[n].msg == Focus("on") then true
        else if heard[n].msg == Focus("off") then false else LastFocusOn(heard[..n], n)
  {
  }

  lemma {:induction false} SaidIsLocal(b: Binding, heard: seq<Heard>, k: nat, n: nat)
    requires k <= n <= |heard|
    ensures SaidUpTo(b, heard[..n], k) == SaidUpTo(b, heard, k)
  {
    if k > 0 {
      SaidIsLocal(b, heard, k - 1, n);
      SaysIsLocal(b, heard, k - 1, n);
    }
  }

  lemma PassesIsLocal(b: Binding, heard: seq<Heard>, k: nat, n: nat)
    requires k < n <= |heard|
    ensures Passes(b, heard[..n], k) == Passes(b, heard, k)
  {
    HistoryIsLocal(heard, k, n);
    var front := heard[..n];
    assert forall j :: 0 <= j < n ==> front[j] == heard[j];
    assert LastFocusOn(front, k) == LastFocusOn(heard, k);
  }

  lemma SaysIsLocal(b: Binding, heard: seq<Heard>, k: nat, n: nat)
    requires k < n <= |heard|
    ensures SaysAt(b, heard[..n], k) == SaysAt(b, heard, k)
  {
    HistoryIsLocal(heard, k, n);
    PassesIsLocal(b, heard, k, n);
    var front := heard[..n];
    assert forall j :: 0 <= j < n ==> front[j] == heard[j];
  }

  /** The gates of the history, for the last message, are those of the loop variables. */
  lemma PassesNow(b: Binding, heard: seq<Heard>, h: Heard)
    requires forall j :: 0 <= j < |heard| ==> !EndsLoop(b, heard[j].msg)
    requires h.msg.Binary?
    ensures var v, all := ViewAfter(b, heard), heard + [h];
      && (Passes(b, all, |heard|) <==>
            b.claims.write && v.focus && h.writable && h.writer && FrameFor(b, v, h.msg.data).Some?)
      && (Passes(b, all, |heard|) ==> FrameFor(b, v, h.msg.data) == Some(FrameAt(b, all, |heard|)))
  {
    var n := |heard|;
    var all := heard + [h];
    assert all[..n] == heard && all[n] == h;
    ViewIsHistory(b, heard);
    HistoryIsLocal(all, n, n);
    assert forall j :: 0 <= j < n ==> all[j] == heard[j];
    assert LastFocusOn(all, n) == LastFocusOn(heard, n);
  }

  lemma ResizeSaysNow(b: Binding, heard: seq<Heard>, h: Heard)
    requires forall j :: 0 <= j < |heard| ==> !EndsLoop(b, heard[j].msg)
    requires h.msg.Resize?
    ensures SaysAt(b, heard + [h], |heard|) == [Say(b, ViewAfter(b, heard), h).value]
  {
    var n := |heard|;
    var all := heard + [h];
    assert all[..n] == heard && all[n] == h && forall j :: 0 <= j < n ==> all[j] == heard[j];
    ViewIsHistory(b, heard);
    HistoryIsLocal(all, n, n);
  }

  /** What the last message makes the handler write is what the loop, with its variables, writes. */
  lemma SaysNow(b: Binding, heard: seq<Heard>, h: Heard)
    requires forall j :: 0 <= j < |heard| ==> !EndsLoop(b, heard[j].msg)
    ensures var say := Say(b, ViewAfter(b, heard), h);
      SaysAt(b, heard + [h], |heard|) == if say.Some? then [say.value] else []
  {
    var n := |heard|;
    var all := heard + [h];
    assert all[n] == h && forall j :: 0 <= j < n ==> all[j] == heard[j];
    if h.msg.Binary? {
      PassesNow(b, heard, h);
    } else if h.msg.Resize? {
      ResizeSaysNow(b, heard, h);
    }
  }

  /** One more message adds what the loop writes for it. */
  lemma SaidStep(b: Binding, heard: seq<Heard>, h: Heard)
    requires forall j :: 0 <= j < |heard| ==> !EndsLoop(b, heard[j].msg)
    ensures var say := Say(b, ViewAfter(b, heard), h);
      Said(b, heard + [h]) == Said(b, heard) + if say.Some? then [say.value] else []
  {
    assert (heard + [h])[..|heard|] == heard;
    SaidIsLocal(b, heard + [h], |heard|, |heard|);
    SaysNow(b, heard, h);
  }

  lemma {:induction false} EndedSaysNothing(b: Binding, heard: seq<Heard>, k: nat)
    requires k < |heard| && EndsLoop(b, heard[k].msg)
    ensures Said(b, heard) == Said(b, heard[..k])
    decreases |heard|
  {
    var n := |heard| - 1;
    SaidIsLocal(b, heard, n, n);
    assert SaysAt(b, heard, n) == [];
    if k < n {
      EndedSaysNothing(b, heard[..n], k);
      assert heard[..n][..k] == heard[..k];
    }
  }

  // ----- the code as written

  /** The loop of `ServeClientConn` over any messages and any answers of the two gates, writing to the
      agent connection. It writes exactly what the history says, and it returns early exactly at the
      first message that ends it. */
  method ControlLoop(b: Binding, heard: seq<Heard>) returns (writes: seq<AgentMsg>, read: nat)
    ensures writes == Said(b, heard)
    ensures read <= |heard|
    ensures read < |heard| ==> EndsLoop(b, heard[read].msg)
    ensures forall j :: 0 <= j < read ==> !EndsLoop(b, heard[j].msg)
  {
    writes, read := [], 0;
    var focusActive := true;
    var activeSession := b.claims.session;
    if activeSession == [] {
      activeSession := b.first;
    }
    while read < |heard|
      invariant read <= |heard|
      invariant forall j :: 0 <= j < read ==> !EndsLoop(b, heard[j].msg)
      invariant View(focusActive, activeSession) == ViewAfter(b, heard[..read])
      invariant writes == Said(b, heard[..read])
    {
      var h := heard[read];
      if EndsLoop(b, h.msg) {
        EndedSaysNothing(b, heard, read);
      }
      assert heard[..read + 1] == heard[..read] + [h];
      SaidStep(b, heard[..read], h);
      assert heard[..read + 1][..read] == heard[..read];
      match h.msg {
        case BadJson =>
          return;
        case Attach(session) =>
          if b.proto >= 2 {
            if session == [] {
              return;
            }
            if b.claims.session != [] && session != b.claims.session {
              return;
            }
            writes := writes + [Ctl(AttachSession(session, b.proto))];
            if activeSession == [] {
              activeSession := session;
            }
          }
        case Detach(session) =>
          if b.proto >= 2 {
            if session == [] {
              return;
            }
            writes := writes + [Ctl(DetachSession(session))];
          }
        case Active(session) =>
          if b.proto >= 2 {
            if session == [] {
              return;
            }
            activeSession := session;
          }
        case Resize(session, cols, rows) =>
          var named := session;
          if b.proto >= 2 && session == [] {
            named := activeSession;
          }
          writes := writes + [Ctl(ResizeSession(named, cols, rows))];
        case Focus(state) =>
          if state == "on" {
            focusActive := true;
          } else if state == "off" {
            focusActive := false;
          }
        case Binary(data) =>
          if b.claims.write && focusActive && h.writable && h.writer {
            var frame := GateFrame(b, activeSession, data);
            if frame.Ok? {
              writes := writes + [AgentMsg.Input(frame.value)];
            }
          }
        case _ =>
      }
      read := read + 1;
    }
    assert heard[..read] == heard;
  }

  /** The frame for an input message: an old-protocol payload wrapped for the claimed session, or a
      new-protocol frame for the active session, decoded and encoded again. */
  method GateFrame(b: Binding, activeSession: Bytes, data: Bytes) returns (frame: Encoded)
    ensures frame.Ok? <==> FrameFor(b, View(true, activeSession), data).Some?
    ensures frame.Ok? ==> FrameFor(b, View(true, activeSession), data) == Some(frame.value)
  {
    if b.proto < 2 {
      frame := EncodeBuffer(b.claims.session, data);
      return;
    }
    var f := Decode(data);
    if f.Err? {
      return Err(f.error);
    }
    if f.value.session != activeSession {
      return Err(SessionIdRequired);
    }
    frame := EncodeBuffer(f.value.session, f.value.payload);
    DecodeThenEncode(data);
  }
}
