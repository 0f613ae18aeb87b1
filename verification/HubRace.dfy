/** A run that interleaves two requests and a lock (internal/hub/hub.go:405-419): the separate sections of
    `request_write` hand the role over directly, on a locked agent. `HubGrants` says exactly when. And a run
    in which a broadcast that is overtaken leaves clients misinformed; `HubStatus` says exactly when. */
module HubRace {
  import opened Wrappers
  import opened Registry
  import opened ClientLoop
  import opened HubSteps
  import opened HubSerial

  ghost predicate Reachable(s: HubState) {
    exists states, acts :: IsRun(states, acts) && states[|acts|] == s
  }

  lemma Reach(s: HubState, act: Action) returns (t: HubState)
    requires Reachable(s)
    ensures t == Fire(s, act) && Reachable(t)
  {
    t := Fire(s, act);
    var states, acts :| IsRun(states, acts) && states[|acts|] == s;
    var states', acts' := states + [t], acts + [act];
    forall k | 0 <= k < |acts'| ensures StepsAt(states', acts', k) {
      assert k < |acts| ==> StepsAt(states, acts, k);
    }
    assert IsRun(states', acts') && states'[|acts'|] == t;
  }

  // ----- the cast: one agent, and two clients of it that may write

  const AGENT: AgentId := "agent"
  const TOKEN := Claims(AGENT, [], true)
  const HELLO := Hello(true, AGENT, [], 2)
  const BOUND := Binding(TOKEN, 2, [])

  /** Handler x stands at pc with its id, and so does the other one; these clients are registered. */
  ghost predicate Scene(s: HubState, x: nat, pc: Pc, id: ClientId, otherPc: Pc, otherId: ClientId, ids: set<ClientId>) {
    && Reachable(s) && |s.handlers| == 2 && x < 2
    && s.handlers[x].b == s.handlers[1 - x].b == BOUND
    && s.handlers[x].pc == pc && s.handlers[x].id == id
    && s.handlers[1 - x].pc == otherPc && s.handlers[1 - x].id == otherId
    && AGENT in s.agents && s.agents[AGENT].sess == [] && s.agents[AGENT].write && s.agents[AGENT].writer == NO_CLIENT
    && s.agents[AGENT].clients.Keys == ids
  }

  lemma Opening() returns (s: HubState)
    ensures Scene(s, 0, Arriving(Lookup), NO_CLIENT, Arriving(Lookup), NO_CLIENT, {}) && s.lastId == 0
  {
    var none: seq<Action> := [];
    assert IsRun([EMPTY_HUB], none) && [EMPTY_HUB][|none|] == EMPTY_HUB;
    s := Reach(EMPTY_HUB, AgentConnects(AGENT, 0));
    assert Handshake(HELLO, TOKEN) == Ok(BOUND);
    s := Reach(s, ClientConnects(HELLO, TOKEN));
    s := Reach(s, ClientConnects(HELLO, TOKEN));
  }

  lemma Numbered(s: HubState, x: nat, otherPc: Pc, otherId: ClientId, ids: set<ClientId>)
      returns (t: HubState)
    requires Scene(s, x, Arriving(Lookup), NO_CLIENT, otherPc, otherId, ids)
    ensures Scene(t, x, Arriving(Adding), s.lastId + 1, otherPc, otherId, ids) && t.lastId == s.lastId + 1
  {
    t := Reach(s, Turn(x, Go));
    t := Reach(t, Turn(x, Go));
  }

  lemma Added(s: HubState, x: nat, otherPc: Pc, otherId: ClientId, ids: set<ClientId>)
      returns (t: HubState)
    requires Scene(s, x, Arriving(Lookup), NO_CLIENT, otherPc, otherId, ids)
    ensures Scene(t, x, Greeting(SettingSession), s.lastId + 1, otherPc, otherId, ids + {s.lastId + 1})
    ensures t.lastId == s.lastId + 1
  {
    t := Numbered(s, x, otherPc, otherId, ids);
    t := Reach(t, Turn(x, Go));
  }

  lemma Told(s: HubState, x: nat, id: ClientId, otherPc: Pc, otherId: ClientId, ids: set<ClientId>)
      returns (t: HubState)
    requires Scene(s, x, Greeting(TellingAgent), id, otherPc, otherId, ids)
    ensures Scene(t, x, Greeting(AskingStatus), id, otherPc, otherId, ids) && t.lastId == s.lastId
  {
    t := Reach(s, Turn(x, Go));
    t := Reach(t, Turn(x, Go));
  }

  lemma Greeted(s: HubState, x: nat, id: ClientId, otherPc: Pc, otherId: ClientId, ids: set<ClientId>)
      returns (t: HubState)
    requires Scene(s, x, Greeting(SettingSession), id, otherPc, otherId, ids)
    ensures Scene(t, x, Greeting(AskingStatus), id, otherPc, otherId, ids) && t.lastId == s.lastId
  {
    t := Reach(s, Turn(x, Go));
    t := Told(t, x, id, otherPc, otherId, ids);
  }

  lemma Arrived(s: HubState, x: nat, otherPc: Pc, otherId: ClientId, ids: set<ClientId>)
      returns (t: HubState)
    requires Scene(s, x, Arriving(Lookup), NO_CLIENT, otherPc, otherId, ids)
    ensures Scene(t, x, Reading, s.lastId + 1, otherPc, otherId, ids + {s.lastId + 1}) && t.lastId == s.lastId + 1
  {
    t := Added(s, x, otherPc, otherId, ids);
    t := Greeted(t, x, s.lastId + 1, otherPc, otherId, ids + {s.lastId + 1});
    t := Reach(t, Turn(x, Go));
    t := Reach(t, Turn(x, Go));
  }

  /** One handler asks, and passes the lock check and the writer check. */
  lemma Asked(s: HubState, x: nat, id: ClientId, otherPc: Pc, otherId: ClientId, ids: set<ClientId>)
      returns (t: HubState)
    requires Scene(s, x, Reading, id, otherPc, otherId, ids)
    ensures Scene(t, x, Requesting(Setting), id, otherPc, otherId, ids)
  {
    t := Reach(s, Turn(x, Hear(RequestWrite)));
    assert Scene(t, x, Requesting(AskLock), id, otherPc, otherId, ids);
    t := Reach(t, Turn(x, Go));
    assert Scene(t, x, Requesting(AskHas), id, otherPc, otherId, ids);
    t := Reach(t, Turn(x, Go));
  }

  lemma BothAsked() returns (s: HubState)
    ensures Scene(s, 1, Requesting(Setting), 2, Requesting(Setting), 1, {1, 2})
  {
    s := Opening();
    s := Arrived(s, 0, Arriving(Lookup), NO_CLIENT, {});
    s := Arrived(s, 1, Reading, 1, {} + {1});
    assert {} + {1} + {2} == {1, 2};
    s := Asked(s, 0, 1, Reading, 2, {1, 2});
    s := Asked(s, 1, 2, Requesting(Setting), 1, {1, 2});
  }

  /** In its next turn handler x takes the role of a locked agent over from another client. */
  predicate Usurps(s: HubState, x: nat) {
    var t := Fire(s, Turn(x, Go));
    && x < |s.handlers|
    && Writer(s.agents, AGENT) != NO_CLIENT && Writer(t.agents, AGENT) != NO_CLIENT
    && Writer(s.agents, AGENT) != Writer(t.agents, AGENT) == s.handlers[x].id
    && !WebWritable(s.agents, AGENT) && !WebWritable(t.agents, AGENT)
  }

  /** The first client holds the role of the locked agent, and the second is before `setWriter`. */
  lemma LockedBetween() returns (s: HubState)
    ensures Reachable(s) && |s.handlers| == 2 && AGENT in s.agents && s.handlers[1].b == BOUND
    ensures s.handlers[1].pc == Requesting(Setting) && s.handlers[1].id == 2
    ensures Writer(s.agents, AGENT) == 1 && !WebWritable(s.agents, AGENT)
  {
    s := BothAsked();
    s := Reach(s, LockRequest(AGENT, [], false));
    assert s.handlers[0].pc == s.handlers[1].pc == Requesting(Setting) && !WebWritable(s.agents, AGENT);
    s := Reach(s, Turn(0, Go));
  }

  /** Neither half of exclusive granting survives interleaving: a reachable hub hands the role of a
      locked agent from one client straight to another, in the turn of the second. */
  lemma GrantsRace()
    ensures exists s, x: nat :: Reachable(s) && Usurps(s, x)
  {
    var s := LockedBetween();
    assert Usurps(s, 1);
  }

  // ----- status agreement

  /** Both clients are registered, and this one is the writer. */
  ghost predicate Pair(s: HubState, w: ClientId) {
    && Reachable(s) && |s.handlers| == 2 && s.handlers[0].b == s.handlers[1].b == BOUND
    && s.handlers[0].id == 1 && s.handlers[1].id == 2
    && AGENT in s.agents && s.agents[AGENT].clients.Keys == {1, 2} && s.agents[AGENT].writer == w
  }

  /** The same, with the handlers at these places. */
  ghost predicate At(s: HubState, pc0: Pc, pc1: Pc, w: ClientId) {
    Pair(s, w) && s.handlers[0].pc == pc0 && s.handlers[1].pc == pc1
  }

  function ToBoth(w: ClientId): Pc {
    Broadcasting(Sending({1, 2}, w), false)
  }

  /** A handler takes its list of clients and reads the writer, for its broadcast. */
  lemma Prepares(s: HubState, x: nat, w: ClientId) returns (t: HubState)
    requires x < 2 && Pair(s, w) && s.handlers[x].pc == Broadcasting(Snapping, false)
    ensures Pair(t, w) && t.handlers[x].pc == ToBoth(w) && t.handlers[1 - x].pc == s.handlers[1 - x].pc
  {
    t := Reach(s, Turn(x, Go));
    assert Pair(t, w) && t.handlers[x].pc == Broadcasting(GettingWriter({1, 2}), false);
    t := Reach(t, Turn(x, Go));
  }

  /** The first handler sets the writer, and pauses its broadcast after having read it. */
  lemma FirstPauses() returns (s: HubState)
    ensures At(s, ToBoth(1), Requesting(Setting), 1)
  {
    s := BothAsked();
    s := Reach(s, Turn(0, Go));
    s := Prepares(s, 0, 1);
  }

  /** The second handler takes the role over, and reads the writer for its own broadcast. */
  lemma SecondTakesOver(s: HubState) returns (t: HubState)
    requires At(s, ToBoth(1), Requesting(Setting), 1)
    ensures At(t, ToBoth(1), ToBoth(2), 2)
  {
    t := Reach(s, Turn(1, Go));
    t := Prepares(t, 1, 2);
  }

  /** A handler tells one of its audience. */
  lemma TellsOne(s: HubState, x: nat, todo: set<ClientId>, w: ClientId, id: ClientId) returns (t: HubState)
    requires x < 2 && id in todo
    requires Pair(s, 2) && s.handlers[x].pc == Broadcasting(Sending(todo, w), false)
    ensures Pair(t, 2)
    ensures t.handlers[1 - x].pc == s.handlers[1 - x].pc
    ensures t.handlers[x].pc == Broadcasting(Sending(todo - {id}, w), false)
    ensures LastStatus(t.sent, id) == Some(id == w)
    ensures forall c :: c != id ==> LastStatus(t.sent, c) == LastStatus(s.sent, c)
  {
    t := Reach(s, Turn(x, Pick(id)));
    forall c ensures LastStatus(t.sent, c) == if c == id then Some(id == w) else LastStatus(s.sent, c) {
      LastStatusAppend(s.sent, Delivery(id, WriteStatus(id == w)), c);
    }
  }

  lemma TellsBoth(s: HubState, x: nat, w: ClientId) returns (t: HubState)
    requires x < 2 && Pair(s, 2) && s.handlers[x].pc == ToBoth(w)
    ensures Pair(t, 2)
    ensures t.handlers[1 - x].pc == s.handlers[1 - x].pc && t.handlers[x].pc == Reading
    ensures LastStatus(t.sent, 1) == Some(1 == w) && LastStatus(t.sent, 2) == Some(2 == w)
  {
    t := TellsOne(s, x, {1, 2}, w, 1);
    assert {1, 2} - {1} == {2};
    t := TellsOne(t, x, {2}, w, 2);
    assert {2} - {2} == {};
    var u := t;
    t := Reach(t, Turn(x, Go));
    assert u.sent + [] == u.sent;
  }

  /** The handlers rest, client 2 is the writer and was last told that it is not, and client 1 was last told
      that it is. */
  ghost predicate Misinformed(s: HubState) {
    && At(s, Reading, Reading, 2)
    && LastStatus(s.sent, 2) == Some(false) && LastStatus(s.sent, 1) == Some(true)
  }

  /** Status agreement does not survive interleaving either, although the registered clients are the same
      from the first `setWriter` on. */
  lemma StatusRace()
    ensures exists s :: Misinformed(s)
  {
    var s := FirstPauses();
    s := SecondTakesOver(s);
    s := TellsBoth(s, 1, 2);
    s := TellsBoth(s, 0, 1);
    assert Misinformed(s);
  }
}
