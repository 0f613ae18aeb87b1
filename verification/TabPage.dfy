/** The page that owns the tabs (web/app.js): its handlers update the ordered map of terminals, the
    active session and the writer flag in place, and send messages while the socket is open. */
module TabPage {
  import opened Wrappers
  import opened MuxFrame
  import opened TabTable
  import opened FanOut
  import BrowserCodec

  // ----- what a series of messages tells the hub

  /** The session of the last "active" message, the sessions attached and not detached since, and the
      input, in order. */
  datatype Tally = Tally(active: Option<Name>, requested: set<Name>, inputs: seq<Bytes>)

  function Count(t: Tally, m: Message): Tally {
    match m
    case Attach(name) => t.(requested := t.requested + {name})
    case Detach(name) => t.(requested := t.requested - {name})
    case Active(name) => t.(active := Some(name))
    case Input(data) => t.(inputs := t.inputs + [data])
    case _ => t
  }

  function TallyOf(sent: seq<Message>): Tally {
    if sent == [] then Tally(None, {}, []) else Count(TallyOf(sent[..|sent| - 1]), sent[|sent| - 1])
  }

  lemma TallyAppend(sent: seq<Message>, m: Message)
    ensures TallyOf(sent + [m]) == Count(TallyOf(sent), m)
  {
    assert (sent + [m])[..|sent|] == sent;
  }

  /** Between the two nothing was attached, detached or typed. */
  predicate SameRequests(before: Tally, after: Tally) {
    after.requested == before.requested && after.inputs == before.inputs
  }

  // ----- the messages of some occasions

  /** What the hub is told when a tab becomes the active one. */
  function Announced(open: bool, multiplex: bool, name: Name): (r: seq<Message>)
    ensures !open ==> r == []
    ensures open ==> r != [] && r[|r| - 1] == Resize(if multiplex then name else [])
    ensures open && multiplex ==> r[0] == Active(name) && |r| == 2
  {
    if !open then [] else if multiplex then [Active(name), Resize(name)] else [Resize([])]
  }

  /** Between the two nothing was sent but announcements. */
  predicate OnlyAnnounces(before: seq<Message>, after: seq<Message>) {
    before <= after && forall k :: |before| <= k < |after| ==> after[k].Active? || after[k].Resize?
  }

  lemma AnnouncesOn(a: seq<Message>, b: seq<Message>, c: seq<Message>)
    requires OnlyAnnounces(a, b) && OnlyAnnounces(b, c)
    ensures OnlyAnnounces(a, c)
  {
    assert forall k :: |a| <= k < |b| ==> c[k] == b[k];
  }

  /** The attach messages of a page with these tabs. */
  function Attaches(multiplex: bool, terminals: seq<Name>): (r: seq<Message>)
    requires terminals != []
    ensures |r| > 0 && r[0] == Attach(terminals[0])
  {
    if multiplex then AttachAll(terminals) else [Attach(terminals[0])]
  }

  function AttachAll(names: seq<Name>): (r: seq<Message>)
    ensures |r| == |names| && forall k :: 0 <= k < |names| ==> r[k] == Attach(names[k])
  {
    if names == [] then [] else AttachAll(names[..|names| - 1]) + [Attach(names[|names| - 1])]
  }

  lemma AttachAllNext(names: seq<Name>, i: nat)
    requires i < |names|
    ensures AttachAll(names[..i + 1]) == AttachAll(names[..i]) + [Attach(names[i])]
  {
    assert names[..i + 1][..i] == names[..i];
  }

  function Members(names: seq<Name>): set<Name> {
    if names == [] then {} else Members(names[..|names| - 1]) + {names[|names| - 1]}
  }

  lemma {:induction false} AttachAllTally(sent: seq<Message>, names: seq<Name>)
    ensures var t := TallyOf(sent);
      TallyOf(sent + AttachAll(names)) == t.(requested := t.requested + Members(names))
  {
    if names == [] {
      assert sent + AttachAll(names) == sent;
    } else {
      var front, m := names[..|names| - 1], Attach(names[|names| - 1]);
      AttachAllTally(sent, front);
      assert sent + AttachAll(names) == (sent + AttachAll(front)) + [m];
      TallyAppend(sent + AttachAll(front), m);
    }
  }

  /** The tabs that are attached when the socket opens. */
  function Attached(multiplex: bool, terminals: seq<Name>): set<Name>
    requires terminals != []
  {
    if multiplex then Members(terminals) else {terminals[0]}
  }

  /** What a page says when its socket opens; `had` tells whether it had tabs by then. */
  function Opening(multiplex: bool, had: bool, terminals: seq<Name>, active: Name, visible: bool): seq<Message>
    requires terminals != []
  {
    (if had then [] else Announced(true, multiplex, active))
    + Attaches(multiplex, terminals)
    + (if multiplex then [Active(active), Resize(active)] else [Resize([])])
    + [Focus(visible)]
  }

  /** The hub expects an attach message first. The page sends one first exactly when it still has a tab,
      because a page without tabs announces its default session before. In hub mode every tab is
      attached, and the hub is left with the active session. */
  lemma OpeningOrder(multiplex: bool, had: bool, terminals: seq<Name>, active: Name, visible: bool)
    requires terminals != []
    ensures var out := Opening(multiplex, had, terminals, active, visible);
      && (out[0] == Attach(terminals[0]) <==> had)
      && (multiplex ==> TallyOf(out).active == Some(active))
      && (multiplex ==> forall name :: name in terminals ==> Attach(name) in out)
  {
    OpeningTells(multiplex, had, terminals, active, visible);
    if multiplex {
      forall name | name in terminals ensures Attach(name) in Opening(multiplex, had, terminals, active, visible) {
        var k :| 0 <= k < |terminals| && terminals[k] == name;
        assert Attaches(multiplex, terminals)[k] == Attach(name);
      }
    }
  }

  lemma OpeningTells(multiplex: bool, had: bool, terminals: seq<Name>, active: Name, visible: bool)
    requires terminals != []
    ensures multiplex ==> TallyOf(Opening(multiplex, had, terminals, active, visible)).active == Some(active)
  {
    if multiplex {
      var all := (if had then [] else Announced(true, multiplex, active)) + Attaches(multiplex, terminals);
      assert Opening(multiplex, had, terminals, active, visible)
          == ((all + [Active(active)]) + [Resize(active)]) + [Focus(visible)];
      TallyAppend((all + [Active(active)]) + [Resize(active)], Focus(visible));
      TallyAppend(all + [Active(active)], Resize(active));
      TallyAppend(all, Active(active));
    }
  }

  // ----- keystrokes

  /** The input message for bytes typed in a tab: framed in hub mode, if the tab can be framed. */
  function KeyFrame(framed: bool, tab: Name, bytes: Bytes): Encoded {
    if framed then Encode(tab, bytes) else Ok(bytes)
  }

  /** Bytes typed in a tab, and the message that they became. */
  datatype Stroke = Stroke(tab: Name, bytes: Bytes, framed: bool, frame: Bytes)
  type Key = k: Stroke | KeyFrame(k.framed, k.tab, k.bytes) == Ok(k.frame)
    witness Stroke([], [], false, [])

  function FramesOf(typed: seq<Key>): seq<Bytes> {
    if typed == [] then [] else FramesOf(typed[..|typed| - 1]) + [typed[|typed| - 1].frame]
  }

  /** The messages for at most one keystroke. */
  function Carried(keys: seq<Key>): seq<Message> {
    if keys == [] then [] else [Input(keys[0].frame)]
  }

  predicate AllFramed(framed: bool, typed: seq<Key>) {
    forall i :: 0 <= i < |typed| ==> typed[i].framed == framed
  }

  lemma FramesAppend(typed: seq<Key>, key: Key)
    ensures FramesOf(typed + [key]) == FramesOf(typed) + [key.frame]
  {
    assert (typed + [key])[..|typed|] == typed;
  }

  // ----- what the terminals show

  /** What the terminal of a tab has been written. */
  function ScreenIn(screens: map<Name, seq<Bytes>>, name: Name): seq<Bytes> {
    if name in screens then screens[name] else []
  }

  /** One message shows the payload of a frame to the tab of its session, if there is one. */
  function ShowOne(tabs: seq<Name>, screens: map<Name, seq<Bytes>>, data: Bytes): map<Name, seq<Bytes>> {
    match Decode(data)
    case Ok(f) =>
      if f.session in tabs then screens[f.session := ScreenIn(screens, f.session) + [f.payload]] else screens
    case Err(_) => screens
  }

  function ShowAll(tabs: seq<Name>, screens: map<Name, seq<Bytes>>, stream: seq<Bytes>): map<Name, seq<Bytes>> {
    if stream == [] then screens
    else ShowOne(tabs, ShowAll(tabs, screens, stream[..|stream| - 1]), stream[|stream| - 1])
  }

  /** Each tab is shown the payloads of its own session, in order, and no other terminal is written. */
  lemma {:induction false} TabsShowTheirOwn(
      tabs: seq<Name>, screens: map<Name, seq<Bytes>>, stream: seq<Bytes>, name: Name)
    ensures ScreenIn(ShowAll(tabs, screens, stream), name) ==
      ScreenIn(screens, name) + if name in tabs then PayloadsOf(name, stream) else []
  {
    if stream != [] {
      TabsShowTheirOwn(tabs, screens, stream[..|stream| - 1], name);
    }
  }

  class Page {
    const multiplex: bool
    var terminals: seq<Name>
    var activeSession: Option<Name>
    var isWriter: bool
    var open: bool
    var sent: seq<Message>
    ghost var typed: seq<Key>
    var screens: map<Name, seq<Bytes>>

    constructor (multiplex: bool)
      ensures this.multiplex == multiplex && View() == Tabs([], None) && Valid()
      ensures !open && !isWriter && sent == [] && typed == [] && screens == map[]
    {
      this.multiplex := multiplex;
      terminals, activeSession, isWriter, open, sent, typed, screens := [], None, false, false, [], [], map[];
    }

    /** What the terminal of a tab has been written since the tab was added. */
    function Screen(name: Name): seq<Bytes>
      reads this
    {
      ScreenIn(screens, name)
    }

    function View(): Tabs
      reads this
    {
      Tabs(terminals, activeSession)
    }

    /** What the hub has been told on this connection. */
    function Told(): Tally
      reads this
    {
      TallyOf(sent)
    }

    /** In hub mode the hub has been told the active session. */
    predicate HubKnowsActive()
      reads this
    {
      open && multiplex && activeSession.Some? ==> Told().active == activeSession
    }

    /** `typed` records the keystrokes sent on this connection. */
    ghost predicate Valid()
      reads this
    {
      TabsOk(View()) && HubKnowsActive() && Told().inputs == FramesOf(typed) && AllFramed(multiplex, typed)
    }

    method Send(m: Message)
      modifies this`sent
      ensures sent == old(sent) + [m] && Told() == Count(old(Told()), m)
    {
      TallyAppend(sent, m);
      sent := sent + [m];
    }

    // ----- tabs

    /** The hub learns the size of the active tab, and nothing else changes for it. */
    method SendResize()
      modifies this`sent
      ensures Told() == old(Told())
      ensures sent == old(sent) + if activeSession.Some? && activeSession.value in terminals && open
        then [Resize(if multiplex then activeSession.value else [])] else []
    {
      if activeSession.Some? && activeSession.value in terminals && open {
        Send(Resize(if multiplex then activeSession.value else []));
      }
    }

    method SetActive(name: Name)
      requires TabsOk(View())
      modifies this`activeSession, this`sent
      ensures View() == Activating(old(View()), name) && TabsOk(View())
      ensures sent == old(sent) + if name in terminals then Announced(open, multiplex, name) else []
      ensures Told() ==
        if name in terminals && open && multiplex then old(Told()).(active := Some(name)) else old(Told())
    {
      if name !in terminals {
        return;
      }
      activeSession := Some(name);
      if open {
        if multiplex {
          Send(Active(name));
        }
        SendResize();
      }
    }

    method AddSession(name: Name)
      requires Valid()
      modifies this`terminals, this`activeSession, this`sent, this`screens
      ensures Valid() && View() == Adding(old(View()), name)
      ensures sent == old(sent) +
        if old(activeSession).None? && name != [] then Announced(open, multiplex, name) else []
      ensures screens == if name == [] || name in old(terminals) then old(screens) else old(screens)[name := []]
      ensures SameRequests(old(Told()), Told())
    {
      if name == [] || name in terminals {
        return;
      }
      AddingKeys(View(), name);
      terminals := terminals + [name];
      screens := screens[name := []];
      if activeSession.None? {
        activeSession := Some(name);
        SetActive(name);
      }
    }

    /** The active tab is gone: the first of the others becomes active, if there is one. */
    method ActivateFirst()
      requires NoRepeats(terminals) && [] !in terminals
      modifies this`activeSession, this`sent
      ensures TabsOk(View()) && HubKnowsActive() && SameRequests(old(Told()), Told())
      ensures activeSession == if terminals == [] then None else Some(terminals[0])
      ensures sent == old(sent) + if terminals == [] then [] else Announced(open, multiplex, terminals[0])
    {
      activeSession := None;
      if terminals != [] {
        activeSession := Some(terminals[0]);
        SetActive(terminals[0]);
      }
    }

    /** The tab leaves the table; if it was active, the first of the others takes its place. */
    method RemoveTab(name: Name)
      requires Valid() && name in terminals
      modifies this`terminals, this`activeSession, this`sent
      ensures Valid() && View() == Closing(old(View()), name)
      ensures sent == old(sent) +
        if old(activeSession) == Some(name) && terminals != [] then Announced(open, multiplex, terminals[0]) else []
      ensures SameRequests(old(Told()), Told())
    {
      ghost var after := Closing(View(), name);
      ClosingKeys(View(), name);
      terminals := Without(terminals, name);
      if activeSession == Some(name) {
        ActivateFirst();
      }
      assert View() == after;
    }

    method CloseSession(name: Name, notify: bool)
      requires Valid()
      modifies this`terminals, this`activeSession, this`sent
      ensures Valid() && View() == Closing(old(View()), name)
      ensures sent == old(sent)
        + (if notify && open && multiplex && name in old(terminals) then [Detach(name)] else [])
        + (if old(activeSession) == Some(name) && terminals != [] then Announced(open, multiplex, terminals[0]) else [])
      ensures Told().inputs == old(Told()).inputs
      ensures Told().requested == if notify && open && multiplex && name in old(terminals)
        then old(Told()).requested - {name} else old(Told()).requested
    {
      if name !in terminals {
        return;
      }
      if notify && open && multiplex {
        Send(Detach(name));
      }
      RemoveTab(name);
    }

    /** A tab goes without the hub being asked to detach it. */
    method CloseQuietly(name: Name)
      requires Valid()
      modifies this`terminals, this`activeSession, this`sent
      ensures Valid() && View() == Closing(old(View()), name)
      ensures OnlyAnnounces(old(sent), sent) && SameRequests(old(Told()), Told())
    {
      ghost var was := sent;
      CloseSession(name, false);
      assert was + [] == was;
    }

    method CloseEach(names: seq<Name>)
      requires Valid()
      modifies this`terminals, this`activeSession, this`sent
      ensures Valid() && View() == ClosingAll(old(View()), names)
      ensures OnlyAnnounces(old(sent), sent) && SameRequests(old(Told()), Told())
    {
      var i := 0;
      while i < |names|
        invariant 0 <= i <= |names| && Valid()
        invariant View() == ClosingAll(old(View()), names[..i])
        invariant OnlyAnnounces(old(sent), sent) && SameRequests(old(Told()), Told())
      {
        ghost var was := sent;
        CloseQuietly(names[i]);
        AnnouncesOn(old(sent), was, sent);
        assert names[..i + 1][..i] == names[..i];
        i := i + 1;
      }
      assert names[..i] == names;
    }

    method AddEach(names: seq<Name>)
      requires Valid()
      modifies this`terminals, this`activeSession, this`sent, this`screens
      ensures Valid() && View() == AddingAll(old(View()), names)
      ensures forall n :: n in old(terminals) ==> Screen(n) == old(Screen(n))
      ensures OnlyAnnounces(old(sent), sent) && SameRequests(old(Told()), Told())
    {
      var i := 0;
      while i < |names|
        invariant 0 <= i <= |names| && Valid()
        invariant View() == AddingAll(old(View()), names[..i])
        invariant forall n :: n in old(terminals) ==> n in terminals && Screen(n) == old(Screen(n))
        invariant OnlyAnnounces(old(sent), sent) && SameRequests(old(Told()), Told())
      {
        ghost var was := sent;
        AddSession(names[i]);
        AnnouncesOn(old(sent), was, sent);
        assert names[..i + 1][..i] == names[..i];
        i := i + 1;
      }
      assert names[..i] == names;
    }

    /** The handler of `sessions_sync`. It tells the hub at most about a new active session: a tab that it
        adds is not attached, and one that it removes is not detached. Its fallback for an active
        session without a tab is never needed. */
    method SessionsSync(incoming: seq<Name>)
      requires Valid()
      modifies this`terminals, this`activeSession, this`sent, this`screens
      ensures Valid() && View() == Synced(old(View()), incoming)
      ensures forall n :: n in old(terminals) && n in incoming ==> Screen(n) == old(Screen(n))
      ensures OnlyAnnounces(old(sent), sent) && SameRequests(old(Told()), Told())
    {
      var sync := ApplySessionsSync(terminals, incoming);
      SurvivorsStay(View(), incoming);
      CloseEach(sync.removed);
      AddEach(sync.added);
      if activeSession.Some? && activeSession.value !in terminals {
        assert false;
      }
    }

    /** The dialog for a new session. */
    method PromptSession(name: Name)
      requires Valid()
      modifies this`terminals, this`activeSession, this`sent, this`screens
      ensures Valid()
      ensures View() == if name == [] then old(View()) else Activating(Adding(old(View()), name), name)
      ensures sent == old(sent)
        + (if old(activeSession).None? && name != [] then Announced(open, multiplex, name) else [])
        + (if open && multiplex && name != [] && name !in old(terminals) then [Attach(name)] else [])
        + (if name != [] then Announced(open, multiplex, name) else [])
      ensures Told().requested == old(Told()).requested +
        if open && multiplex && name != [] && name !in old(terminals) then {name} else {}
    {
      if name == [] {
        return;
      }
      if name in terminals {
        SetActive(name);
        return;
      }
      OpenSession(name);
    }

    /** A tab for a new session, attached and active. */
    method OpenSession(name: Name)
      requires Valid() && name != [] && name !in terminals
      modifies this`terminals, this`activeSession, this`sent, this`screens
      ensures Valid() && View() == Activating(Adding(old(View()), name), name)
      ensures sent == old(sent)
        + (if old(activeSession).None? then Announced(open, multiplex, name) else [])
        + (if open && multiplex then [Attach(name)] else [])
        + Announced(open, multiplex, name)
      ensures Told().requested == old(Told()).requested + if open && multiplex then {name} else {}
    {
      AddSession(name);
      ghost var added := sent;
      if open && multiplex {
        Send(Attach(name));
      }
      assert sent == added + if open && multiplex then [Attach(name)] else [];
      SetActive(name);
    }

    // ----- the connection

    /** Attaches the first name, and in hub mode all the others. */
    method SendAttaches(names: seq<Name>)
      requires names != []
      modifies this`sent
      ensures sent == old(sent) + Attaches(multiplex, names)
      ensures Told() == old(Told()).(requested := old(Told()).requested + Attached(multiplex, names))
    {
      ghost var before := sent;
      AttachAllTally(before, names);
      AttachAllNext(names, 0);
      Send(Attach(names[0]));
      if multiplex {
        AttachRest(names, before);
      }
    }

    /** The loop over the other tabs. */
    method AttachRest(names: seq<Name>, ghost before: seq<Message>)
      requires names != [] && sent == before + AttachAll(names[..1])
      modifies this`sent
      ensures sent == before + AttachAll(names)
    {
      var i := 1;
      while i < |names|
        modifies this`sent
        invariant 1 <= i <= |names| && sent == before + AttachAll(names[..i])
      {
        AttachAllNext(names, i);
        Send(Attach(names[i]));
        i := i + 1;
      }
      assert names[..i] == names;
    }

    method SendFocusState(visible: bool)
      modifies this`sent
      ensures sent == old(sent) + (if open then [Focus(visible)] else []) && Told() == old(Told())
    {
      if open {
        Send(Focus(visible));
      }
    }

    /** The tabs attach, and the hub learns the active one. */
    method Introduce()
      requires TabsOk(View()) && terminals != [] && open && Told().inputs == [] && typed == []
      modifies this`sent
      ensures Valid() && Told().inputs == []
      ensures Told().requested == old(Told()).requested + Attached(multiplex, terminals)
      ensures sent == old(sent) + Attaches(multiplex, terminals)
        + (if multiplex then [Active(activeSession.value), Resize(activeSession.value)] else [Resize([])])
    {
      SendAttaches(terminals);
      if activeSession.None? {
        assert false;
      }
      AnnounceActive();
    }

    /** What follows the attach messages. */
    method AnnounceActive()
      requires TabsOk(View()) && activeSession.Some? && open
      modifies this`sent
      ensures HubKnowsActive() && SameRequests(old(Told()), Told())
      ensures sent == old(sent)
        + if multiplex then [Active(activeSession.value), Resize(activeSession.value)] else [Resize([])]
    {
      if multiplex {
        Send(Active(activeSession.value));
      }
      SendResize();
    }

    /** A new connection; a page without tabs opens the default one. */
    method StartAnew(defaultSession: Name)
      requires TabsOk(View()) && defaultSession != []
      modifies this`terminals, this`activeSession, this`open, this`sent, this`typed, this`screens
      ensures TabsOk(View()) && open && typed == [] && Told().inputs == [] && Told().requested == {}
      ensures View() == if old(terminals) == [] then Adding(old(View()), defaultSession) else old(View())
      ensures sent == if old(terminals) == [] then Announced(true, multiplex, activeSession.value) else []
    {
      open, sent, typed := true, [], [];
      if terminals == [] {
        AddSession(defaultSession);
      }
    }

    /** The page is no writer until it is told so, and tells whether it is visible. */
    method Settle(visible: bool)
      requires Valid()
      modifies this`isWriter, this`sent
      ensures Valid() && !isWriter && Told() == old(Told())
      ensures sent == old(sent) + if open then [Focus(visible)] else []
    {
      isWriter := false;
      SendFocusState(visible);
    }

    /** All that follows the first announcement of a page without tabs. */
    method Greet(visible: bool)
      requires TabsOk(View()) && terminals != [] && open && Told().inputs == [] && typed == []
      modifies this`isWriter, this`sent
      ensures Valid() && !isWriter
      ensures Told().requested == old(Told()).requested + Attached(multiplex, terminals)
      ensures sent == old(sent) + Attaches(multiplex, terminals)
        + (if multiplex then [Active(activeSession.value), Resize(activeSession.value)] else [Resize([])])
        + [Focus(visible)]
    {
      Introduce();
      Settle(visible);
    }

    /** The socket opens: every tab is attached, and the hub learns the active one. */
    method OnOpen(defaultSession: Name, visible: bool)
      requires TabsOk(View()) && defaultSession != []
      modifies this
      ensures Valid() && open && !isWriter && typed == []
      ensures View() == if old(terminals) == [] then Adding(old(View()), defaultSession) else old(View())
      ensures sent == Opening(multiplex, old(terminals) != [], terminals, activeSession.value, visible)
      ensures Told().requested == Attached(multiplex, terminals)
    {
      StartAnew(defaultSession);
      assert {} + Attached(multiplex, terminals) == Attached(multiplex, terminals);
      Greet(visible);
    }

    method OnClose()
      requires Valid()
      modifies this`open
      ensures Valid() && !open && View() == old(View())
    {
      open := false;
    }

    // ----- the writer role and the keyboard

    method OnWriteStatus(write: bool)
      requires Valid()
      modifies this`isWriter
      ensures Valid() && isWriter == write
    {
      isWriter := write;
    }

    /** `recently` tells whether a request was made less than a second ago. */
    method AskToWrite(recently: bool)
      requires Valid()
      modifies this`sent
      ensures Valid() && Told() == old(Told())
      ensures sent == old(sent) + if open && !isWriter && !recently then [RequestWrite] else []
    {
      if !open || isWriter || recently {
        return;
      }
      Send(RequestWrite);
    }

    method Release()
      requires Valid()
      modifies this`sent
      ensures Valid() && Told() == old(Told())
      ensures sent == old(sent) + if open && isWriter then [ReleaseWrite] else []
    {
      if !open || !isWriter {
        return;
      }
      Send(ReleaseWrite);
    }

    /** A message of input goes out. */
    method SendKey(ghost key: Key, data: Bytes)
      requires Valid() && key.frame == data && key.framed == multiplex
      modifies this`sent, this`typed
      ensures Valid() && sent == old(sent) + [Input(data)] && typed == old(typed) + [key]
    {
      FramesAppend(typed, key);
      Send(Input(data));
      typed := typed + [key];
    }

    /** What the keystroke log gains when these bytes are typed in a tab: one entry, with the message that
        they become, if the page is the writer and the socket is open. */
    function Gained(tab: Name, bytes: Bytes): (keys: seq<Key>)
      reads this
      ensures |keys| <= 1
      ensures keys != [] <==> open && isWriter && (multiplex ==> 0 < |tab| <= 0xFFFF)
      ensures forall k :: k in keys ==> k.tab == tab && k.bytes == bytes && k.framed == multiplex
    {
      match KeyFrame(multiplex, tab, bytes)
      case Ok(frame) => if open && isWriter then [Stroke(tab, bytes, multiplex, frame)] else []
      case Err(_) => []
    }

    /** The bytes go out as one message, or nothing does. */
    method Transmit(tab: Name, bytes: Bytes)
      requires Valid()
      modifies this`sent, this`typed
      ensures Valid() && typed == old(typed) + old(Gained(tab, bytes))
      ensures sent == old(sent) + Carried(old(Gained(tab, bytes)))
    {
      var frame: Encoded := Ok(bytes);
      if multiplex {
        frame := BrowserCodec.EncodeFrame(tab, bytes);
      }
      if frame.Ok? && open && isWriter {
        SendKey(Stroke(tab, bytes, multiplex, frame.value), frame.value);
      }
    }

    /** A terminal reports typed bytes: they are sent only if its tab is the active one. */
    method HandleInput(tab: Name, bytes: Bytes)
      requires Valid()
      modifies this`sent, this`typed
      ensures var gained := if activeSession == Some(tab) && bytes != [] then old(Gained(tab, bytes)) else [];
        Valid() && typed == old(typed) + gained && sent == old(sent) + Carried(gained)
    {
      if activeSession != Some(tab) || !isWriter {
        return;
      }
      if |bytes| > 0 {
        Transmit(tab, bytes);
      }
    }

    /** A key of the toolbar is typed in the active tab. */
    method SendSeq(bytes: Bytes)
      requires Valid()
      modifies this`sent, this`typed
      ensures var gained := if activeSession.Some? then old(Gained(activeSession.value, bytes)) else [];
        Valid() && typed == old(typed) + gained && sent == old(sent) + Carried(gained)
    {
      if activeSession.None? || !isWriter {
        return;
      }
      Transmit(activeSession.value, bytes);
    }

    // ----- output

    /** A binary message arrives: in hub mode its payload is written to the terminal of its tab, if there
        is one, and otherwise the whole message to the active terminal. */
    method OnBinary(data: Bytes)
      modifies this`screens
      ensures multiplex ==> screens == ShowOne(terminals, old(screens), data)
      ensures !multiplex ==> screens == if activeSession.Some? && activeSession.value in terminals
        then old(screens)[activeSession.value := old(Screen(activeSession.value)) + [data]] else old(screens)
    {
      if !multiplex {
        if activeSession.Some? && activeSession.value in terminals {
          screens := screens[activeSession.value := Screen(activeSession.value) + [data]];
        }
        return;
      }
      BrowserCodec.BrowserDecodesLikeHub(data, [], []);
      var f := BrowserCodec.DecodeFrame(data);
      if f.Ok? && f.value.session in terminals {
        screens := screens[f.value.session := Screen(f.value.session) + [f.value.payload]];
      }
    }

    /** The messages of a connection, in hub mode. */
    method OnBinaries(stream: seq<Bytes>)
      requires multiplex
      modifies this`screens
      ensures screens == ShowAll(terminals, old(screens), stream)
    {
      var i := 0;
      while i < |stream|
        invariant 0 <= i <= |stream| && screens == ShowAll(terminals, old(screens), stream[..i])
      {
        OnBinary(stream[i]);
        assert stream[..i + 1][..i] == stream[..i];
        i := i + 1;
      }
      assert stream[..i] == stream;
    }
  }
}
