/** The browser's table of terminal tabs (web/app.js): a map that keeps its insertion order, the active
    session, and what is sent to the hub while the socket is open. */
module TabTable {
  import opened Wrappers
  import opened MuxFrame

  /** A session id, as the bytes that frames carry. */
  type Name = Bytes

  /** What the page sends: control messages as JSON, and input. */
  datatype Message =
    | Attach(session: Name)
    | Active(session: Name)
    | Detach(session: Name)
    | Resize(session: Name)
    | Focus(on: bool)
    | RequestWrite
    | ReleaseWrite
    | Input(data: Bytes)

  // ----- lists of names as ordered sets

  predicate NoRepeats(names: seq<Name>) {
    forall i, j :: 0 <= i < j < |names| ==> names[i] != names[j]
  }

  /** The elements of a JavaScript `Set` built from a list: first occurrences, in order. */
  function Distinct(names: seq<Name>): (d: seq<Name>)
    ensures NoRepeats(d)
    ensures forall n :: n in d <==> n in names
  {
    if names == [] then []
    else
      var k := |names| - 1;
      var d := Distinct(names[..k]);
      if names[k] in d then d else d + [names[k]]
  }

  /** Of two members the one that occurs first in the list comes first. */
  lemma {:induction false} DistinctKeepsOrder(names: seq<Name>, i: nat, j: nat) returns (p: nat)
    requires i < j < |Distinct(names)|
    ensures p < |names| && names[p] == Distinct(names)[i] && Distinct(names)[j] !in names[..p + 1]
  {
    var k := |names| - 1;
    var front := names[..k];
    if j < |Distinct(front)| {
      p := DistinctKeepsOrder(front, i, j);
      assert front[..p + 1] == names[..p + 1];
    } else {
      assert Distinct(front)[i] in front;
      p :| p < k && front[p] == Distinct(front)[i];
      assert names[k] !in front && names[..p + 1] <= front;
    }
  }

  /** The names of the first list that are, or are not, in the second. */
  function Keep(names: seq<Name>, others: seq<Name>): seq<Name> {
    if names == [] then []
    else
      var k := |names| - 1;
      Keep(names[..k], others) + (if names[k] in others then [names[k]] else [])
  }

  function Drop(names: seq<Name>, others: seq<Name>): seq<Name> {
    if names == [] then []
    else
      var k := |names| - 1;
      Drop(names[..k], others) + (if names[k] in others then [] else [names[k]])
  }

  lemma {:induction false} KeepMembers(names: seq<Name>, others: seq<Name>)
    ensures forall n :: n in Keep(names, others) <==> n in names && n in others
    ensures NoRepeats(names) ==> NoRepeats(Keep(names, others))
  {
    if names != [] {
      var k := |names| - 1;
      assert names == names[..k] + [names[k]];
      KeepMembers(names[..k], others);
    }
  }

  lemma {:induction false} DropMembers(names: seq<Name>, others: seq<Name>)
    ensures forall n :: n in Drop(names, others) <==> n in names && n !in others
    ensures NoRepeats(names) ==> NoRepeats(Drop(names, others))
  {
    if names != [] {
      var k := |names| - 1;
      assert names == names[..k] + [names[k]];
      DropMembers(names[..k], others);
    }
  }

  /** `Map.delete` on the keys. */
  function Without(keys: seq<Name>, name: Name): seq<Name> {
    Drop(keys, [name])
  }

  // ----- `applySessionsSync`

  datatype Sync = Sync(added: seq<Name>, removed: seq<Name>, sessions: seq<Name>)

  function SyncOf(current: seq<Name>, incoming: seq<Name>): Sync {
    Sync(Drop(Distinct(incoming), current), Drop(Distinct(current), incoming), Distinct(incoming))
  }

  /** The loop `for s of names, if !others.has(s), push s`. */
  method Difference(names: seq<Name>, others: seq<Name>) returns (r: seq<Name>)
    ensures r == Drop(names, others)
  {
    r := [];
    var i := 0;
    while i < |names|
      invariant 0 <= i <= |names|
      invariant r == Drop(names[..i], others)
    {
      assert names[..i + 1][..i] == names[..i];
      if names[i] !in others {
        r := r + [names[i]];
      }
      i := i + 1;
    }
    assert names[..i] == names;
  }

  lemma {:induction false} DropOnlyLooksAtMembers(names: seq<Name>, a: seq<Name>, b: seq<Name>)
    requires forall n :: n in a <==> n in b
    ensures Drop(names, a) == Drop(names, b)
  {
    if names != [] {
      DropOnlyLooksAtMembers(names[..|names| - 1], a, b);
    }
  }

  method ApplySessionsSync(current: seq<Name>, incoming: seq<Name>) returns (r: Sync)
    ensures r == SyncOf(current, incoming)
  {
    var curr, next := Distinct(current), Distinct(incoming);
    var added := Difference(next, curr);
    var removed := Difference(curr, next);
    DropOnlyLooksAtMembers(next, curr, current);
    DropOnlyLooksAtMembers(curr, next, incoming);
    return Sync(added, removed, next);
  }

  /** What the three lists hold: what is new, what is gone, and what was received, each name once. */
  lemma SyncParts(current: seq<Name>, incoming: seq<Name>)
    ensures var s := SyncOf(current, incoming);
      && (forall n :: n in s.added <==> n in incoming && n !in current)
      && (forall n :: n in s.removed <==> n in current && n !in incoming)
      && (forall n :: n in s.sessions <==> n in incoming)
      && NoRepeats(s.added) && NoRepeats(s.removed) && NoRepeats(s.sessions)
  {
    DropMembers(Distinct(incoming), current);
    DropMembers(Distinct(current), incoming);
  }

  // ----- the table as a value

  datatype Tabs = Tabs(keys: seq<Name>, active: Option<Name>)

  predicate TabsOk(t: Tabs) {
    && NoRepeats(t.keys) && [] !in t.keys
    && (t.active.None? <==> t.keys == [])
    && (t.active.Some? ==> t.active.value in t.keys)
  }

  function Adding(t: Tabs, name: Name): Tabs {
    if name == [] || name in t.keys then t
    else Tabs(t.keys + [name], if t.active.None? then Some(name) else t.active)
  }

  function Activating(t: Tabs, name: Name): Tabs {
    if name in t.keys then t.(active := Some(name)) else t
  }

  function Closing(t: Tabs, name: Name): Tabs {
    if name !in t.keys then t
    else
      var keys := Without(t.keys, name);
      Tabs(keys, if t.active != Some(name) then t.active else if keys == [] then None else Some(keys[0]))
  }

  function ClosingAll(t: Tabs, names: seq<Name>): Tabs {
    if names == [] then t else Closing(ClosingAll(t, names[..|names| - 1]), names[|names| - 1])
  }

  function AddingAll(t: Tabs, names: seq<Name>): Tabs {
    if names == [] then t else Adding(AddingAll(t, names[..|names| - 1]), names[|names| - 1])
  }

  /** What a `sessions_sync` message makes of the table: first the closings, then the additions. The
      fallback that the handler has for a vanished active session never applies. */
  function Synced(t: Tabs, incoming: seq<Name>): Tabs {
    var sync := SyncOf(t.keys, incoming);
    AddingAll(ClosingAll(t, sync.removed), sync.added)
  }

  /** A new tab comes last, and is active if it is the only one. */
  lemma AddingPutsLast(t: Tabs, name: Name)
    requires TabsOk(t) && name != [] && name !in t.keys
    ensures var u := Adding(t, name);
      |u.keys| == |t.keys| + 1 && u.keys[..|t.keys|] == t.keys && u.keys[|t.keys|] == name
      && u.active == if t.keys == [] then Some(name) else t.active
  {
  }

  /** A closed tab is gone; if it was active, the first of those left takes its place, and otherwise the
      active one stays. */
  lemma ClosingActivatesFirst(t: Tabs, name: Name)
    requires TabsOk(t) && name in t.keys
    ensures var u := Closing(t, name);
      && (forall n :: n in u.keys <==> n in t.keys && n != name)
      && u.active == (if t.active != Some(name) then t.active
                      else if |t.keys| == 1 then None
                      else Some(if t.keys[0] == name then t.keys[1] else t.keys[0]))
  {
    DropMembers(t.keys, [name]);
    var keys := Without(t.keys, name);
    if |t.keys| == 1 {
      EmptyOrMember(keys);
    } else {
      var k := if t.keys[0] == name then 1 else 0;
      FirstOfDrop(t.keys, name, k);
    }
  }

  lemma {:induction false} FirstOfDrop(names: seq<Name>, name: Name, k: nat)
    requires k < |names| && names[k] != name && forall i :: 0 <= i < k ==> names[i] == name
    ensures Drop(names, [name]) != [] && Drop(names, [name])[0] == names[k]
  {
    var n := |names| - 1;
    if k < n {
      FirstOfDrop(names[..n], name, k);
    } else {
      assert Drop(names[..n], [name]) == [] by {
        DropMembers(names[..n], [name]);
        EmptyOrMember(Drop(names[..n], [name]));
      }
    }
  }

  /** Only a known tab can become active, and nothing else changes. */
  lemma ActivatingKnown(t: Tabs, name: Name)
    ensures Activating(t, name).keys == t.keys
    ensures Activating(t, name).active == if name in t.keys then Some(name) else t.active
  {
  }

  // ----- what a sync leaves

  lemma {:induction false} DropAppend(a: seq<Name>, b: seq<Name>, others: seq<Name>)
    ensures Drop(a + b, others) == Drop(a, others) + Drop(b, others)
  {
    if b == [] {
      assert a + b == a;
    } else {
      var k := |b| - 1;
      assert (a + b)[..|a + b| - 1] == a + b[..k];
      DropAppend(a, b[..k], others);
    }
  }

  lemma {:induction false} DropTwice(names: seq<Name>, first: seq<Name>, then': seq<Name>)
    ensures Drop(Drop(names, first), then') == Drop(names, first + then')
  {
    if names != [] {
      var k := |names| - 1;
      DropTwice(names[..k], first, then');
      DropAppend(Drop(names[..k], first), if names[k] in first then [] else [names[k]], then');
    }
  }

  lemma {:induction false} DropIsKeep(names: seq<Name>, gone: seq<Name>, stay: seq<Name>)
    requires forall n :: n in names ==> (n in gone <==> n !in stay)
    ensures Drop(names, gone) == Keep(names, stay)
  {
    if names != [] {
      DropIsKeep(names[..|names| - 1], gone, stay);
    }
  }

  lemma {:induction false} DistinctOfDistinct(names: seq<Name>)
    requires NoRepeats(names)
    ensures Distinct(names) == names
  {
    if names != [] {
      var k := |names| - 1;
      DistinctOfDistinct(names[..k]);
      assert names == names[..k] + [names[k]];
    }
  }

  lemma ClosingKeys(t: Tabs, name: Name)
    requires TabsOk(t)
    ensures TabsOk(Closing(t, name)) && Closing(t, name).keys == Drop(t.keys, [name])
    ensures t.active.Some? && t.active.value != name ==> Closing(t, name).active == t.active
  {
    if name !in t.keys {
      DropNothing(t.keys, [name]);
    } else {
      DropMembers(t.keys, [name]);
      if t.active != Some(name) {
        assert t.active.value in Without(t.keys, name);
      }
    }
  }

  lemma {:induction false} ClosingAllKeys(t: Tabs, names: seq<Name>)
    requires TabsOk(t)
    ensures TabsOk(ClosingAll(t, names)) && ClosingAll(t, names).keys == Drop(t.keys, names)
    ensures t.active.Some? && t.active.value !in names ==> ClosingAll(t, names).active == t.active
  {
    if names == [] {
      DropNothing(t.keys, []);
    } else {
      var k := |names| - 1;
      assert names == names[..k] + [names[k]];
      ClosingAllKeys(t, names[..k]);
      ClosingKeys(ClosingAll(t, names[..k]), names[k]);
      DropTwice(t.keys, names[..k], [names[k]]);
    }
  }

  lemma {:induction false} DropNothing(names: seq<Name>, others: seq<Name>)
    requires forall k :: 0 <= k < |names| ==> names[k] !in others
    ensures Drop(names, others) == names
  {
    if names != [] {
      var k := |names| - 1;
      var front := names[..k];
      DropNothing(front, others);
      assert Drop(names, others) == Drop(front, others) + [names[k]];
      assert names == front + [names[k]];
    }
  }

  /** The name as a list, unless it is empty. */
  function Named(name: Name): seq<Name> {
    if name == [] then [] else [name]
  }

  lemma AddingKeys(t: Tabs, name: Name)
    requires TabsOk(t) && name !in t.keys
    ensures TabsOk(Adding(t, name)) && Adding(t, name).keys == t.keys + Named(name)
    ensures t.active.Some? ==> Adding(t, name).active == t.active
  {
  }

  lemma {:induction false} AddingAllKeys(t: Tabs, names: seq<Name>)
    requires TabsOk(t) && NoRepeats(names) && forall n :: n in names ==> n !in t.keys
    ensures TabsOk(AddingAll(t, names)) && AddingAll(t, names).keys == t.keys + Drop(names, [[]])
    ensures t.active.Some? ==> AddingAll(t, names).active == t.active
  {
    if names == [] {
      assert t.keys + [] == t.keys;
    } else {
      var k := |names| - 1;
      var front, name := names[..k], names[k];
      AddingAllKeys(t, front);
      var u := AddingAll(t, front);
      DropMembers(front, [[]]);
      assert name in names && name !in front && name !in u.keys;
      AddingKeys(u, name);
      assert Drop(names, [[]]) == Drop(front, [[]]) + Named(name);
      Reassociate(t.keys, Drop(front, [[]]), Named(name));
    }
  }

  lemma Reassociate(a: seq<Name>, b: seq<Name>, c: seq<Name>)
    ensures a + (b + c) == (a + b) + c
  {
  }

  /** A sync keeps the surviving keys in their old order and appends the new non-empty names in order of
      first occurrence; a surviving active session stays active. */
  lemma {:induction false} SyncLeaves(t: Tabs, incoming: seq<Name>)
    requires TabsOk(t)
    ensures TabsOk(Synced(t, incoming))
    ensures Synced(t, incoming).keys == Keep(t.keys, incoming) + Drop(Drop(Distinct(incoming), t.keys), [[]])
    ensures t.active.Some? && t.active.value in incoming ==> Synced(t, incoming).active == t.active
  {
    var sync := SyncOf(t.keys, incoming);
    DistinctOfDistinct(t.keys);
    DropMembers(t.keys, incoming);
    ClosingAllKeys(t, sync.removed);
    DropIsKeep(t.keys, sync.removed, incoming);
    KeepMembers(t.keys, incoming);
    DropMembers(Distinct(incoming), t.keys);
    AddingAllKeys(ClosingAll(t, sync.removed), sync.added);
  }

  /** The closings of a sync spare the tabs that it names. */
  lemma SurvivorsStay(t: Tabs, incoming: seq<Name>)
    requires TabsOk(t)
    ensures forall n :: n in t.keys && n in incoming ==> n in ClosingAll(t, SyncOf(t.keys, incoming).removed).keys
  {
    var removed := SyncOf(t.keys, incoming).removed;
    ClosingAllKeys(t, removed);
    DropMembers(Distinct(t.keys), incoming);
    DropMembers(t.keys, removed);
  }

  lemma EmptyOrMember(names: seq<Name>)
    ensures names == [] || exists n :: n in names
  {
    if names != [] {
      assert names[0] in names;
    }
  }

  lemma EverySyncedNameHasATab(t: Tabs, incoming: seq<Name>)
    requires TabsOk(t)
    ensures forall n :: n in Synced(t, incoming).keys <==> n in incoming && n != []
  {
    SyncLeaves(t, incoming);
    KeepMembers(t.keys, incoming);
    DropMembers(Distinct(incoming), t.keys);
    DropMembers(Drop(Distinct(incoming), t.keys), [[]]);
  }

  /** The same list again changes nothing. */
  lemma {:induction false} SyncIsIdempotent(t: Tabs, incoming: seq<Name>)
    requires TabsOk(t)
    ensures Synced(Synced(t, incoming), incoming) == Synced(t, incoming)
  {
    var u := Synced(t, incoming);
    SyncLeaves(t, incoming);
    EverySyncedNameHasATab(t, incoming);
    SyncAgain(u, incoming);
  }

  lemma NothingNew(keys: seq<Name>, incoming: seq<Name>)
    requires forall n :: n in incoming && n != [] ==> n in keys
    ensures Drop(Drop(Distinct(incoming), keys), [[]]) == []
  {
    DropMembers(Distinct(incoming), keys);
    var news := Drop(Distinct(incoming), keys);
    DropMembers(news, [[]]);
    EmptyOrMember(Drop(news, [[]]));
  }

  lemma SyncAgain(u: Tabs, incoming: seq<Name>)
    requires TabsOk(u)
    requires forall n :: n in u.keys <==> n in incoming && n != []
    ensures Synced(u, incoming) == u
  {
    SyncLeaves(u, incoming);
    KeepAll(u.keys, incoming);
    NothingNew(u.keys, incoming);
    assert u.keys + [] == u.keys;
  }

  lemma {:induction false} KeepAll(names: seq<Name>, others: seq<Name>)
    requires forall k :: 0 <= k < |names| ==> names[k] in others
    ensures Keep(names, others) == names
  {
    if names != [] {
      var k := |names| - 1;
      var front := names[..k];
      KeepAll(front, others);
      assert Keep(names, others) == Keep(front, others) + [names[k]];
      assert names == front + [names[k]];
    }
  }

  // ----- every state of the table

  datatype Change = Add(name: Name) | Activate(name: Name) | Close(name: Name) | Receive(incoming: seq<Name>)

  function Changed(t: Tabs, c: Change): Tabs {
    match c
    case Add(name) => Adding(t, name)
    case Activate(name) => Activating(t, name)
    case Close(name) => Closing(t, name)
    case Receive(incoming) => Synced(t, incoming)
  }

  function AfterChanges(changes: seq<Change>): Tabs {
    if changes == [] then Tabs([], None)
    else Changed(AfterChanges(changes[..|changes| - 1]), changes[|changes| - 1])
  }

  /** In every reachable state the tabs have distinct non-empty names, and the active session is one of
      them, or null exactly when there are none. */
  lemma {:induction false} ReachableTabsOk(changes: seq<Change>)
    ensures TabsOk(AfterChanges(changes))
  {
    if changes != [] {
      var t, c := AfterChanges(changes[..|changes| - 1]), changes[|changes| - 1];
      ReachableTabsOk(changes[..|changes| - 1]);
      match c
      case Close(name) => ClosingKeys(t, name);
      case Receive(incoming) => SyncLeaves(t, incoming);
      case _ =>
    }
  }
}
