/** The output path from the terminal on the agent's machine to the terminal in the browser: forwarders of
    the agent, relay of the hub, and the page that shows each frame in its tab (internal/agent/agent.go,
    internal/hub/hub.go, web/app.js:382-396). */
module BrowserOutput {
  import opened MuxFrame
  import opened FanOut
  import opened AgentStreams
  import TabPage

  /** Each label's part of the values, as far as they go, is what this sequence starts with. */
  lemma {:induction false} PartOfPrefix(labels: seq<nat>, values: seq<Bytes>, n: nat, k: nat)
    requires |labels| == |values| && n <= |values|
    ensures Part(labels[..n], values[..n], k) <= Part(labels, values, k)
    decreases |values|
  {
    if n == |values| {
      assert labels[..n] == labels && values[..n] == values;
    } else {
      var m := |values| - 1;
      PartOfPrefix(labels[..m], values[..m], n, k);
      assert labels[..m][..n] == labels[..n] && values[..m][..n] == values[..n];
    }
  }

  lemma {:induction false} PayloadsOfPrefixOf(id: Bytes, stream: seq<Bytes>, n: nat)
    requires n <= |stream|
    ensures PayloadsOf(id, stream[..n]) <= PayloadsOf(id, stream)
    decreases |stream|
  {
    if n == |stream| {
      assert stream[..n] == stream;
    } else {
      PayloadsOfPrefixOf(id, stream[..|stream| - 1], n);
      assert stream[..|stream| - 1][..n] == stream[..n];
    }
  }

  /** Chunk by chunk, the values came from these handles of session id, and those of each handle are an
      in-order, unaltered prefix of what its terminal put out. */
  ghost predicate IsMerge(s: State, id: Bytes, senders: seq<nat>, values: seq<Bytes>) {
    && |senders| == |values| && |s.forwarders| == |s.table.handles|
    && (forall i :: 0 <= i < |senders| ==> senders[i] < |s.table.handles| && s.table.handles[senders[i]].id == id)
    && forall k :: 0 <= k < |s.table.handles| && s.table.handles[k].id == id ==>
         Part(senders, values, k) <= s.forwarders[k].produced
  }

  lemma PrefixOfMerge(s: State, id: Bytes, senders: seq<nat>, values: seq<Bytes>, n: nat)
    requires IsMerge(s, id, senders, values) && n <= |values|
    ensures IsMerge(s, id, senders[..n], values[..n])
  {
    forall k | 0 <= k < |s.table.handles| && s.table.handles[k].id == id
      ensures Part(senders[..n], values[..n], k) <= s.forwarders[k].produced
    {
      PartOfPrefix(senders, values, n, k);
    }
  }

  lemma StreamIsMerge(events: seq<Event>, stream: seq<Bytes>, id: Bytes) returns (senders: seq<nat>)
    requires id != [] && stream <= Received(2, [], Frames(After(events).wire))
    ensures IsMerge(After(events), id, senders, PayloadsOf(id, stream))
  {
    var whole := Received(2, [], Frames(After(events).wire));
    var all := SessionOutputEndToEnd(events, id);
    assert IsMerge(After(events), id, all, PayloadsOf(id, whole));
    PayloadsOfPrefixOf(id, whole, |stream|);
    assert stream == whole[..|stream|];
    var n := |PayloadsOf(id, stream)|;
    assert PayloadsOf(id, stream) == PayloadsOf(id, whole)[..n];
    PrefixOfMerge(After(events), id, all, PayloadsOf(id, whole), n);
    senders := all[..n];
  }

  /** Output end to end: when messages of a client registered throughout have reached its page, each tab
      whose terminal was empty shows an order-preserving merge of one in-order, unaltered prefix of the
      output of each attach of its session, and nothing of any other session. */
  method ShowOutput(page: TabPage.Page, ghost events: seq<Event>, stream: seq<Bytes>)
    requires page.Valid() && page.multiplex
    requires stream <= Received(2, [], Frames(After(events).wire))
    modifies page`screens
    ensures page.Valid()
    ensures forall tab :: tab in page.terminals && old(page.Screen(tab)) == [] ==>
      exists senders :: IsMerge(After(events), tab, senders, page.Screen(tab))
  {
    ghost var before := page.screens;
    page.OnBinaries(stream);
    forall tab | tab in page.terminals && TabPage.ScreenIn(before, tab) == []
      ensures exists senders :: IsMerge(After(events), tab, senders, page.Screen(tab))
    {
      var senders := StreamIsMerge(events, stream, tab);
      TabPage.TabsShowTheirOwn(page.terminals, before, stream, tab);
      assert [] + PayloadsOf(tab, stream) == PayloadsOf(tab, stream);
      assert IsMerge(After(events), tab, senders, page.Screen(tab));
    }
  }
}
