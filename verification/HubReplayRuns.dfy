/** The hub object follows every interleaved run of the state machine. */
module HubReplayRuns {
  import opened Registry
  import opened HubObjects
  import opened HubReplay
  import HubSteps
  import HubHistory

  lemma {:induction false} RunsNameClients(states: seq<HubSteps.HubState>, acts: seq<HubSteps.Action>, k: nat)
    requires HubSteps.IsRun(states, acts) && k < |states|
    ensures NamesClients(states[k].ops)
  {
    if k > 0 {
      var s, act := states[k - 1], acts[k - 1];
      RunsNameClients(states, acts, k - 1);
      HubSteps.InvHolds(states, acts, k - 1);
      assert HubSteps.StepsAt(states, acts, k - 1);
      if act.Turn? && act.i < |s.handlers| {
        assert HubSteps.IdOk(s, act.i);
        HubSteps.TurnFits(s.handlers[act.i], s.agents, s.lastId + 1, act.input);
      }
    }
  }

  /** The object follows every interleaved run: the critical sections that a run has recorded, performed
      on a new hub object, leave it with the registry of that run. */
  method ReplayRun(ghost states: seq<HubSteps.HubState>, ghost acts: seq<HubSteps.Action>, ghost k: nat, ops: seq<Op>)
    returns (hub: Hub)
    requires HubSteps.IsRun(states, acts) && k < |states| && ops == states[k].ops
    ensures fresh(hub) && hub.Valid() && hub.View() == states[k].agents
  {
    RunsNameClients(states, acts, k);
    OpsOfSections(ops);
    hub := Replay(Sections(ops));
    HubHistory.RegistryFollowsOps(states, acts, k);
  }
}
