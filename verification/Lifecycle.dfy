/** The ways through a node's life: what each event means in each state, and what no path can do. */
module Lifecycle {
  import opened Base
  import opened Capability

  /**
   * What an event means. It makes a planning node drain, suspends it, or demotes an elastic one
   * under duress; it suspends a draining node; it brings a suspended one in, as what it joins as, or as
   * opportunistic when it merely returns. Nothing else means anything.
   */
  lemma EventsMean(state: NodeState, event: NodeEvent)
    ensures
      NextState(state, event)
      == if state == Suspended then
           if event == JoinedAsCore then Some(ActiveCore)
           else if event == JoinedAsElastic then Some(ActiveElastic)
           else if event in {JoinedAsOpportunistic, ReturnedToForeground} then Some(Opportunistic)
           else None
         else if event in {LeaseExpired, HeartbeatLost} || (state == Draining && event == DrainCompleted)
         then Some(Suspended)
         else if state == Draining then None
         else if event == PowerDuress && state == ActiveElastic then Some(Opportunistic)
         else if event in {EnteredBackground, DrainRequested, PowerDuress} then Some(Draining)
         else None
  {
  }

  // The state after these events, some of which may mean nothing.
  function After(state: NodeState, events: seq<NodeEvent>): NodeState {
    if events == [] then state else Moved(After(state, events[..|events| - 1]), events[|events| - 1])
  }

  // The last of them that meant anything.
  function LastMove(state: NodeState, events: seq<NodeEvent>): Option<NodeEvent> {
    if events == [] then None
    else
      var before, last := events[..|events| - 1], events[|events| - 1];
      if NextState(After(state, before), last).Some? then Some(last) else LastMove(state, before)
  }

  /** There is no way back from draining but through suspension. */
  lemma {:induction false} DrainIsOneWay(events: seq<NodeEvent>)
    requires After(Draining, events).Plans()
    ensures exists k :: 0 <= k < |events| && After(Draining, events[..k]) == Suspended
  {
    var before, last := events[..|events| - 1], events[|events| - 1];
    EventsMean(After(Draining, before), last);
    if After(Draining, before).Plans() {
      DrainIsOneWay(before);
      var k :| 0 <= k < |before| && After(Draining, before[..k]) == Suspended;
      assert events[..k] == before[..k];
    } else {
      assert events[..|before|] == before;
    }
  }

  /**
   * A node may hold a required stage only by joining for it: on any path the last event that meant
   * anything was that join, or none did and it could from the start.
   */
  lemma {:induction false} RequiredNeedsJoin(state: NodeState, events: seq<NodeEvent>)
    requires After(state, events).CanHostRequired()
    ensures
      LastMove(state, events)
      == if After(state, events) == state && LastMove(state, events).None? then None
         else if After(state, events) == ActiveCore then Some(JoinedAsCore)
         else Some(JoinedAsElastic)
  {
    if events != [] {
      var before, last := events[..|events| - 1], events[|events| - 1];
      EventsMean(After(state, before), last);
      hide NextState;
      if NextState(After(state, before), last).None? {
        RequiredNeedsJoin(state, before);
      }
    }
  }
}
