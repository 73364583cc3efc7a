/**
 * What a device declares about itself, its lifecycle states, and the leases it is granted.
 * Node IDs are compared and ordered only, so they are numbered in their own order.
 */
module Capability {
  import opened Base

  type NodeID = nat

  datatype Connectivity = CoreDesktop | ElasticMobile | OpportunisticMobile

  datatype BackgroundLink = DesktopUnrestricted | AndroidForegroundService | IosSuspended

  datatype Thermal = Nominal | Fair | Serious | Critical

  datatype Power = Power(isWallPowered: bool, battery: Option<real>, thermal: Thermal) {
    predicate IsUnderDuress() {
      || thermal == Serious || thermal == Critical
      || (!isWallPowered && battery.Some? && battery.value < 0.2)
    }
  }

  datatype Trust = Untrusted | SemiTrustedEdge | TrustedCore {
    function Level(): nat {
      match this
      case Untrusted => 0
      case SemiTrustedEdge => 1
      case TrustedCore => 2
    }
  }

  datatype Profile = Profile(
    nodeID: NodeID, connectivity: Connectivity, backgroundLink: BackgroundLink,
    usableBytes: int, power: Power, trust: Trust, declaresRequired: bool)
  {
    // The longest lease the node's operating system can honour, in seconds.
    function MaxLease(): real {
      match backgroundLink
      case DesktopUnrestricted => 300.0
      case AndroidForegroundService => 120.0
      case IosSuspended => 30.0
    }
  }

  datatype Stage = Prefill | DecodeAuthoritative | DecodeSpeculative | KvStore | EdgeOffload

  const AllStages: set<Stage> := {Prefill, DecodeAuthoritative, DecodeSpeculative, KvStore, EdgeOffload}
  const OptionalStages: set<Stage> := {DecodeSpeculative, EdgeOffload}

  datatype NodeState = ActiveCore | ActiveElastic | Opportunistic | Draining | Suspended {
    predicate CanHostRequired() { this == ActiveCore || this == ActiveElastic }

    predicate Plans() { this != Draining && this != Suspended }
  }

  datatype NodeEvent =
    | JoinedAsCore | JoinedAsElastic | JoinedAsOpportunistic
    | EnteredBackground | ReturnedToForeground
    | DrainRequested | DrainCompleted
    | LeaseExpired | HeartbeatLost
    | PowerDuress

  // The next state, or None where the event means nothing in that state.
  function NextState(state: NodeState, event: NodeEvent): Option<NodeState> {
    match (state, event)
    case (Suspended, JoinedAsCore) => Some(ActiveCore)
    case (Suspended, JoinedAsElastic) => Some(ActiveElastic)
    case (Suspended, JoinedAsOpportunistic) => Some(Opportunistic)
    case (Suspended, ReturnedToForeground) => Some(Opportunistic)
    case (ActiveCore, EnteredBackground) => Some(Draining)
    case (ActiveElastic, EnteredBackground) => Some(Draining)
    case (Opportunistic, EnteredBackground) => Some(Draining)
    case (ActiveCore, DrainRequested) => Some(Draining)
    case (ActiveElastic, DrainRequested) => Some(Draining)
    case (Opportunistic, DrainRequested) => Some(Draining)
    case (ActiveElastic, PowerDuress) => Some(Opportunistic)
    case (ActiveCore, PowerDuress) => Some(Draining)
    case (Opportunistic, PowerDuress) => Some(Draining)
    case (Draining, DrainCompleted) => Some(Suspended)
    case (Draining, LeaseExpired) => Some(Suspended)
    case (Draining, HeartbeatLost) => Some(Suspended)
    case (ActiveCore, LeaseExpired) => Some(Suspended)
    case (ActiveElastic, LeaseExpired) => Some(Suspended)
    case (Opportunistic, LeaseExpired) => Some(Suspended)
    case (ActiveCore, HeartbeatLost) => Some(Suspended)
    case (ActiveElastic, HeartbeatLost) => Some(Suspended)
    case (Opportunistic, HeartbeatLost) => Some(Suspended)
    case _ => None
  }

  // The state after an event; an event without meaning leaves the state alone.
  function Moved(state: NodeState, event: NodeEvent): NodeState {
    var next := NextState(state, event);
    if next.Some? then next.value else state
  }

  function InitialState(p: Profile): NodeState {
    if !p.declaresRequired then Opportunistic
    else match p.connectivity
         case CoreDesktop => ActiveCore
         case ElasticMobile => ActiveElastic
         case OpportunisticMobile => Opportunistic
  }

  datatype Lease = Lease(nodeID: NodeID, epoch: nat, issuedAt: real, expiresAt: real, stages: set<Stage>) {
    predicate IsValid(now: real) { now < expiresAt }

    function Remaining(now: real): real { if expiresAt - now > 0.0 then expiresAt - now else 0.0 }

    predicate CanHost(stage: Stage, estimate: real, now: real) {
      IsValid(now) && stage in stages && estimate < Remaining(now)
    }
  }

  /** A member offered to the planner. */
  datatype PlannedMember = PlannedMember(profile: Profile, state: NodeState, lease: Option<Lease>)

  // ----- node IDs in order -----

  ghost predicate Ascending(s: seq<NodeID>) {
    forall i, j :: 0 <= i < j < |s| ==> s[i] < s[j]
  }

  lemma Least(s: set<NodeID>) returns (x: NodeID)
    requires s != {}
    ensures x in s && forall y :: y in s ==> x <= y
  {
    var first :| first in s;
    var rest := s - {first};
    x := first;
    if rest != {} {
      var y := Least(rest);
      x := if first < y then first else y;
    }
    forall y | y in s
      ensures x <= y
    {
      assert y == first || y in rest;
    }
  }

  lemma LeastExists(s: set<NodeID>)
    requires s != {}
    ensures exists x :: x in s && forall y :: y in s ==> x <= y
  {
    var x := Least(s);
  }

  function Min(s: set<NodeID>): (x: NodeID)
    requires s != {}
    ensures x in s && forall y :: y in s ==> x <= y
  {
    LeastExists(s);
    var x :| x in s && forall y :: y in s ==> x <= y;
    x
  }

  function Sorted(s: set<NodeID>): (r: seq<NodeID>)
    ensures Ascending(r)
    ensures forall x :: x in r <==> x in s
  {
    if s == {} then []
    else
      var x := Min(s);
      [x] + Sorted(s - {x})
  }
}
