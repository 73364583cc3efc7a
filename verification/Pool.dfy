/**
 * The four-platform pool: one seat a platform over the membership service, and the plan that
 * pools all four seats' memory. Messages mirrored onto a transport are not part of this model.
 */
module Pool {
  import opened Base
  import opened Capability
  import opened Sorting
  import opened Membership
  import Placement

  datatype Platform = Android | Ios | Macos | Windows {
    // Platforms sort by name.
    function Place(): nat {
      match this
      case Android => 0
      case Ios => 1
      case Macos => 2
      case Windows => 3
    }
  }

  const AllRequired: set<Platform> := {Android, Ios, Macos, Windows}

  predicate ByName(a: Platform, b: Platform) {
    a.Place() <= b.Place()
  }

  lemma ByNameIsOrder()
    ensures Total(ByName) && Transitive(ByName)
  {
  }

  datatype PoolEvent =
    | PeerConnected(platform: Platform, id: NodeID)
    | PeerAlreadyPresent(platform: Platform, id: NodeID)
    | PeerDraining(platform: Platform, id: NodeID)
    | PeerEvicted(platform: Platform, id: NodeID, reason: Reason)
    | AllConnected(platforms: set<Platform>)
    | NewEpoch(epoch: nat, members: seq<NodeID>)
    | EpochDeferred(remaining: real)

  datatype PoolPlan = PoolPlan(platforms: seq<Platform>, plan: Placement.ShardPlan, totalUsable: int)

  datatype Seats = Seats(platformOf: map<NodeID, Platform>, nodeOf: map<Platform, NodeID>)

  datatype PoolState = PoolState(members: Members, seats: Seats)

  datatype PoolEffect = PoolEffect(after: PoolState, events: seq<PoolEvent>)

  predicate HasAll(seats: Seats) {
    AllRequired <= seats.nodeOf.Keys
  }

  // The node a connection pushes out of its seat, if any.
  function Replaced(seats: Seats, platform: Platform, id: NodeID): Option<NodeID> {
    if platform in seats.nodeOf && seats.nodeOf[platform] != id then Some(seats.nodeOf[platform]) else None
  }

  function Seated(seats: Seats, platform: Platform, id: NodeID): Seats {
    if platform in seats.nodeOf && seats.nodeOf[platform] == id then seats
    else
      var gone := Replaced(seats, platform, id);
      var others := if gone.Some? then seats.platformOf - {gone.value} else seats.platformOf;
      Seats(others[id := platform], seats.nodeOf[platform := id])
  }

  function Admitted(cfg: Config, s: PoolState, platform: Platform, p: Profile, now: real): Members {
    var gone := Replaced(s.seats, platform, p.nodeID);
    var left := if gone.Some? then AnnouncedDrain(s.members, gone.value, now).after else s.members;
    Appeared(cfg, left, p, now).after
  }

  function Connected(cfg: Config, s: PoolState, platform: Platform, p: Profile, now: real): PoolEffect {
    var seats := Seated(s.seats, platform, p.nodeID);
    var first := if seats == s.seats && platform in s.seats.nodeOf && s.seats.nodeOf[platform] == p.nodeID
                 then PeerAlreadyPresent(platform, p.nodeID) else PeerConnected(platform, p.nodeID);
    PoolEffect(PoolState(Admitted(cfg, s, platform, p, now), seats),
               [first] + if HasAll(seats) then [AllConnected(seats.nodeOf.Keys)] else [])
  }

  function DrainAnnounced(s: PoolState, id: NodeID, now: real): PoolEffect {
    var e := AnnouncedDrain(s.members, id, now);
    PoolEffect(s.(members := e.after),
               if e.events != [] && id in s.seats.platformOf then [PeerDraining(s.seats.platformOf[id], id)] else [])
  }

  // What one membership event does to the seats, and what the pool reports of it.
  function Vacated(seats: Seats, e: Event): Seats {
    match e
    case Evicted(id, _) =>
      if id in seats.platformOf then
        var platform := seats.platformOf[id];
        var mine := platform in seats.nodeOf && seats.nodeOf[platform] == id;
        Seats(seats.platformOf - {id}, if mine then seats.nodeOf - {platform} else seats.nodeOf)
      else seats
    case _ => seats
  }

  function Reported(seats: Seats, e: Event): seq<PoolEvent> {
    match e
    case Evicted(id, why) => if id in seats.platformOf then [PeerEvicted(seats.platformOf[id], id, why)] else []
    case EpochChanged(epoch, members) => [NewEpoch(epoch, members)]
    case Deferred(remaining) => [EpochDeferred(remaining)]
    case _ => []
  }

  function VacatedAll(seats: Seats, events: seq<Event>): Seats {
    if events == [] then seats
    else Vacated(VacatedAll(seats, events[..|events| - 1]), events[|events| - 1])
  }

  function ReportedAll(seats: Seats, events: seq<Event>): seq<PoolEvent> {
    if events == [] then []
    else
      var before := events[..|events| - 1];
      ReportedAll(seats, before) + Reported(VacatedAll(seats, before), events[|events| - 1])
  }

  function PoolTicked(cfg: Config, s: PoolState, now: real): PoolEffect {
    var e := Ticked(cfg, s.members, now);
    PoolEffect(PoolState(e.after, VacatedAll(s.seats, e.events)), ReportedAll(s.seats, e.events))
  }

  function PlanningMembers(s: Members): seq<PlannedMember> {
    var ids := Sorted(Planning(s.storage));
    seq(|ids|, i requires 0 <= i < |ids| =>
      assert ids[i] in ids;
      PlannedMember(s.storage[ids[i]].profile, s.storage[ids[i]].state, s.storage[ids[i]].lease))
  }

  predicate HasDeferral(events: seq<PoolEvent>) {
    exists k :: 0 <= k < |events| && events[k].EpochDeferred?
  }

  function AssignedNodes(plan: Placement.ShardPlan): set<NodeID> {
    set k | 0 <= k < |plan.assignments| :: plan.assignments[k].nodeID
  }

  // Members that received a shard.
  function AssignedMembers(members: seq<PlannedMember>, nodes: set<NodeID>): seq<PlannedMember> {
    if members == [] then []
    else
      var last := members[|members| - 1];
      AssignedMembers(members[..|members| - 1], nodes) + if last.profile.nodeID in nodes then [last] else []
  }

  function PlatformsOf(members: seq<PlannedMember>, seats: Seats): seq<Platform> {
    if members == [] then []
    else
      var id := members[|members| - 1].profile.nodeID;
      PlatformsOf(members[..|members| - 1], seats) + if id in seats.platformOf then [seats.platformOf[id]] else []
  }

  function SortedPlatformsOf(members: seq<PlannedMember>, seats: Seats): seq<Platform> {
    ByNameIsOrder();
    Sort(ByName, PlatformsOf(members, seats))
  }

  function UsableSum(members: seq<PlannedMember>): int {
    if members == [] then 0
    else UsableSum(members[..|members| - 1]) + members[|members| - 1].profile.usableBytes
  }

  function AsPlatforms(s: seq<Platform>): set<Platform> {
    set p | p in s
  }

  // Planning from the members a tick has left: nothing when a platform's seat holds no shard.
  function PlanFrom(policy: Placement.Policy, s: PoolState, model: Placement.ModelSpec, estimate: real, now: real)
    : Result<Option<PoolPlan>, Placement.Error>
  {
    var members := PlanningMembers(s.members);
    if members == [] then Ok(None)
    else
      var plan := Placement.PlanOf(policy, model, members, s.members.epoch, now, estimate);
      if plan.Err? then Err(plan.error)
      else
        var chosen := AssignedMembers(members, AssignedNodes(plan.value));
        var platforms := SortedPlatformsOf(chosen, s.seats);
        if AsPlatforms(platforms) != AllRequired then Ok(None)
        else Ok(Some(PoolPlan(platforms, plan.value, UsableSum(chosen))))
  }

  function PlanRAM(
    cfg: Config, policy: Placement.Policy, s: PoolState, model: Placement.ModelSpec, estimate: real, now: real)
    : (PoolState, Result<Option<PoolPlan>, Placement.Error>)
  {
    if !HasAll(s.seats) then (s, Ok(None))
    else
      var e := PoolTicked(cfg, s, now);
      if HasDeferral(e.events) || !HasAll(e.after.seats) then (e.after, Ok(None))
      else (e.after, PlanFrom(policy, e.after, model, estimate, now))
  }

  class CrossPlatformPool {
    const membership: MembershipService
    const policy: Placement.Policy
    var platformByNode: map<NodeID, Platform>
    var nodeByPlatform: map<Platform, NodeID>

    ghost function View(): PoolState
      reads this, membership
    {
      PoolState(membership.View(), Seats(platformByNode, nodeByPlatform))
    }

    constructor (config: Config, policy: Placement.Policy, epoch: nat, now: real)
      ensures View() == PoolState(Fresh(epoch, now), Seats(map[], map[]))
      ensures membership.config == config && this.policy == policy && fresh(membership)
    {
      membership := new MembershipService(config, epoch, now);
      this.policy := policy;
      platformByNode, nodeByPlatform := map[], map[];
    }

    method Connect(platform: Platform, p: Profile, now: real) returns (events: seq<PoolEvent>)
      modifies this, membership
      ensures PoolEffect(View(), events) == Connected(membership.config, old(View()), platform, p, now)
    {
      hide Appeared, AnnouncedDrain;
      events := [];
      if platform in nodeByPlatform && nodeByPlatform[platform] != p.nodeID {
        var existing := nodeByPlatform[platform];
        var drained := membership.NodeAnnouncedDrain(existing, now);
        platformByNode := platformByNode - {existing};
      }
      if platform in nodeByPlatform && nodeByPlatform[platform] == p.nodeID {
        var joined := membership.NodeAppeared(p, now);
        events := events + [PeerAlreadyPresent(platform, p.nodeID)];
      } else {
        ghost var before := membership.View();
        var joined := membership.NodeAppeared(p, now);
        platformByNode := platformByNode[p.nodeID := platform];
        nodeByPlatform := nodeByPlatform[platform := p.nodeID];
        AppearedIsKnown(membership.config, before, p, now);
        if p.nodeID in membership.storage {
          events := events + [PeerConnected(platform, p.nodeID)];
        }
      }
      if AllRequired <= nodeByPlatform.Keys {
        events := events + [AllConnected(nodeByPlatform.Keys)];
      }
    }

    method HeartbeatSucceeded(id: NodeID, now: real)
      modifies membership
      ensures View() == old(View()).(members := Succeeded(membership.config, old(View()).members, id, now))
    {
      membership.HeartbeatSucceeded(id, now);
    }

    method HeartbeatFailed(id: NodeID)
      modifies membership
      ensures View() == old(View()).(members := Failed(old(View()).members, id))
    {
      membership.HeartbeatFailed(id);
    }

    method AnnounceDrain(id: NodeID, now: real) returns (events: seq<PoolEvent>)
      modifies membership
      ensures PoolEffect(View(), events) == DrainAnnounced(old(View()), id, now)
    {
      var leaving := membership.NodeAnnouncedDrain(id, now);
      events := [];
      if id in platformByNode && leaving != [] {
        events := [PeerDraining(platformByNode[id], id)];
      }
    }

    method Tick(now: real) returns (events: seq<PoolEvent>)
      modifies this, membership
      ensures PoolEffect(View(), events) == PoolTicked(membership.config, old(View()), now)
    {
      hide Ticked, Vacated, Reported;
      ghost var was := Seats(platformByNode, nodeByPlatform);
      var changes := membership.Tick(now);
      ghost var after := membership.View();
      events := [];
      for i := 0 to |changes|
        invariant membership.View() == after
        invariant Seats(platformByNode, nodeByPlatform) == VacatedAll(was, changes[..i])
        invariant events == ReportedAll(was, changes[..i])
      {
        assert changes[..i + 1][..i] == changes[..i];
        var reported := Mirror(changes[i]);
        events := events + reported;
      }
      assert changes[..|changes|] == changes;
    }

    // One turn of the tick's loop over the membership events.
    method Mirror(e: Event) returns (events: seq<PoolEvent>)
      modifies this
      ensures Seats(platformByNode, nodeByPlatform) == Vacated(old(Seats(platformByNode, nodeByPlatform)), e)
      ensures events == Reported(old(Seats(platformByNode, nodeByPlatform)), e)
    {
      events := [];
      match e
      case Evicted(id, why) =>
        if id in platformByNode {
          var platform := platformByNode[id];
          events := [PeerEvicted(platform, id, why)];
          platformByNode := platformByNode - {id};
          if platform in nodeByPlatform && nodeByPlatform[platform] == id {
            nodeByPlatform := nodeByPlatform - {platform};
          }
        }
      case EpochChanged(epoch, members) => events := [NewEpoch(epoch, members)];
      case Deferred(remaining) => events := [EpochDeferred(remaining)];
      case Joined(_) =>
      case Leaving(_) =>
    }

    method PlanRAMPool(model: Placement.ModelSpec, estimate: real, now: real)
      returns (r: Result<Option<PoolPlan>, Placement.Error>)
      modifies this, membership
      ensures (View(), r) == PlanRAM(membership.config, policy, old(View()), model, estimate, now)
    {
      hide PoolTicked, Placement.PlanOf, PlanningMembers, Sort;
      if !(AllRequired <= nodeByPlatform.Keys) {
        return Ok(None);
      }
      var changes := Tick(now);
      if HasDeferral(changes) {
        return Ok(None);
      }
      if !(AllRequired <= nodeByPlatform.Keys) {
        return Ok(None);
      }
      var members := PlanningMembersNow();
      if members == [] {
        return Ok(None);
      }
      var plan := Placement.Plan(policy, model, members, membership.currentEpoch, now, estimate);
      if plan.Err? {
        return Err(plan.error);
      }
      var chosen := AssignedMembers(members, AssignedNodes(plan.value));
      var platforms := SortedPlatformsOf(chosen, Seats(platformByNode, nodeByPlatform));
      if AsPlatforms(platforms) != AllRequired {
        return Ok(None);
      }
      return Ok(Some(PoolPlan(platforms, plan.value, UsableSum(chosen))));
    }

    method PlanningMembersNow() returns (r: seq<PlannedMember>)
      ensures r == PlanningMembers(View().members)
    {
      return PlanningMembers(Members(membership.storage, membership.currentEpoch, membership.lastEpochChangedAt,
                                     membership.lastEpochMembers));
    }
  }

  lemma AppearedIsKnown(cfg: Config, s: Members, p: Profile, now: real)
    ensures p.nodeID in Appeared(cfg, s, p, now).after.storage
  {
  }
}
