/** What holds in every run of the pool: who sits where, and what a pooled plan is. */
module PoolRuns {
  import opened Base
  import opened Capability
  import opened Sorting
  import opened Membership
  import opened MembershipRuns
  import opened Pool
  import Placement

  datatype PoolOp =
    | Connect(platform: Platform, profile: Profile)
    | Beat(id: NodeID)
    | Miss(id: NodeID)
    | Leave(id: NodeID)
    | Pass
    | Plan(policy: Placement.Policy, model: Placement.ModelSpec, estimate: real)

  datatype PoolCall = PoolCall(op: PoolOp, now: real)

  function DoPool(cfg: Config, s: PoolState, c: PoolCall): PoolState {
    match c.op
    case Connect(platform, p) => Connected(cfg, s, platform, p, c.now).after
    case Beat(id) => s.(members := Succeeded(cfg, s.members, id, c.now))
    case Miss(id) => s.(members := Failed(s.members, id))
    case Leave(id) => DrainAnnounced(s, id, c.now).after
    case Pass => PoolTicked(cfg, s, c.now).after
    case Plan(policy, model, estimate) => PlanRAM(cfg, policy, s, model, estimate, c.now).0
  }

  function ExecPool(cfg: Config, epoch: nat, start: real, calls: seq<PoolCall>): PoolState {
    if calls == [] then PoolState(Fresh(epoch, start), Seats(map[], map[]))
    else DoPool(cfg, ExecPool(cfg, epoch, start, calls[..|calls| - 1]), calls[|calls| - 1])
  }

  // ----- seats -----

  // Every node that has a platform holds that platform's seat, so no two nodes share one.
  ghost predicate SeatsHeld(seats: Seats) {
    forall n :: n in seats.platformOf ==>
      seats.platformOf[n] in seats.nodeOf && seats.nodeOf[seats.platformOf[n]] == n
  }

  // ... and every seat's holder knows it: the two maps are inverse.
  ghost predicate SeatsInverse(seats: Seats) {
    && SeatsHeld(seats)
    && forall p :: p in seats.nodeOf ==>
         seats.nodeOf[p] in seats.platformOf && seats.platformOf[seats.nodeOf[p]] == p
  }

  // Records are kept under their node's ID, and who is seated is known and not suspended.
  ghost predicate SeatedAreAwake(s: PoolState) {
    && (forall id :: id in s.members.storage ==> s.members.storage[id].profile.nodeID == id)
    && (forall id :: id in s.seats.platformOf ==> id in s.members.storage && s.members.storage[id].state != Suspended)
  }

  ghost predicate PlanningSeated(s: PoolState) {
    forall id :: id in s.members.storage && s.members.storage[id].state.Plans() ==> id in s.seats.platformOf
  }

  ghost predicate SeatedAreIn(s: PoolState) {
    SeatedAreAwake(s) && PlanningSeated(s)
  }

  lemma SeatedHolds(seats: Seats, platform: Platform, id: NodeID)
    requires SeatsHeld(seats)
    ensures SeatsHeld(Seated(seats, platform, id))
  {
  }

  /**
   * Connecting keeps the two seat maps inverse exactly when the node does not already hold
   * another platform's seat.
   */
  lemma ConnectKeepsInverseIff(seats: Seats, platform: Platform, id: NodeID)
    requires SeatsInverse(seats)
    ensures SeatsInverse(Seated(seats, platform, id))
            <==> (id in seats.platformOf ==> seats.platformOf[id] == platform)
  {
    var after := Seated(seats, platform, id);
    if id in seats.platformOf && seats.platformOf[id] != platform {
      var old_ := seats.platformOf[id];
      assert old_ in after.nodeOf && after.nodeOf[old_] == id && after.platformOf[id] == platform;
    }
  }

  lemma VacatedHolds(seats: Seats, e: Event)
    requires SeatsHeld(seats)
    ensures SeatsHeld(Vacated(seats, e))
    ensures SeatsInverse(seats) ==> SeatsInverse(Vacated(seats, e))
  {
  }

  predicate Leaves(events: seq<Event>, id: NodeID) {
    exists k :: 0 <= k < |events| && events[k].Evicted? && events[k].id == id
  }

  lemma {:induction false} VacatedAllHolds(seats: Seats, events: seq<Event>, id: NodeID)
    requires SeatsHeld(seats)
    ensures SeatsHeld(VacatedAll(seats, events))
    ensures SeatsInverse(seats) ==> SeatsInverse(VacatedAll(seats, events))
    ensures id in VacatedAll(seats, events).platformOf <==> id in seats.platformOf && !Leaves(events, id)
    ensures id in VacatedAll(seats, events).platformOf ==>
              VacatedAll(seats, events).platformOf[id] == seats.platformOf[id]
  {
    hide SeatsHeld, SeatsInverse;
    if events != [] {
      var before, last := events[..|events| - 1], events[|events| - 1];
      VacatedAllHolds(seats, before, id);
      VacatedHolds(VacatedAll(seats, before), last);
      LeavesSnoc(before, last, id);
      assert events == before + [last];
    }
  }

  lemma LeavesSnoc(before: seq<Event>, last: Event, id: NodeID)
    ensures Leaves(before + [last], id) <==> Leaves(before, id) || (last.Evicted? && last.id == id)
  {
    var events := before + [last];
    if Leaves(before, id) {
      var k :| 0 <= k < |before| && before[k].Evicted? && before[k].id == id;
      assert events[k] == before[k];
    }
    assert events[|before|] == last;
  }

  // Whom a tick evicts is suspended by it, and nobody else changes state.
  lemma TickMoves(cfg: Config, s: Members, now: real, id: NodeID)
    requires id in s.storage
    ensures
      var e := Ticked(cfg, s, now);
      && id in e.after.storage && e.after.storage[id].profile == s.storage[id].profile
      && e.after.storage[id].state == if Leaves(e.events, id) then Suspended else s.storage[id].state
  {
    SweptRecord(cfg, s, now, id);
    var v := Verdict(cfg, s.storage[id], now);
    hide Ticked, Verdict;
    if v.Some? {
      TickEvictsExactly(cfg, s, now, id, v.value);
      var e := Ticked(cfg, s, now).events;
      var k :| 0 <= k < |e| && e[k] == Evicted(id, v.value);
      assert Leaves(e, id);
    } else if Leaves(Ticked(cfg, s, now).events, id) {
      var e := Ticked(cfg, s, now).events;
      var k :| 0 <= k < |e| && e[k].Evicted? && e[k].id == id;
      TickEvictsExactly(cfg, s, now, id, e[k].reason);
    }
  }

  lemma TickKeepsSeats(cfg: Config, s: PoolState, now: real)
    requires SeatsHeld(s.seats) && SeatedAreAwake(s)
    ensures SeatedAreAwake(PoolTicked(cfg, s, now).after) && SeatsHeld(PoolTicked(cfg, s, now).after.seats)
    ensures PlanningSeated(s) ==> PlanningSeated(PoolTicked(cfg, s, now).after)
    ensures SeatsInverse(s.seats) ==> SeatsInverse(PoolTicked(cfg, s, now).after.seats)
  {
    var e := Ticked(cfg, s.members, now);
    var after := PoolTicked(cfg, s, now).after;
    VacatedAllHolds(s.seats, e.events, 0);
    hide Ticked, VacatedAll, SeatsHeld, SeatsInverse, Leaves;
    TickKeepsKeys(cfg, s.members, now);
    forall id: NodeID
      ensures id in after.members.storage ==> after.members.storage[id].profile.nodeID == id
      ensures id in after.seats.platformOf ==>
                id in after.members.storage && after.members.storage[id].state != Suspended
      ensures PlanningSeated(s) && id in after.members.storage && after.members.storage[id].state.Plans() ==>
                id in after.seats.platformOf
    {
      VacatedAllHolds(s.seats, e.events, id);
      if id in s.members.storage {
        TickMoves(cfg, s.members, now, id);
      } else {
        assert id !in e.after.storage.Keys;
      }
    }
  }

  lemma DrainLeaves(s: Members, gone: NodeID, now: real)
    ensures
      var after := AnnouncedDrain(s, gone, now).after.storage;
      && after.Keys == s.storage.Keys
      && (gone in after ==> !after[gone].state.Plans())
      && forall id :: id in s.storage ==>
           && after[id].profile == s.storage[id].profile
           && (id != gone ==> after[id] == s.storage[id])
           && (s.storage[id].state != Suspended ==> after[id].state != Suspended)
  {
  }

  lemma AppearedJoins(cfg: Config, s: Members, p: Profile, now: real)
    ensures
      var after := Appeared(cfg, s, p, now).after.storage;
      && after.Keys == s.storage.Keys + {p.nodeID}
      && after[p.nodeID].profile == p && after[p.nodeID].state != Suspended
      && forall id :: id in s.storage && id != p.nodeID ==> after[id] == s.storage[id]
  {
    hide IssueLease;
  }

  // The platform's seat is recorded as the node's, but the node is not recorded as seated.
  predicate FindsGhostSeat(seats: Seats, platform: Platform, id: NodeID) {
    platform in seats.nodeOf && seats.nodeOf[platform] == id && id !in seats.platformOf
  }

  /** A connection leaves its own node without a seat exactly when it finds such a seat. */
  lemma ConnectUnseatsIff(seats: Seats, platform: Platform, id: NodeID)
    ensures id !in Seated(seats, platform, id).platformOf <==> FindsGhostSeat(seats, platform, id)
  {
  }

  // Connecting seats the node, if its seat is no ghost, and unseats at most the one it replaces.
  lemma SeatedKeys(seats: Seats, platform: Platform, newcomer: NodeID, id: NodeID)
    ensures
      id in Seated(seats, platform, newcomer).platformOf
      <==> (if id == newcomer then !FindsGhostSeat(seats, platform, newcomer)
            else id in seats.platformOf && Replaced(seats, platform, newcomer) != Some(id))
  {
  }

  // The node will be a planning member, and there is no seat for it.
  predicate LosesSeat(s: PoolState, platform: Platform, id: NodeID) {
    && FindsGhostSeat(s.seats, platform, id)
    && !(id in s.members.storage && s.members.storage[id].state == Draining)
  }

  lemma ConnectedMembers(cfg: Config, s: PoolState, platform: Platform, p: Profile, now: real, id: NodeID)
    ensures
      var after := Connected(cfg, s, platform, p, now).after.members.storage;
      && (id in after <==> id in s.members.storage || id == p.nodeID)
      && p.nodeID in after && after[p.nodeID].profile == p && after[p.nodeID].state != Suspended
      && (id in s.members.storage && id != p.nodeID ==>
            && after[id].profile == s.members.storage[id].profile
            && (Replaced(s.seats, platform, p.nodeID) != Some(id) ==> after[id] == s.members.storage[id])
            && (Replaced(s.seats, platform, p.nodeID) == Some(id) ==> !after[id].state.Plans())
            && (s.members.storage[id].state != Suspended ==> after[id].state != Suspended))
  {
    var gone := Replaced(s.seats, platform, p.nodeID);
    var left := if gone.Some? then AnnouncedDrain(s.members, gone.value, now).after else s.members;
    if gone.Some? {
      DrainLeaves(s.members, gone.value, now);
    }
    AppearedJoins(cfg, left, p, now);
    var after := Connected(cfg, s, platform, p, now).after.members;
    assert after == Appeared(cfg, left, p, now).after;
    hide Appeared, AnnouncedDrain, Connected;
    assert id in after.storage <==> id in after.storage.Keys;
    assert id in left.storage <==> id in left.storage.Keys;
  }

  lemma ConnectKeepsSeats(cfg: Config, s: PoolState, platform: Platform, p: Profile, now: real)
    requires SeatedAreAwake(s)
    ensures SeatedAreAwake(Connected(cfg, s, platform, p, now).after)
    ensures PlanningSeated(s) && !LosesSeat(s, platform, p.nodeID) ==>
              PlanningSeated(Connected(cfg, s, platform, p, now).after)
    ensures LosesSeat(s, platform, p.nodeID) ==> !PlanningSeated(Connected(cfg, s, platform, p, now).after)
  {
    var after := Connected(cfg, s, platform, p, now).after;
    assert after.seats == Seated(s.seats, platform, p.nodeID);
    ConnectedPlansIff(cfg, s, platform, p, now);
    hide Connected, Seated, Replaced;
    forall id: NodeID
      ensures id in after.members.storage ==> after.members.storage[id].profile.nodeID == id
      ensures id in after.seats.platformOf ==>
                id in after.members.storage && after.members.storage[id].state != Suspended
      ensures PlanningSeated(s) && !LosesSeat(s, platform, p.nodeID) ==>
                id in after.members.storage && after.members.storage[id].state.Plans() ==> id in after.seats.platformOf
    {
      SeatedKeys(s.seats, platform, p.nodeID, id);
      ConnectedMembers(cfg, s, platform, p, now, id);
    }
    SeatedKeys(s.seats, platform, p.nodeID, p.nodeID);
  }

  /**
   * A connected peer is a planning member unless it was draining: its connection then neither
   * rescues it nor is refused, so the connected event does not imply planning membership.
   */
  lemma ConnectedPlansIff(cfg: Config, s: PoolState, platform: Platform, p: Profile, now: real)
    ensures p.nodeID in Planning(Connected(cfg, s, platform, p, now).after.members.storage)
            <==> !(p.nodeID in s.members.storage && s.members.storage[p.nodeID].state == Draining)
  {
    var gone := Replaced(s.seats, platform, p.nodeID);
    var left := if gone.Some? then AnnouncedDrain(s.members, gone.value, now).after else s.members;
    if gone.Some? {
      DrainLeaves(s.members, gone.value, now);
    }
    assert p.nodeID in left.storage <==> p.nodeID in left.storage.Keys;
    assert Connected(cfg, s, platform, p, now).after.members == Appeared(cfg, left, p, now).after;
    hide IssueLease, AnnouncedDrain, Seated;
  }

  lemma OtherKeepsSeats(cfg: Config, s: PoolState, c: PoolCall)
    requires SeatedAreAwake(s) && (c.op.Beat? || c.op.Miss? || c.op.Leave?)
    ensures DoPool(cfg, s, c).seats == s.seats && SeatedAreAwake(DoPool(cfg, s, c))
    ensures PlanningSeated(s) ==> PlanningSeated(DoPool(cfg, s, c))
  {
    hide IssueLease, Connected, PoolTicked, PlanRAM;
    match c.op
    case Beat(id) => BeatKeepsStates(cfg, s.members, id, c.now);
    case Miss(id) => MissKeepsStates(s.members, id);
    case Leave(id) => DrainLeaves(s.members, id, c.now);
  }

  lemma BeatKeepsStates(cfg: Config, s: Members, id: NodeID, now: real)
    ensures
      var after := Succeeded(cfg, s, id, now).storage;
      && after.Keys == s.storage.Keys
      && forall x :: x in s.storage ==> after[x].profile == s.storage[x].profile && after[x].state == s.storage[x].state
  {
    hide IssueLease;
  }

  lemma MissKeepsStates(s: Members, id: NodeID)
    ensures
      var after := Failed(s, id).storage;
      && after.Keys == s.storage.Keys
      && forall x :: x in s.storage ==> after[x].profile == s.storage[x].profile && after[x].state == s.storage[x].state
  {
  }

  lemma DoHoldsSeats(cfg: Config, s: PoolState, c: PoolCall)
    requires SeatsHeld(s.seats)
    ensures SeatsHeld(DoPool(cfg, s, c).seats)
  {
    hide PlanFrom, SeatsHeld, Admitted, Ticked, VacatedAll;
    match c.op
    case Connect(platform, p) => SeatedHolds(s.seats, platform, p.nodeID);
    case Pass => VacatedAllHolds(s.seats, Ticked(cfg, s.members, c.now).events, 0);
    case Plan(_, _, _) => VacatedAllHolds(s.seats, Ticked(cfg, s.members, c.now).events, 0);
    case _ =>
  }

  /** Even when nodes join under several platforms, no two nodes ever hold the same seat. */
  lemma {:induction false} NoSeatIsShared(cfg: Config, epoch: nat, start: real, calls: seq<PoolCall>)
    ensures
      var seats := ExecPool(cfg, epoch, start, calls).seats;
      forall m, n :: m in seats.platformOf && n in seats.platformOf ==>
        seats.platformOf[m] == seats.platformOf[n] ==> m == n
    ensures SeatsHeld(ExecPool(cfg, epoch, start, calls).seats)
  {
    if calls != [] {
      NoSeatIsShared(cfg, epoch, start, calls[..|calls| - 1]);
      DoHoldsSeats(cfg, ExecPool(cfg, epoch, start, calls[..|calls| - 1]), calls[|calls| - 1]);
      hide DoPool;
    }
  }

  // ----- exactly when the maps stay inverse and the planning members seated -----

  // The node is unseated, or already seated at that platform.
  predicate Welcome(seats: Seats, platform: Platform, id: NodeID) {
    id in seats.platformOf ==> seats.platformOf[id] == platform
  }

  ghost predicate AllWelcome(cfg: Config, epoch: nat, start: real, calls: seq<PoolCall>) {
    forall k :: 0 <= k < |calls| && calls[k].op.Connect? ==>
      Welcome(ExecPool(cfg, epoch, start, calls[..k]).seats, calls[k].op.platform, calls[k].op.profile.nodeID)
  }

  ghost predicate NoSeatLost(cfg: Config, epoch: nat, start: real, calls: seq<PoolCall>) {
    forall k :: 0 <= k < |calls| && calls[k].op.Connect? ==>
      !LosesSeat(ExecPool(cfg, epoch, start, calls[..k]), calls[k].op.platform, calls[k].op.profile.nodeID)
  }

  lemma DoKeepsAwake(cfg: Config, s: PoolState, c: PoolCall)
    requires SeatsHeld(s.seats) && SeatedAreAwake(s)
    ensures SeatedAreAwake(DoPool(cfg, s, c))
    ensures PlanningSeated(s) ==>
              (PlanningSeated(DoPool(cfg, s, c))
               <==> (c.op.Connect? ==> !LosesSeat(s, c.op.platform, c.op.profile.nodeID)))
  {
    hide Connected, PoolTicked, PlanFrom, SeatsHeld, SeatedAreAwake, PlanningSeated, LosesSeat;
    match c.op
    case Connect(platform, p) => ConnectKeepsSeats(cfg, s, platform, p, c.now);
    case Pass => TickKeepsSeats(cfg, s, c.now);
    case Plan(_, _, _) => TickKeepsSeats(cfg, s, c.now);
    case _ => OtherKeepsSeats(cfg, s, c);
  }

  // What each operation does to the seats.
  lemma DoSeats(cfg: Config, s: PoolState, c: PoolCall)
    ensures
      var seats := DoPool(cfg, s, c).seats;
      match c.op
      case Connect(platform, p) => seats == Seated(s.seats, platform, p.nodeID)
      case Pass => seats == PoolTicked(cfg, s, c.now).after.seats
      case Plan(_, _, _) => seats == s.seats || seats == PoolTicked(cfg, s, c.now).after.seats
      case _ => seats == s.seats
  {
    hide PoolTicked, PlanFrom, Admitted, Seated;
  }

  lemma DoKeepsInverseIff(cfg: Config, s: PoolState, c: PoolCall)
    requires SeatsInverse(s.seats) && SeatedAreAwake(s)
    ensures SeatsInverse(DoPool(cfg, s, c).seats)
            <==> (c.op.Connect? ==> Welcome(s.seats, c.op.platform, c.op.profile.nodeID))
  {
    assert SeatsHeld(s.seats);
    hide DoPool, PoolTicked, SeatsHeld, SeatsInverse, SeatedAreAwake, Seated;
    DoSeats(cfg, s, c);
    if c.op.Connect? {
      ConnectKeepsInverseIff(s.seats, c.op.platform, c.op.profile.nodeID);
    } else {
      TickKeepsSeats(cfg, s, c.now);
    }
  }

  /** In every run nobody suspended is seated, and every record is kept under its own node's ID. */
  lemma {:induction false} SeatedAreNotSuspended(cfg: Config, epoch: nat, start: real, calls: seq<PoolCall>)
    ensures SeatedAreAwake(ExecPool(cfg, epoch, start, calls))
  {
    if calls != [] {
      hide DoPool, SeatedAreAwake;
      var front := calls[..|calls| - 1];
      SeatedAreNotSuspended(cfg, epoch, start, front);
      NoSeatIsShared(cfg, epoch, start, front);
      DoKeepsAwake(cfg, ExecPool(cfg, epoch, start, front), calls[|calls| - 1]);
    }
  }

  ghost predicate SeatedThroughout(cfg: Config, epoch: nat, start: real, calls: seq<PoolCall>) {
    forall n :: 0 <= n <= |calls| ==> PlanningSeated(ExecPool(cfg, epoch, start, calls[..n]))
  }

  ghost predicate InverseThroughout(cfg: Config, epoch: nat, start: real, calls: seq<PoolCall>) {
    forall n :: 0 <= n <= |calls| ==> SeatsInverse(ExecPool(cfg, epoch, start, calls[..n]).seats)
  }

  lemma {:induction false} ThroughoutSteps(cfg: Config, epoch: nat, start: real, calls: seq<PoolCall>)
    requires calls != []
    ensures
      var front := calls[..|calls| - 1];
      && (SeatedThroughout(cfg, epoch, start, calls)
          <==> SeatedThroughout(cfg, epoch, start, front) && PlanningSeated(ExecPool(cfg, epoch, start, calls)))
      && (InverseThroughout(cfg, epoch, start, calls)
          <==> InverseThroughout(cfg, epoch, start, front) && SeatsInverse(ExecPool(cfg, epoch, start, calls).seats))
  {
    hide ExecPool, PlanningSeated, SeatsInverse;
    var front := calls[..|calls| - 1];
    assert forall n :: 0 <= n <= |front| ==> front[..n] == calls[..n];
    assert calls[..|calls|] == calls;
  }

  lemma {:induction false} GuardsStep(cfg: Config, epoch: nat, start: real, calls: seq<PoolCall>)
    requires calls != []
    ensures
      var front, last := calls[..|calls| - 1], calls[|calls| - 1].op;
      var s := ExecPool(cfg, epoch, start, front);
      && (NoSeatLost(cfg, epoch, start, calls)
          <==> NoSeatLost(cfg, epoch, start, front)
               && (last.Connect? ==> !LosesSeat(s, last.platform, last.profile.nodeID)))
      && (AllWelcome(cfg, epoch, start, calls)
          <==> AllWelcome(cfg, epoch, start, front)
               && (last.Connect? ==> Welcome(s.seats, last.platform, last.profile.nodeID)))
  {
    hide ExecPool, LosesSeat, Welcome;
    var front := calls[..|calls| - 1];
    assert forall k :: 0 <= k < |front| ==> front[..k] == calls[..k] && front[k] == calls[k];
  }

  /**
   * The planning members are seated all through a run exactly when no connection finds a seat
   * recorded as its node's that the node itself has lost, unless that node is draining.
   */
  lemma {:induction false} SeatedThroughoutIff(cfg: Config, epoch: nat, start: real, calls: seq<PoolCall>)
    ensures SeatedThroughout(cfg, epoch, start, calls) <==> NoSeatLost(cfg, epoch, start, calls)
    ensures SeatedThroughout(cfg, epoch, start, calls) ==> PlanningSeated(ExecPool(cfg, epoch, start, calls))
  {
    if calls == [] {
      assert calls[..0] == [];
      assert PlanningSeated(ExecPool(cfg, epoch, start, []));
    } else {
      hide ExecPool, DoPool, SeatedThroughout, NoSeatLost, PlanningSeated, LosesSeat, SeatsHeld, SeatedAreAwake;
      var front := calls[..|calls| - 1];
      SeatedThroughoutIff(cfg, epoch, start, front);
      SeatedAreNotSuspended(cfg, epoch, start, front);
      NoSeatIsShared(cfg, epoch, start, front);
      DoKeepsAwake(cfg, ExecPool(cfg, epoch, start, front), calls[|calls| - 1]);
      ExecPoolStep(cfg, epoch, start, calls);
      ThroughoutSteps(cfg, epoch, start, calls);
      GuardsStep(cfg, epoch, start, calls);
    }
  }

  lemma {:induction false} ExecPoolStep(cfg: Config, epoch: nat, start: real, calls: seq<PoolCall>)
    requires calls != []
    ensures ExecPool(cfg, epoch, start, calls)
            == DoPool(cfg, ExecPool(cfg, epoch, start, calls[..|calls| - 1]), calls[|calls| - 1])
  {
    hide DoPool;
  }

  /**
   * The two seat maps are inverse all through a run exactly when every connection finds its node
   * unseated or already seated at that platform.
   */
  lemma {:induction false} InverseThroughoutIff(cfg: Config, epoch: nat, start: real, calls: seq<PoolCall>)
    ensures InverseThroughout(cfg, epoch, start, calls) <==> AllWelcome(cfg, epoch, start, calls)
    ensures InverseThroughout(cfg, epoch, start, calls) ==> SeatsInverse(ExecPool(cfg, epoch, start, calls).seats)
  {
    if calls == [] {
      assert calls[..0] == [];
      assert SeatsInverse(ExecPool(cfg, epoch, start, []).seats);
    } else {
      hide ExecPool, DoPool, InverseThroughout, AllWelcome, Welcome, SeatsInverse, SeatedAreAwake;
      var front := calls[..|calls| - 1];
      InverseThroughoutIff(cfg, epoch, start, front);
      SeatedAreNotSuspended(cfg, epoch, start, front);
      if InverseThroughout(cfg, epoch, start, front) {
        DoKeepsInverseIff(cfg, ExecPool(cfg, epoch, start, front), calls[|calls| - 1]);
      }
      ExecPoolStep(cfg, epoch, start, calls);
      ThroughoutSteps(cfg, epoch, start, calls);
      GuardsStep(cfg, epoch, start, calls);
    }
  }

  // Inverse maps have no ghost seats.
  lemma InverseHasNoGhosts(seats: Seats, platform: Platform, id: NodeID)
    requires SeatsInverse(seats)
    ensures !FindsGhostSeat(seats, platform, id)
  {
  }

  lemma {:induction false} WelcomeLosesNoSeat(cfg: Config, epoch: nat, start: real, calls: seq<PoolCall>)
    requires AllWelcome(cfg, epoch, start, calls)
    ensures NoSeatLost(cfg, epoch, start, calls)
  {
    InverseThroughoutIff(cfg, epoch, start, calls);
    hide ExecPool, SeatsInverse, AllWelcome, FindsGhostSeat;
    forall k | 0 <= k < |calls| && calls[k].op.Connect?
      ensures !LosesSeat(ExecPool(cfg, epoch, start, calls[..k]), calls[k].op.platform, calls[k].op.profile.nodeID)
    {
      InverseHasNoGhosts(ExecPool(cfg, epoch, start, calls[..k]).seats, calls[k].op.platform,
                         calls[k].op.profile.nodeID);
    }
  }

  /**
   * So while every connection finds its node unseated or already seated there, the two seat maps
   * are inverse, every planning member is seated, and nobody suspended is.
   */
  lemma {:induction false} PlanningMembersAreSeated(cfg: Config, epoch: nat, start: real, calls: seq<PoolCall>)
    requires AllWelcome(cfg, epoch, start, calls)
    ensures
      var s := ExecPool(cfg, epoch, start, calls);
      && (forall n, p :: (n in s.seats.platformOf && s.seats.platformOf[n] == p)
                         <==> (p in s.seats.nodeOf && s.seats.nodeOf[p] == n))
      && (forall id :: id in Planning(s.members.storage) ==> id in s.seats.platformOf)
      && (forall id :: id in s.seats.platformOf ==>
            id in s.members.storage && s.members.storage[id].state != Suspended)
  {
    InverseThroughoutIff(cfg, epoch, start, calls);
    WelcomeLosesNoSeat(cfg, epoch, start, calls);
    SeatedThroughoutIff(cfg, epoch, start, calls);
    SeatedAreNotSuspended(cfg, epoch, start, calls);
    hide ExecPool, AllWelcome, InverseThroughout, SeatedThroughout, NoSeatLost;
  }

  // Each node joins under one platform only.
  ghost predicate OneHome(calls: seq<PoolCall>, home: NodeID -> Platform) {
    forall k :: 0 <= k < |calls| && calls[k].op.Connect? ==> calls[k].op.platform == home(calls[k].op.profile.nodeID)
  }

  ghost predicate AtHome(seats: Seats, home: NodeID -> Platform) {
    forall n :: n in seats.platformOf ==> seats.platformOf[n] == home(n)
  }

  lemma DoStaysHome(cfg: Config, s: PoolState, c: PoolCall, home: NodeID -> Platform)
    requires SeatsHeld(s.seats) && AtHome(s.seats, home)
    requires c.op.Connect? ==> c.op.platform == home(c.op.profile.nodeID)
    ensures AtHome(DoPool(cfg, s, c).seats, home)
  {
    hide PlanFrom, SeatsHeld, Admitted, Ticked, VacatedAll;
    if c.op.Pass? || c.op.Plan? {
      forall n | n in VacatedAll(s.seats, Ticked(cfg, s.members, c.now).events).platformOf
        ensures VacatedAll(s.seats, Ticked(cfg, s.members, c.now).events).platformOf[n] == home(n)
      {
        VacatedAllHolds(s.seats, Ticked(cfg, s.members, c.now).events, n);
      }
    }
  }

  /** It is enough that each node always joins under one platform; it is then seated at that one. */
  lemma {:induction false} OneHomeIsWelcome(
    cfg: Config, epoch: nat, start: real, calls: seq<PoolCall>, home: NodeID -> Platform)
    requires OneHome(calls, home)
    ensures AllWelcome(cfg, epoch, start, calls)
    ensures AtHome(ExecPool(cfg, epoch, start, calls).seats, home)
  {
    if calls != [] {
      hide DoPool, SeatsHeld, AllWelcome;
      var front := calls[..|calls| - 1];
      OneHomeIsWelcome(cfg, epoch, start, front, home);
      NoSeatIsShared(cfg, epoch, start, front);
      DoStaysHome(cfg, ExecPool(cfg, epoch, start, front), calls[|calls| - 1], home);
      GuardsStep(cfg, epoch, start, calls);
    }
  }

  /**
   * Without the guard a planning member can lose its seat: a node seated at two platforms,
   * pushed out of the second, evicted, and back at the first.
   */
  lemma RejoinCanLoseSeat(x: Profile, y: Profile)
    requires x.nodeID != y.nodeID
    ensures
      var cfg := Config(10.0, 3, 0.0);
      var s := ExecPool(cfg, 0, 0.0, Rejoining(x, y));
      x.nodeID in Planning(s.members.storage) && x.nodeID !in s.seats.platformOf
  {
    var cfg := Config(10.0, 3, 0.0);
    RejoinSteps(cfg, x, y);
    RejoinRun(cfg, x, y);
    hide *;
  }

  function Rejoining(x: Profile, y: Profile): seq<PoolCall> {
    [PoolCall(Connect(Ios, x), 0.0), PoolCall(Connect(Android, x), 0.0), PoolCall(Connect(Android, y), 0.0),
     PoolCall(Pass, 0.0), PoolCall(Connect(Ios, x), 0.0)]
  }

  lemma {:induction false} RejoinRun(cfg: Config, x: Profile, y: Profile)
    ensures
      var s0 := PoolState(Fresh(0, 0.0), Seats(map[], map[]));
      var s1 := Connected(cfg, s0, Ios, x, 0.0).after;
      var s2 := Connected(cfg, s1, Android, x, 0.0).after;
      var s3 := Connected(cfg, s2, Android, y, 0.0).after;
      var s4 := PoolTicked(cfg, s3, 0.0).after;
      ExecPool(cfg, 0, 0.0, Rejoining(x, y)) == Connected(cfg, s4, Ios, x, 0.0).after
  {
    hide Connected, PoolTicked, PlanRAM, DrainAnnounced;
    var calls := Rejoining(x, y);
    assert calls[..4][..3] == calls[..3] && calls[..3][..2] == calls[..2] && calls[..2][..1] == calls[..1];
    assert calls[..1][..0] == [];
    var s0 := PoolState(Fresh(0, 0.0), Seats(map[], map[]));
    var s1 := Connected(cfg, s0, Ios, x, 0.0).after;
    var s2 := Connected(cfg, s1, Android, x, 0.0).after;
    assert ExecPool(cfg, 0, 0.0, calls[..1]) == s1;
    assert ExecPool(cfg, 0, 0.0, calls[..2]) == s2;
    assert ExecPool(cfg, 0, 0.0, calls[..3]) == Connected(cfg, s2, Android, y, 0.0).after;
  }

  // The first two connections seat x twice.
  lemma SeatedTwice(cfg: Config, x: Profile)
    ensures
      var s0 := PoolState(Fresh(0, 0.0), Seats(map[], map[]));
      var s1 := Connected(cfg, s0, Ios, x, 0.0).after;
      var s2 := Connected(cfg, s1, Android, x, 0.0).after;
      && s2.seats == Seats(map[x.nodeID := Android], map[Ios := x.nodeID, Android := x.nodeID])
      && x.nodeID in s2.members.storage && s2.members.storage[x.nodeID].state.Plans()
  {
    var s0 := PoolState(Fresh(0, 0.0), Seats(map[], map[]));
    var s1 := Connected(cfg, s0, Ios, x, 0.0).after;
    assert s1.seats == Seats(map[x.nodeID := Ios], map[Ios := x.nodeID]);
    JoinedPlans(cfg, s0.members, x, 0.0);
    StillPlans(cfg, s1.members, x, 0.0);
    AppearedJoins(cfg, s0.members, x, 0.0);
    AppearedJoins(cfg, s1.members, x, 0.0);
    hide Appeared;
  }

  // The third pushes it out of the second seat, and it is leaving.
  lemma PushedOut(cfg: Config, s: PoolState, x: Profile, y: Profile)
    requires x.nodeID != y.nodeID && x.nodeID in s.members.storage && s.members.storage[x.nodeID].state.Plans()
    requires s.seats == Seats(map[x.nodeID := Android], map[Ios := x.nodeID, Android := x.nodeID])
    ensures
      var after := Connected(cfg, s, Android, y, 0.0).after;
      && after.seats == Seats(map[y.nodeID := Android], map[Ios := x.nodeID, Android := y.nodeID])
      && x.nodeID in after.members.storage && after.members.storage[x.nodeID].state == Draining
  {
    hide Appeared;
    AppearedJoins(cfg, AnnouncedDrain(s.members, x.nodeID, 0.0).after, y, 0.0);
  }

  lemma JoinedPlans(cfg: Config, s: Members, p: Profile, now: real)
    requires p.nodeID !in s.storage
    ensures Appeared(cfg, s, p, now).after.storage[p.nodeID].state.Plans()
  {
  }

  lemma StillPlans(cfg: Config, s: Members, p: Profile, now: real)
    requires p.nodeID in s.storage && s.storage[p.nodeID].state.Plans()
    ensures Appeared(cfg, s, p, now).after.storage[p.nodeID].state.Plans()
  {
  }

  lemma RejoinSteps(cfg: Config, x: Profile, y: Profile)
    requires x.nodeID != y.nodeID
    ensures
      var s0 := PoolState(Fresh(0, 0.0), Seats(map[], map[]));
      var s1 := Connected(cfg, s0, Ios, x, 0.0).after;
      var s2 := Connected(cfg, s1, Android, x, 0.0).after;
      var s3 := Connected(cfg, s2, Android, y, 0.0).after;
      var s4 := PoolTicked(cfg, s3, 0.0).after;
      var s5 := Connected(cfg, s4, Ios, x, 0.0).after;
      x.nodeID in Planning(s5.members.storage) && x.nodeID !in s5.seats.platformOf
  {
    SeatedTwice(cfg, x);
    hide Connected;
    var s0 := PoolState(Fresh(0, 0.0), Seats(map[], map[]));
    var s2 := Connected(cfg, Connected(cfg, s0, Ios, x, 0.0).after, Android, x, 0.0).after;
    PushedOut(cfg, s2, x, y);
    var s3 := Connected(cfg, s2, Android, y, 0.0).after;
    EvictedWithStaleSeat(cfg, s3, x);
    BackUnseated(cfg, PoolTicked(cfg, s3, 0.0).after, x);
  }

  lemma EvictedWithStaleSeat(cfg: Config, s: PoolState, x: Profile)
    requires x.nodeID in s.members.storage && s.members.storage[x.nodeID].state == Draining
    requires SeatsHeld(s.seats)
    requires Ios in s.seats.nodeOf && s.seats.nodeOf[Ios] == x.nodeID && x.nodeID !in s.seats.platformOf
    ensures
      var after := PoolTicked(cfg, s, 0.0).after;
      && x.nodeID in after.members.storage && after.members.storage[x.nodeID].state == Suspended
      && Ios in after.seats.nodeOf && after.seats.nodeOf[Ios] == x.nodeID && x.nodeID !in after.seats.platformOf
  {
    SweptRecord(cfg, s.members, 0.0, x.nodeID);
    StaleSeatStays(s.seats, Ticked(cfg, s.members, 0.0).events, Ios);
    hide Ticked, VacatedAll;
  }

  lemma BackUnseated(cfg: Config, s: PoolState, x: Profile)
    requires x.nodeID in s.members.storage && s.members.storage[x.nodeID].state == Suspended
    requires Ios in s.seats.nodeOf && s.seats.nodeOf[Ios] == x.nodeID && x.nodeID !in s.seats.platformOf
    ensures
      var after := Connected(cfg, s, Ios, x, 0.0).after;
      x.nodeID in Planning(after.members.storage) && x.nodeID !in after.seats.platformOf
  {
    hide IssueLease;
  }

  // A seat whose holder does not know it is never vacated.
  lemma {:induction false} StaleSeatStays(seats: Seats, events: seq<Event>, platform: Platform)
    requires SeatsHeld(seats) && platform in seats.nodeOf && seats.nodeOf[platform] !in seats.platformOf
    ensures
      var after := VacatedAll(seats, events);
      && platform in after.nodeOf && after.nodeOf[platform] == seats.nodeOf[platform]
      && after.nodeOf[platform] !in after.platformOf
  {
    if events != [] {
      StaleSeatStays(seats, events[..|events| - 1], platform);
    }
  }
}
