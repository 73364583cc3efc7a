/** A plan the pool returns: four shards, one a platform, of the announced membership. */
module PooledPlan {
  import opened Base
  import opened Capability
  import opened Sorting
  import opened Membership
  import opened MembershipRuns
  import opened Pool
  import opened PoolRuns
  import Placement

  // ----- the members given to the planner -----

  ghost predicate InNodeOrder(members: seq<PlannedMember>) {
    forall i, j :: 0 <= i < j < |members| ==> members[i].profile.nodeID < members[j].profile.nodeID
  }

  // Every record is kept under its own node's ID.
  ghost predicate OwnKeys(s: Members) {
    forall id :: id in s.storage ==> s.storage[id].profile.nodeID == id
  }

  function MemberOf(s: Members, id: NodeID): PlannedMember
    requires id in s.storage
  {
    PlannedMember(s.storage[id].profile, s.storage[id].state, s.storage[id].lease)
  }

  // The members the planner is given are exactly the planning members, in node order.
  lemma PlanningMembersAre(s: Members)
    requires OwnKeys(s)
    ensures InNodeOrder(PlanningMembers(s))
    ensures forall m :: m in PlanningMembers(s) <==>
              m.profile.nodeID in Planning(s.storage) && m == MemberOf(s, m.profile.nodeID)
    ensures PlanningMembers(s) == [] <==> Planning(s.storage) == {}
  {
    var ids, members := Sorted(Planning(s.storage)), PlanningMembers(s);
    forall i | 0 <= i < |members|
      ensures members[i].profile.nodeID == ids[i] && ids[i] in s.storage && members[i] == MemberOf(s, ids[i])
      ensures ids[i] in Planning(s.storage)
    {
      assert ids[i] in ids;
    }
    forall m: PlannedMember | m.profile.nodeID in Planning(s.storage) && m == MemberOf(s, m.profile.nodeID)
      ensures m in members
    {
      var k :| 0 <= k < |ids| && ids[k] == m.profile.nodeID;
      assert members[k] == m;
    }
    if Planning(s.storage) != {} {
      var id :| id in Planning(s.storage);
      assert id in ids;
    }
  }

  lemma PlanningMembersFacts(s: PoolState)
    requires SeatedAreIn(s)
    ensures InNodeOrder(PlanningMembers(s.members))
    ensures forall m :: m in PlanningMembers(s.members) ==>
              m.profile.nodeID in s.seats.platformOf && m.profile.nodeID in s.members.storage
  {
    hide PlanningMembers;
    PlanningMembersAre(s.members);
  }

  lemma {:induction false} FilterInOrder(
    policy: Placement.Policy, members: seq<PlannedMember>, now: real, estimate: real)
    requires InNodeOrder(members)
    ensures InNodeOrder(Placement.Filter(policy, members, now, estimate))
  {
    hide Placement.Eligible;
    if members != [] {
      var front, last := members[..|members| - 1], members[|members| - 1];
      FilterInOrder(policy, front, now, estimate);
      forall m | m in front
        ensures m.profile.nodeID < last.profile.nodeID
      {
      }
    }
  }

  // Members in node order need no sorting.
  lemma {:induction false} EligibleIsFilter(
    policy: Placement.Policy, members: seq<PlannedMember>, now: real, estimate: real)
    requires InNodeOrder(members)
    ensures Placement.EligibleMembers(policy, members, now, estimate)
            == Placement.Filter(policy, members, now, estimate)
  {
    FilterInOrder(policy, members, now, estimate);
    Placement.EligibleFacts(policy, members, now, estimate);
    hide Placement.EligibleMembers, Placement.Filter;
    var e := Placement.EligibleMembers(policy, members, now, estimate);
    var f := Placement.Filter(policy, members, now, estimate);
    forall x, y | x in f && y in f && Placement.ByNode(x, y) && Placement.ByNode(y, x)
      ensures x == y
    {
      var i :| 0 <= i < |f| && f[i] == x;
      var j :| 0 <= j < |f| && f[j] == y;
    }
    SortedIsUnique(Placement.ByNode, f, e);
  }

  lemma {:induction false} ChosenIsFilter(
    policy: Placement.Policy, members: seq<PlannedMember>, nodes: set<NodeID>, now: real, estimate: real)
    requires forall m :: m in members ==> (Placement.Eligible(policy, m, now, estimate) <==> m.profile.nodeID in nodes)
    ensures AssignedMembers(members, nodes) == Placement.Filter(policy, members, now, estimate)
  {
    hide Placement.Eligible;
    if members != [] {
      ChosenIsFilter(policy, members[..|members| - 1], nodes, now, estimate);
    }
  }

  // The members that receive shards are the eligible ones, rank by rank.
  lemma {:induction false} ChosenAreEligible(
    policy: Placement.Policy, model: Placement.ModelSpec, members: seq<PlannedMember>, epoch: nat, now: real,
    estimate: real)
    requires InNodeOrder(members) && Placement.PlanOf(policy, model, members, epoch, now, estimate).Ok?
    ensures
      var plan := Placement.PlanOf(policy, model, members, epoch, now, estimate).value;
      var chosen := AssignedMembers(members, AssignedNodes(plan));
      && chosen == Placement.EligibleMembers(policy, members, now, estimate)
      && |plan.assignments| == |chosen| && InNodeOrder(chosen)
      && (forall m :: m in chosen ==> m in members)
      && (forall i :: 0 <= i < |chosen| ==> Placement.Holds(model, chosen[i], plan.assignments[i]))
  {
    Placement.PlanIsSound(policy, model, members, epoch, now, estimate);
    hide Placement.PlanOf, Placement.EligibleMembers, Placement.Eligible, Placement.Filter, AssignedMembers;
    EligibleIsFilter(policy, members, now, estimate);
    FilterInOrder(policy, members, now, estimate);
    var plan := Placement.PlanOf(policy, model, members, epoch, now, estimate).value;
    var eligible, nodes := Placement.EligibleMembers(policy, members, now, estimate), AssignedNodes(plan);
    forall m | m in members
      ensures Placement.Eligible(policy, m, now, estimate) <==> m.profile.nodeID in nodes
    {
      AssignedIff(policy, model, members, eligible, plan.assignments, now, estimate, m);
    }
    ChosenIsFilter(policy, members, nodes, now, estimate);
  }

  lemma AssignedIff(
    policy: Placement.Policy, model: Placement.ModelSpec, members: seq<PlannedMember>, eligible: seq<PlannedMember>,
    assignments: seq<Placement.Assignment>, now: real, estimate: real, m: PlannedMember)
    requires InNodeOrder(members) && m in members && |assignments| == |eligible|
    requires forall x :: x in eligible <==> x in members && Placement.Eligible(policy, x, now, estimate)
    requires forall i :: 0 <= i < |eligible| ==> Placement.Holds(model, eligible[i], assignments[i])
    ensures Placement.Eligible(policy, m, now, estimate)
            <==> exists k :: 0 <= k < |assignments| && assignments[k].nodeID == m.profile.nodeID
  {
    hide Placement.Eligible;
    if Placement.Eligible(policy, m, now, estimate) {
      assert m in eligible;
      var k :| 0 <= k < |eligible| && eligible[k] == m;
      assert Placement.Holds(model, eligible[k], assignments[k]);
    }
    if k :| 0 <= k < |assignments| && assignments[k].nodeID == m.profile.nodeID {
      assert Placement.Holds(model, eligible[k], assignments[k]) && eligible[k] in eligible;
      SameMember(members, eligible[k], m);
    }
  }

  lemma SameMember(members: seq<PlannedMember>, x: PlannedMember, y: PlannedMember)
    requires InNodeOrder(members) && x in members && y in members && x.profile.nodeID == y.profile.nodeID
    ensures x == y
  {
    var i :| 0 <= i < |members| && members[i] == x;
    var j :| 0 <= j < |members| && members[j] == y;
  }

  // ----- their platforms -----

  lemma {:induction false} PlatformsInOrder(members: seq<PlannedMember>, seats: Seats)
    requires InNodeOrder(members) && SeatsHeld(seats)
    requires forall m :: m in members ==> m.profile.nodeID in seats.platformOf
    ensures
      var ps := PlatformsOf(members, seats);
      && |ps| == |members|
      && (forall i :: 0 <= i < |members| ==>
            members[i].profile.nodeID in seats.platformOf && ps[i] == seats.platformOf[members[i].profile.nodeID])
      && (forall i, j :: 0 <= i < j < |ps| ==> ps[i] != ps[j])
  {
    if members != [] {
      var front, last := members[..|members| - 1], members[|members| - 1];
      assert last in members;
      PlatformsInOrder(front, seats);
    }
  }

  lemma EveryPlatform(p: Platform)
    ensures p in AllRequired && p in [Android, Ios, Macos, Windows]
  {
    match p
    case Android => assert [Android, Ios, Macos, Windows][0] == p;
    case Ios => assert [Android, Ios, Macos, Windows][1] == p;
    case Macos => assert [Android, Ios, Macos, Windows][2] == p;
    case Windows => assert [Android, Ios, Macos, Windows][3] == p;
  }

  lemma SortedPlatforms(ps: seq<Platform>)
    requires SortedBy(ByName, ps) && AsPlatforms(ps) == AllRequired
    requires forall i, j :: 0 <= i < j < |ps| ==> ps[i] != ps[j]
    ensures ps == [Android, Ios, Macos, Windows]
  {
    var all := [Android, Ios, Macos, Windows];
    EachOnce(ps);
    assert multiset(ps) == multiset(all);
    AllSorted();
    hide AsPlatforms, ByName;
    SortedIsUnique(ByName, all, ps);
  }

  lemma AllSorted()
    ensures SortedBy(ByName, [Android, Ios, Macos, Windows])
    ensures TellsApart(ByName, [Android, Ios, Macos, Windows])
  {
  }

  lemma EachOnce(ps: seq<Platform>)
    requires AsPlatforms(ps) == AllRequired
    requires forall i, j :: 0 <= i < j < |ps| ==> ps[i] != ps[j]
    ensures forall p :: multiset(ps)[p] == multiset([Android, Ios, Macos, Windows])[p]
  {
    forall p
      ensures multiset(ps)[p] == multiset([Android, Ios, Macos, Windows])[p]
    {
      EveryPlatform(p);
      assert p in AsPlatforms(ps) && p in ps;
      OnceInMultiset(ps, p);
      OnceEach(p);
    }
  }

  lemma OnceEach(p: Platform)
    ensures multiset([Android, Ios, Macos, Windows])[p] == 1
  {
    match p
    case _ =>
  }

  // ----- their memory -----

  lemma {:induction false} BytesWithin(
    model: Placement.ModelSpec, members: seq<PlannedMember>, s: seq<Placement.Assignment>)
    requires |members| == |s| && forall i :: 0 <= i < |s| ==> Placement.Holds(model, members[i], s[i])
    ensures Placement.TotalBytes(s) <= UsableSum(members)
  {
    if s != [] {
      BytesWithin(model, members[..|members| - 1], s[..|s| - 1]);
      assert Placement.Holds(model, members[|s| - 1], s[|s| - 1]);
    }
  }

  // ----- the tick before the plan -----

  lemma {:induction false} DeferralIsReported(seats: Seats, events: seq<Event>)
    requires exists k :: 0 <= k < |events| && events[k].Deferred?
    ensures HasDeferral(ReportedAll(seats, events))
  {
    var k :| 0 <= k < |events| && events[k].Deferred?;
    var before, last := events[..|events| - 1], events[|events| - 1];
    var all, first := ReportedAll(seats, events), ReportedAll(seats, before);
    if k == |events| - 1 {
      assert all == first + [EpochDeferred(last.remaining)];
      assert all[|first|].EpochDeferred?;
    } else {
      assert before[k].Deferred?;
      DeferralIsReported(seats, before);
      var j :| 0 <= j < |first| && first[j].EpochDeferred?;
      assert all[j] == first[j];
    }
  }

  // A tick that defers nothing leaves the planning set announced.
  lemma SettledUnlessDeferred(cfg: Config, s: PoolState, now: real)
    requires !HasDeferral(PoolTicked(cfg, s, now).events)
    ensures
      var after := PoolTicked(cfg, s, now).after.members;
      Planning(after.storage) == after.announced
  {
    var e := Ticked(cfg, s.members, now);
    hide HasDeferral, ReportedAll, VacatedAll, Ticked;
    AnnouncedOrDeferred(cfg, s.members, now);
    if exists k :: 0 <= k < |e.events| && e.events[k].Deferred? {
      DeferralIsReported(s.seats, e.events);
    }
  }

  lemma AnnouncedOrDeferred(cfg: Config, s: Members, now: real)
    ensures
      var e := Ticked(cfg, s, now);
      Planning(e.after.storage) == e.after.announced || exists k :: 0 <= k < |e.events| && e.events[k].Deferred?
  {
    var e := Ticked(cfg, s, now);
    var swept, evictions := SweptAll(cfg, s, now), Evictions(cfg, s, now);
    var again := Reissued(cfg, s.epoch + 1, swept, swept.Keys, now);
    forall id | id in swept
      ensures id in again && again[id].state == swept[id].state
    {
      ReissuedRecord(cfg, s.epoch + 1, swept, now, id);
    }
    assert again.Keys == swept.Keys;
    hide SweptAll, Evictions, Reissued;
    if Planning(swept) != s.announced && now - s.changedAt < cfg.dwell {
      assert e.events[|evictions|].Deferred?;
    }
    assert Planning(again) == Planning(swept);
  }

  // The shards of a pooled plan, seen from the seats.
  ghost predicate OneShardEach(seats: Seats, s: seq<Placement.Assignment>) {
    && |s| == 4
    && (forall k :: 0 <= k < |s| ==> s[k].nodeID in seats.platformOf)
    && (forall p :: HasShard(seats, s, p))
  }

  ghost predicate HasShard(seats: Seats, s: seq<Placement.Assignment>, p: Platform) {
    exists k :: 0 <= k < |s| && s[k].nodeID in seats.platformOf && seats.platformOf[s[k].nodeID] == p
  }

  lemma PlanFromIsWhole(policy: Placement.Policy, s: PoolState, model: Placement.ModelSpec, estimate: real, now: real)
    requires SeatsHeld(s.seats) && SeatedAreIn(s)
    requires PlanFrom(policy, s, model, estimate, now).Ok? && PlanFrom(policy, s, model, estimate, now).value.Some?
    ensures
      var r := PlanFrom(policy, s, model, estimate, now).value.value;
      && r.platforms == [Android, Ios, Macos, Windows]
      && OneShardEach(s.seats, r.plan.assignments)
      && r.plan.epoch == s.members.epoch
      && Placement.Tiles(r.plan.assignments, model.layerCount)
      && r.totalUsable >= model.totalWeightBytes + 4 * model.overheadBytes
  {
    var members := PlanningMembers(s.members);
    PlanningMembersFacts(s);
    var plan := Placement.PlanOf(policy, model, members, s.members.epoch, now, estimate);
    hide PlanningMembers, SeatedAreIn, Placement.PlanOf, Placement.EligibleMembers;
    ChosenAreEligible(policy, model, members, s.members.epoch, now, estimate);
    Placement.PlanIsSound(policy, model, members, s.members.epoch, now, estimate);
    var chosen, shards := AssignedMembers(members, AssignedNodes(plan.value)), plan.value.assignments;
    forall i | 0 <= i < |chosen|
      ensures shards[i].nodeID == chosen[i].profile.nodeID
    {
      assert Placement.Holds(model, chosen[i], shards[i]);
    }
    ShardsArePlatforms(s.seats, chosen, shards);
    BytesWithin(model, chosen, shards);
  }

  lemma {:induction false} PlatformsAreAll(seats: Seats, chosen: seq<PlannedMember>)
    requires InNodeOrder(chosen) && SeatsHeld(seats)
    requires forall m :: m in chosen ==> m.profile.nodeID in seats.platformOf
    requires AsPlatforms(SortedPlatformsOf(chosen, seats)) == AllRequired
    ensures SortedPlatformsOf(chosen, seats) == [Android, Ios, Macos, Windows]
    ensures |chosen| == |PlatformsOf(chosen, seats)| == 4
    ensures forall p :: p in PlatformsOf(chosen, seats)
  {
    ByNameIsOrder();
    var ps, sorted := PlatformsOf(chosen, seats), SortedPlatformsOf(chosen, seats);
    assert sorted == Sort(ByName, ps);
    PlatformsInOrder(chosen, seats);
    hide SortedPlatformsOf, Sort, PlatformsOf, SeatsHeld, InNodeOrder;
    PermutationFacts(ps, sorted);
    SortedPlatforms(sorted);
    forall p
      ensures p in ps
    {
      EveryPlatform(p);
    }
  }

  lemma ShardsArePlatforms(seats: Seats, chosen: seq<PlannedMember>, s: seq<Placement.Assignment>)
    requires InNodeOrder(chosen) && SeatsHeld(seats) && |s| == |chosen|
    requires forall m :: m in chosen ==> m.profile.nodeID in seats.platformOf
    requires forall i :: 0 <= i < |chosen| ==> s[i].nodeID == chosen[i].profile.nodeID
    requires AsPlatforms(SortedPlatformsOf(chosen, seats)) == AllRequired
    ensures SortedPlatformsOf(chosen, seats) == [Android, Ios, Macos, Windows]
    ensures OneShardEach(seats, s)
  {
    var ps := PlatformsOf(chosen, seats);
    PlatformsAreAll(seats, chosen);
    PlatformsInOrder(chosen, seats);
    hide SortedPlatformsOf, PlatformsOf, SeatsHeld, InNodeOrder, OneShardEach, AsPlatforms;
    forall k | 0 <= k < |s|
      ensures s[k].nodeID in seats.platformOf && seats.platformOf[s[k].nodeID] == ps[k]
    {
      assert chosen[k] in chosen;
    }
    ShardPerPlatform(seats, ps, s);
  }

  lemma ShardPerPlatform(seats: Seats, ps: seq<Platform>, s: seq<Placement.Assignment>)
    requires |s| == |ps| == 4 && forall p :: p in ps
    requires forall k :: 0 <= k < |s| ==> s[k].nodeID in seats.platformOf && seats.platformOf[s[k].nodeID] == ps[k]
    ensures OneShardEach(seats, s)
  {
    forall p
      ensures HasShard(seats, s, p)
    {
      assert p in ps;
      var k :| 0 <= k < |ps| && ps[k] == p;
      assert s[k].nodeID in seats.platformOf;
    }
  }

  /**
   * In every run in which no connection has cost a planning member its seat, any plan the pool
   * returns has exactly four shards, one a platform, at the current epoch, for a planning set
   * that is the one last announced; they cover the model's layers, and the pooled memory pays
   * for all of it.
   */
  lemma {:induction false} PooledPlanIsWhole(
    cfg: Config, epoch: nat, start: real, calls: seq<PoolCall>,
    policy: Placement.Policy, model: Placement.ModelSpec, estimate: real, now: real)
    requires NoSeatLost(cfg, epoch, start, calls)
    requires
      var r := PlanRAM(cfg, policy, ExecPool(cfg, epoch, start, calls), model, estimate, now).1;
      r.Ok? && r.value.Some?
    ensures
      var (after, r) := PlanRAM(cfg, policy, ExecPool(cfg, epoch, start, calls), model, estimate, now);
      var pooled := r.value.value;
      && pooled.platforms == [Android, Ios, Macos, Windows]
      && OneShardEach(after.seats, pooled.plan.assignments)
      && pooled.plan.epoch == after.members.epoch
      && Planning(after.members.storage) == after.members.announced
      && Placement.Tiles(pooled.plan.assignments, model.layerCount)
      && pooled.totalUsable >= model.totalWeightBytes + 4 * model.overheadBytes
  {
    var s := ExecPool(cfg, epoch, start, calls);
    SeatedThroughoutIff(cfg, epoch, start, calls);
    SeatedAreNotSuspended(cfg, epoch, start, calls);
    NoSeatIsShared(cfg, epoch, start, calls);
    TickKeepsSeats(cfg, s, now);
    assert SeatedAreIn(PoolTicked(cfg, s, now).after);
    hide ExecPool, NoSeatLost, SeatedThroughout, PlanningSeated, SeatedAreAwake, SeatedAreIn, SeatsHeld;
    hide PoolTicked, PlanFrom, HasDeferral;
    SettledUnlessDeferred(cfg, s, now);
    PlanFromIsWhole(policy, PoolTicked(cfg, s, now).after, model, estimate, now);
  }
}
