/** Exactly when the pool returns a plan, an error, or neither, in every run. */
module PoolOutcome {
  import opened Base
  import opened Capability
  import opened Sorting
  import opened Membership
  import opened MembershipRuns
  import opened Pool
  import opened PoolRuns
  import opened PooledPlan
  import opened MemberHistory
  import Placement

  // ----- a deferral is an unannounced planning set -----

  lemma {:induction false} ReportedDeferral(seats: Seats, events: seq<Event>)
    requires HasDeferral(ReportedAll(seats, events))
    ensures exists k :: 0 <= k < |events| && events[k].Deferred?
  {
    var before, last := events[..|events| - 1], events[|events| - 1];
    var all, first := ReportedAll(seats, events), ReportedAll(seats, before);
    var k :| 0 <= k < |all| && all[k].EpochDeferred?;
    if k < |first| {
      assert first[k].EpochDeferred?;
      ReportedDeferral(seats, before);
      var j :| 0 <= j < |before| && before[j].Deferred?;
      assert events[j].Deferred?;
    } else {
      assert last.Deferred?;
    }
  }

  // A tick that defers an epoch changes nothing but the records it sweeps.
  lemma DeferralIsUnannounced(cfg: Config, s: Members, now: real)
    ensures
      var e := Ticked(cfg, s, now);
      (exists k :: 0 <= k < |e.events| && e.events[k].Deferred?) ==> Planning(e.after.storage) != e.after.announced
  {
    EvictionsAreQuiet(cfg, s, now);
    hide SweptAll, Reissued, Evictions, Planning;
  }

  /** The pool's tick reports a deferral exactly when it leaves a planning set not yet announced. */
  lemma DeferredIffUnannounced(cfg: Config, s: PoolState, now: real)
    ensures
      var e := PoolTicked(cfg, s, now);
      HasDeferral(e.events) <==> Planning(e.after.members.storage) != e.after.members.announced
  {
    hide HasDeferral, Ticked, ReportedAll, VacatedAll, Planning;
    var e := PoolTicked(cfg, s, now);
    if HasDeferral(e.events) {
      ReportedDeferral(s.seats, Ticked(cfg, s.members, now).events);
      DeferralIsUnannounced(cfg, s.members, now);
    } else {
      SettledUnlessDeferred(cfg, s, now);
    }
  }

  // ----- when every platform holds a shard -----

  // The platform's seat is held by a planning member that may hold a required stage.
  ghost predicate Ready(policy: Placement.Policy, s: PoolState, p: Platform, now: real, estimate: real) {
    && p in s.seats.nodeOf
    && var id := s.seats.nodeOf[p];
       && id in s.seats.platformOf && s.seats.platformOf[id] == p
       && id in Planning(s.members.storage)
       && Placement.Eligible(policy, MemberOf(s.members, id), now, estimate)
  }

  lemma {:induction false} PlatformsOfChosen(chosen: seq<PlannedMember>, seats: Seats, p: Platform)
    ensures p in PlatformsOf(chosen, seats)
            <==> exists m :: m in chosen && m.profile.nodeID in seats.platformOf
                             && seats.platformOf[m.profile.nodeID] == p
  {
    if chosen != [] {
      var front, last := chosen[..|chosen| - 1], chosen[|chosen| - 1];
      PlatformsOfChosen(front, seats, p);
      assert chosen == front + [last];
      assert forall m :: m in chosen <==> m in front || m == last;
    }
  }

  ghost predicate HasEvery(ps: seq<Platform>) {
    forall p: Platform :: p in ps
  }

  lemma HasEveryIff(ps: seq<Platform>)
    ensures AsPlatforms(ps) == AllRequired <==> HasEvery(ps)
  {
    forall p: Platform
      ensures p in AllRequired && (p in AsPlatforms(ps) <==> p in ps)
    {
      EveryPlatform(p);
    }
  }

  lemma AllPlatformsIff(chosen: seq<PlannedMember>, seats: Seats)
    ensures AsPlatforms(SortedPlatformsOf(chosen, seats)) == AllRequired <==> HasEvery(PlatformsOf(chosen, seats))
  {
    ByNameIsOrder();
    hide PlatformsOf, Sort, AsPlatforms;
    var ps, sorted := PlatformsOf(chosen, seats), SortedPlatformsOf(chosen, seats);
    PermutationFacts(ps, sorted);
    HasEveryIff(sorted);
    assert forall p :: p in sorted <==> p in ps;
  }

  // The eligible members sit on all platforms exactly when every platform is ready.
  lemma ReadyIff(
    policy: Placement.Policy, s: PoolState, chosen: seq<PlannedMember>, p: Platform, now: real, estimate: real)
    requires OwnKeys(s.members) && SeatsHeld(s.seats)
    requires forall m :: m in chosen <==>
               m in PlanningMembers(s.members) && Placement.Eligible(policy, m, now, estimate)
    ensures p in PlatformsOf(chosen, s.seats) <==> Ready(policy, s, p, now, estimate)
  {
    hide PlanningMembers, PlatformsOf, Placement.Eligible;
    PlanningMembersAre(s.members);
    PlatformsOfChosen(chosen, s.seats, p);
    if Ready(policy, s, p, now, estimate) {
      assert MemberOf(s.members, s.seats.nodeOf[p]) in chosen;
    }
  }

  lemma PlanFromIff(policy: Placement.Policy, s: PoolState, model: Placement.ModelSpec, estimate: real, now: real)
    requires OwnKeys(s.members) && SeatsHeld(s.seats)
    ensures
      var r := PlanFrom(policy, s, model, estimate, now);
      var members := PlanningMembers(s.members);
      var plan := Placement.PlanOf(policy, model, members, s.members.epoch, now, estimate);
      && (r.Err? <==> Planning(s.members.storage) != {} && plan.Err?)
      && (r.Err? ==> r.error == plan.error)
      && (r.Ok? && r.value.Some? <==> plan.Ok? && forall p: Platform :: Ready(policy, s, p, now, estimate))
      && (r.Ok? && r.value.Some? ==>
            && r.value.value.plan == plan.value
            && r.value.value.totalUsable == UsableSum(Placement.EligibleMembers(policy, members, now, estimate)))
  {
    hide PlanningMembers, Placement.PlanOf, Placement.EligibleMembers, Ready, SortedPlatformsOf, PlatformsOf;
    hide Placement.Eligible, AsPlatforms, AssignedMembers, AssignedNodes, UsableSum, SeatsHeld;
    var members := PlanningMembers(s.members);
    var plan := Placement.PlanOf(policy, model, members, s.members.epoch, now, estimate);
    PlanningMembersAre(s.members);
    if plan.Ok? {
      NobodyNoPlan(policy, model, members, s.members.epoch, now, estimate);
      ChosenAreEligible(policy, model, members, s.members.epoch, now, estimate);
      var chosen := AssignedMembers(members, AssignedNodes(plan.value));
      Placement.EligibleFacts(policy, members, now, estimate);
      AllPlatformsIff(chosen, s.seats);
      forall p: Platform
        ensures p in PlatformsOf(chosen, s.seats) <==> Ready(policy, s, p, now, estimate)
      {
        ReadyIff(policy, s, chosen, p, now, estimate);
      }
      assert HasEvery(PlatformsOf(chosen, s.seats)) <==> forall p: Platform :: Ready(policy, s, p, now, estimate);
    }
  }

  lemma NobodyNoPlan(
    policy: Placement.Policy, model: Placement.ModelSpec, members: seq<PlannedMember>, epoch: nat, now: real,
    estimate: real)
    requires Placement.PlanOf(policy, model, members, epoch, now, estimate).Ok?
    ensures members != []
  {
    Placement.EligibleFacts(policy, members, now, estimate);
    hide Placement.EligibleMembers, Placement.Eligible, Placement.Assigned, Placement.LayerCounts;
    var e := Placement.EligibleMembers(policy, members, now, estimate);
    assert e[0] in e;
  }

  // Every platform is seated before and after the tick, which leaves no announcement waiting.
  ghost predicate Open(cfg: Config, s: PoolState, now: real) {
    var after := PoolTicked(cfg, s, now).after;
    HasAll(s.seats) && HasAll(after.seats) && Planning(after.members.storage) == after.members.announced
  }

  /**
   * What asking for a plan gives, in every run. The pool ticks if every platform is seated, and then
   * it returns a plan exactly when every platform still is, the planning set is the one announced
   * (be it by this very tick), the planner accepts the planning members, and every platform's seat
   * is held by one of them that is eligible; the planner's error exactly when it refuses them
   * under the same guards; and otherwise nothing.
   */
  lemma {:induction false} PoolPlansIff(
    cfg: Config, epoch: nat, start: real, calls: seq<PoolCall>,
    policy: Placement.Policy, model: Placement.ModelSpec, estimate: real, now: real)
    ensures
      var s := ExecPool(cfg, epoch, start, calls);
      var (after, r) := PlanRAM(cfg, policy, s, model, estimate, now);
      var members := PlanningMembers(after.members);
      var plan := Placement.PlanOf(policy, model, members, after.members.epoch, now, estimate);
      && after == (if HasAll(s.seats) then PoolTicked(cfg, s, now).after else s)
      && (r.Ok? && r.value.Some?
          <==> Open(cfg, s, now) && plan.Ok? && forall p: Platform :: Ready(policy, after, p, now, estimate))
      && (r.Ok? && r.value.Some? ==>
            && r.value.value.plan == plan.value
            && r.value.value.totalUsable == UsableSum(Placement.EligibleMembers(policy, members, now, estimate)))
      && (r.Err? <==> Open(cfg, s, now) && Planning(after.members.storage) != {} && plan.Err?)
      && (r.Err? ==> r.error == plan.error)
  {
    hide ExecPool, PoolTicked, PlanFrom, Placement.PlanOf, PlanningMembers, Placement.EligibleMembers, Ready;
    hide SeatsHeld, HasDeferral, UsableSum;
    var s := ExecPool(cfg, epoch, start, calls);
    SeatedAreNotSuspended(cfg, epoch, start, calls);
    NoSeatIsShared(cfg, epoch, start, calls);
    TickKeepsSeats(cfg, s, now);
    DeferredIffUnannounced(cfg, s, now);
    PlanFromIff(policy, PoolTicked(cfg, s, now).after, model, estimate, now);
  }

  // ----- the memory a plan reports -----

  function SeatMemory(s: PoolState, p: Platform): int {
    if p in s.seats.nodeOf && s.seats.nodeOf[p] in s.members.storage
    then s.members.storage[s.seats.nodeOf[p]].profile.usableBytes else 0
  }

  function SeatSum(s: PoolState, ps: seq<Platform>): int {
    if ps == [] then 0 else SeatSum(s, ps[..|ps| - 1]) + SeatMemory(s, ps[|ps| - 1])
  }

  lemma {:induction false} SeatSumAppend(s: PoolState, a: seq<Platform>, b: seq<Platform>)
    ensures SeatSum(s, a + b) == SeatSum(s, a) + SeatSum(s, b)
  {
    hide SeatMemory;
    if b == [] {
      assert a + b == a;
    } else {
      assert (a + b)[..|a + b| - 1] == a + b[..|b| - 1];
      SeatSumAppend(s, a, b[..|b| - 1]);
    }
  }

  lemma {:induction false} SeatSumPermuted(s: PoolState, a: seq<Platform>, b: seq<Platform>)
    requires multiset(a) == multiset(b)
    ensures SeatSum(s, a) == SeatSum(s, b)
  {
    hide SeatMemory;
    if a == [] {
      assert |b| == |multiset(b)| == 0;
    } else {
      var front, last := a[..|a| - 1], a[|a| - 1];
      assert a == front + [last];
      assert last in multiset(b);
      var k :| 0 <= k < |b| && b[k] == last;
      assert b == b[..k] + [last] + b[k + 1..];
      Pluck(b, k);
      assert multiset(a) == multiset{last} + multiset(front);
      DropOne(multiset(front), multiset(b[..k] + b[k + 1..]), last);
      SeatSumPermuted(s, front, b[..k] + b[k + 1..]);
      SeatSumAppend(s, b[..k], b[k + 1..]);
      SeatSumAppend(s, b[..k] + [last], b[k + 1..]);
      SeatSumAppend(s, b[..k], [last]);
      SeatSumAppend(s, front, [last]);
    }
  }

  lemma {:induction false} UsableBySeats(s: PoolState, chosen: seq<PlannedMember>)
    requires OwnKeys(s.members) && SeatsHeld(s.seats)
    requires forall m :: m in chosen ==>
      && m.profile.nodeID in s.members.storage && m == MemberOf(s.members, m.profile.nodeID)
      && m.profile.nodeID in s.seats.platformOf
    ensures UsableSum(chosen) == SeatSum(s, PlatformsOf(chosen, s.seats))
  {
    if chosen != [] {
      var front, last := chosen[..|chosen| - 1], chosen[|chosen| - 1];
      assert last in chosen;
      UsableBySeats(s, front);
      SeatSumAppend(s, PlatformsOf(front, s.seats), [s.seats.platformOf[last.profile.nodeID]]);
    }
  }

  function FourSeatMemory(s: PoolState): int {
    SeatMemory(s, Android) + SeatMemory(s, Ios) + SeatMemory(s, Macos) + SeatMemory(s, Windows)
  }

  lemma FourSeats(s: PoolState)
    ensures SeatSum(s, [Android, Ios, Macos, Windows]) == FourSeatMemory(s)
  {
    hide SeatMemory;
    SeatSumAppend(s, [Android], [Ios]);
    SeatSumAppend(s, [Android, Ios], [Macos]);
    SeatSumAppend(s, [Android, Ios, Macos], [Windows]);
    assert [Android] + [Ios] == [Android, Ios];
    assert [Android, Ios] + [Macos] == [Android, Ios, Macos];
    assert [Android, Ios, Macos] + [Windows] == [Android, Ios, Macos, Windows];
  }

  lemma PlanFromPools(policy: Placement.Policy, s: PoolState, model: Placement.ModelSpec, estimate: real, now: real)
    requires SeatsHeld(s.seats) && SeatedAreIn(s)
    requires PlanFrom(policy, s, model, estimate, now).Ok? && PlanFrom(policy, s, model, estimate, now).value.Some?
    ensures PlanFrom(policy, s, model, estimate, now).value.value.totalUsable == FourSeatMemory(s)
  {
    hide PlanningMembers, Placement.PlanOf, Placement.EligibleMembers, PlatformsOf, Sort, FourSeatMemory;
    hide AssignedMembers, AssignedNodes, UsableSum;
    var members := PlanningMembers(s.members);
    PlanningMembersAre(s.members);
    var plan := Placement.PlanOf(policy, model, members, s.members.epoch, now, estimate);
    ChosenAreEligible(policy, model, members, s.members.epoch, now, estimate);
    var chosen := AssignedMembers(members, AssignedNodes(plan.value));
    PlatformsAreAll(s.seats, chosen);
    ByNameIsOrder();
    PermutationFacts(PlatformsOf(chosen, s.seats), SortedPlatformsOf(chosen, s.seats));
    SeatSumPermuted(s, PlatformsOf(chosen, s.seats), [Android, Ios, Macos, Windows]);
    UsableBySeats(s, chosen);
    FourSeats(s);
  }

  /** The memory a returned plan reports is that of the four nodes in the seats, each counted once. */
  lemma {:induction false} PooledMemoryIsExact(
    cfg: Config, epoch: nat, start: real, calls: seq<PoolCall>,
    policy: Placement.Policy, model: Placement.ModelSpec, estimate: real, now: real)
    requires NoSeatLost(cfg, epoch, start, calls)
    requires
      var r := PlanRAM(cfg, policy, ExecPool(cfg, epoch, start, calls), model, estimate, now).1;
      r.Ok? && r.value.Some?
    ensures
      var (after, r) := PlanRAM(cfg, policy, ExecPool(cfg, epoch, start, calls), model, estimate, now);
      r.value.value.totalUsable == FourSeatMemory(after)
  {
    hide ExecPool, NoSeatLost, SeatedThroughout, SeatsHeld, PoolTicked, PlanFrom, HasDeferral, FourSeatMemory;
    hide PlanningSeated, SeatedAreAwake;
    var s := ExecPool(cfg, epoch, start, calls);
    SeatedThroughoutIff(cfg, epoch, start, calls);
    SeatedAreNotSuspended(cfg, epoch, start, calls);
    NoSeatIsShared(cfg, epoch, start, calls);
    TickKeepsSeats(cfg, s, now);
    PlanFromPools(policy, PoolTicked(cfg, s, now).after, model, estimate, now);
  }

  // ----- the pool's members are a run of the membership service -----

  function AsCalls(s: PoolState, c: PoolCall): seq<Call> {
    match c.op
    case Connect(platform, p) =>
      var gone := Replaced(s.seats, platform, p.nodeID);
      (if gone.Some? then [Call(Op.Drain(gone.value), c.now)] else []) + [Call(Op.Appear(p), c.now)]
    case Beat(id) => [Call(Op.Succeed(id), c.now)]
    case Miss(id) => [Call(Op.Fail(id), c.now)]
    case Leave(id) => [Call(Op.Drain(id), c.now)]
    case Pass => [Call(Op.Tick, c.now)]
    case Plan(_, _, _) => if HasAll(s.seats) then [Call(Op.Tick, c.now)] else []
  }

  function MemberCalls(cfg: Config, epoch: nat, start: real, calls: seq<PoolCall>): seq<Call> {
    if calls == [] then []
    else
      var before := calls[..|calls| - 1];
      MemberCalls(cfg, epoch, start, before) + AsCalls(ExecPool(cfg, epoch, start, before), calls[|calls| - 1])
  }

  lemma {:induction false} MemberStep(cfg: Config, init: Members, a: seq<Call>, b: Call)
    ensures Exec(cfg, init, a + [b]).members == Do(cfg, Exec(cfg, init, a).members, b).after
  {
    hide Do;
    assert (a + [b])[..|a + [b]| - 1] == a;
  }

  lemma {:induction false} MembersFollow(cfg: Config, s: PoolState, c: PoolCall, init: Members, past: seq<Call>)
    requires s.members == Exec(cfg, init, past).members
    ensures DoPool(cfg, s, c).members == Exec(cfg, init, past + AsCalls(s, c)).members
  {
    hide Exec, Ticked, AnnouncedDrain, Appeared, Succeeded, Failed, VacatedAll, ReportedAll, PlanFrom, Seated;
    var more := AsCalls(s, c);
    if more == [] {
      assert past + more == past;
    } else if |more| == 1 {
      assert more == [more[0]];
      MemberStep(cfg, init, past, more[0]);
    } else {
      assert past + more == (past + [more[0]]) + [more[1]];
      MemberStep(cfg, init, past, more[0]);
      MemberStep(cfg, init, past + [more[0]], more[1]);
    }
  }

  lemma {:induction false} NeverGeneric(cfg: Config, epoch: nat, start: real, calls: seq<PoolCall>)
    ensures NoGeneric(MemberCalls(cfg, epoch, start, calls))
  {
    hide ExecPool;
    if calls != [] {
      NeverGeneric(cfg, epoch, start, calls[..|calls| - 1]);
    }
  }

  lemma {:induction false} NothingRun(cfg: Config, epoch: nat, start: real)
    ensures ExecPool(cfg, epoch, start, []).members == Exec(cfg, Membership.Fresh(epoch, start), []).members
  {
  }

  /** The members of every pool run are those of the run of membership calls it makes. */
  lemma {:induction false} PoolRunsMembership(cfg: Config, epoch: nat, start: real, calls: seq<PoolCall>)
    ensures ExecPool(cfg, epoch, start, calls).members
            == Exec(cfg, Membership.Fresh(epoch, start), MemberCalls(cfg, epoch, start, calls)).members
    ensures NoGeneric(MemberCalls(cfg, epoch, start, calls))
  {
    hide DoPool, Exec, ExecPool, AsCalls, NoGeneric, Membership.Fresh;
    NeverGeneric(cfg, epoch, start, calls);
    if calls == [] {
      NothingRun(cfg, epoch, start);
    } else {
      var before := calls[..|calls| - 1];
      PoolRunsMembership(cfg, epoch, start, before);
      ExecPoolStep(cfg, epoch, start, calls);
      MembersFollow(cfg, ExecPool(cfg, epoch, start, before), calls[|calls| - 1], Membership.Fresh(epoch, start),
                    MemberCalls(cfg, epoch, start, before));
    }
  }

  /**
   * A platform is ready, in every run, exactly when its seat is known to the node it names and that
   * node is in and fit to hold a required stage, on what it has published.
   */
  lemma {:induction false} ReadyIffFit(
    cfg: Config, epoch: nat, start: real, calls: seq<PoolCall>, policy: Placement.Policy, p: Platform, now: real,
    estimate: real)
    ensures
      var s, init, told := ExecPool(cfg, epoch, start, calls), Membership.Fresh(epoch, start),
                           MemberCalls(cfg, epoch, start, calls);
      Ready(policy, s, p, now, estimate)
      <==>
        && p in s.seats.nodeOf
        && var id := s.seats.nodeOf[p];
           && id in s.seats.platformOf && s.seats.platformOf[id] == p && id in Planning(s.members.storage)
           && var began, latest, grant :=
                BeganWith(cfg, init, told, id), LastProfile(told, id), Granted(cfg, init, told, id);
              && began.Some? && latest.Some? && grant.Some?
              && Fit(cfg, policy, began.value, latest.value, grant.value, now, estimate)
  {
    hide ExecPool, Exec, MemberCalls, BeganWith, LastProfile, Granted, Fit, Placement.Eligible;
    var s := ExecPool(cfg, epoch, start, calls);
    PoolRunsMembership(cfg, epoch, start, calls);
    if p in s.seats.nodeOf {
      var told := MemberCalls(cfg, epoch, start, calls);
      EligibleIffFit(cfg, epoch, start, told, s.seats.nodeOf[p], policy, now, estimate);
    }
  }
}
