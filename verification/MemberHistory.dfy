/**
 * What a member's record says, told from the history of calls: the state its stay began in, the
 * profile it last published, the lease it was last granted; and so who may hold a required stage.
 */
module MemberHistory {
  import opened Base
  import opened Capability
  import opened Membership
  import opened MembershipRuns
  import Placement

  // The node is not in: unknown, or suspended.
  predicate IsOut(s: Members, id: NodeID) {
    id in s.storage ==> s.storage[id].state == Suspended
  }

  // The profile whose appearance began the node's latest stay.
  function BeganWith(cfg: Config, init: Members, calls: seq<Call>, id: NodeID): Option<Profile> {
    if calls == [] then None
    else
      var before, last := calls[..|calls| - 1], calls[|calls| - 1].op;
      if last.Appear? && last.profile.nodeID == id && IsOut(Exec(cfg, init, before).members, id)
      then Some(last.profile)
      else BeganWith(cfg, init, before, id)
  }

  // The profile it published last.
  function LastProfile(calls: seq<Call>, id: NodeID): Option<Profile> {
    if calls == [] then None
    else
      var last := calls[|calls| - 1].op;
      if last.Appear? && last.profile.nodeID == id then Some(last.profile)
      else LastProfile(calls[..|calls| - 1], id)
  }

  datatype Grant = Grant(at: real, profile: Profile)

  // When the node was last granted a lease, and for which profile: by joining, by a heartbeat
  // while it was in, or with everybody else by a new epoch.
  function Granted(cfg: Config, init: Members, calls: seq<Call>, id: NodeID): Option<Grant> {
    if calls == [] then None
    else
      var before, last := calls[..|calls| - 1], calls[|calls| - 1];
      var s, p := Exec(cfg, init, before).members, LastProfile(calls, id);
      var grants :=
        match last.op
        case Appear(q) => q.nodeID == id && IsOut(s, id)
        case Succeed(x) => x == id && id in Planning(s.storage)
        case Tick => Do(cfg, s, last).after.epoch > s.epoch && id in Planning(Do(cfg, s, last).after.storage)
        case _ => false;
      if grants && p.Some? then Some(Grant(last.now, p.value)) else Granted(cfg, init, before, id)
  }

  // When it was last heard from: an appearance, a heartbeat, or its drain, once it is known.
  function LastHeard(cfg: Config, init: Members, calls: seq<Call>, id: NodeID): Option<real> {
    if calls == [] then None
    else
      var before, last := calls[..|calls| - 1], calls[|calls| - 1];
      var s := Exec(cfg, init, before).members;
      var heard :=
        match last.op
        case Appear(q) => q.nodeID == id
        case Succeed(x) => x == id && id in s.storage
        case Drain(x) => x == id && id in Planning(s.storage)
        case _ => false;
      if heard then Some(last.now) else LastHeard(cfg, init, before, id)
  }

  // The record agrees with the history.
  ghost predicate Told(
    cfg: Config, s: Members, id: NodeID, began: Option<Profile>, latest: Option<Profile>, grant: Option<Grant>,
    heard: Option<real>)
  {
    && (id in s.storage <==> latest.Some?)
    && (id in s.storage ==>
          var r := s.storage[id];
          && Some(r.profile) == latest && r.profile.nodeID == id && Some(r.lastHeardFrom) == heard
          && grant.Some? && r.lease.Some?
          && r.lease.value.issuedAt == grant.value.at
          && r.lease.value.expiresAt == grant.value.at + Lasting(cfg, grant.value.profile)
          && (r.state.Plans() ==>
                && began.Some?
                && (r.state == ActiveCore <==> began.value.declaresRequired && began.value.connectivity == CoreDesktop)
                && (r.state == ActiveElastic
                    <==> began.value.declaresRequired && began.value.connectivity == ElasticMobile)))
  }

  // The configured length, or what the operating system can honour if that is less: 300 seconds
  // on a desktop, 120 under an Android foreground service, 30 where the app is suspended.
  function Lasting(cfg: Config, p: Profile): real {
    var most := if p.backgroundLink == DesktopUnrestricted then 300.0
                else if p.backgroundLink == AndroidForegroundService then 120.0
                else 30.0;
    if most <= cfg.leaseDuration then most else cfg.leaseDuration
  }

  lemma DurationIsLasting(cfg: Config, p: Profile)
    ensures Duration(cfg, p) == Lasting(cfg, p)
  {
  }

  lemma {:induction false} DoTells(cfg: Config, init: Members, calls: seq<Call>, id: NodeID)
    requires calls != [] && !calls[|calls| - 1].op.Generic?
    requires
      var before := calls[..|calls| - 1];
      Told(cfg, Exec(cfg, init, before).members, id, BeganWith(cfg, init, before, id), LastProfile(before, id),
           Granted(cfg, init, before, id), LastHeard(cfg, init, before, id))
    ensures
      Told(cfg, Do(cfg, Exec(cfg, init, calls[..|calls| - 1]).members, calls[|calls| - 1]).after, id,
           BeganWith(cfg, init, calls, id), LastProfile(calls, id), Granted(cfg, init, calls, id),
           LastHeard(cfg, init, calls, id))
  {
    hide Ticked, Exec, Lasting, Duration;
    var before, last := calls[..|calls| - 1], calls[|calls| - 1];
    var s := Exec(cfg, init, before).members;
    match last.op
    case Tick =>
      if id in s.storage {
        SweptRecord(cfg, s, last.now, id);
        DurationIsLasting(cfg, s.storage[id].profile);
      } else {
        TickAddsNobody(cfg, s, last.now, id);
      }
    case Appear(p) => DurationIsLasting(cfg, p);
    case Succeed(x) =>
      if x in s.storage {
        DurationIsLasting(cfg, s.storage[x].profile);
      }
    case _ =>
  }

  /**
   * In every run without the generic event a planning member's state is the one its stay began in:
   * core exactly for a desktop that declared it can hold required stages, elastic exactly for an
   * elastic mobile that did, and opportunistic otherwise, whatever it publishes later. Its profile
   * is the last it published, it was last heard from when it last gave a sign, and its lease runs
   * from its last grant for exactly the configured time or what its operating system can honour.
   */
  lemma {:induction false} RecordIsHistory(cfg: Config, epoch: nat, start: real, calls: seq<Call>, id: NodeID)
    requires NoGeneric(calls)
    ensures
      var init := Membership.Fresh(epoch, start);
      Told(cfg, Exec(cfg, init, calls).members, id, BeganWith(cfg, init, calls, id), LastProfile(calls, id),
           Granted(cfg, init, calls, id), LastHeard(cfg, init, calls, id))
  {
    if calls != [] {
      hide Do, Exec, Told, BeganWith, LastProfile, Granted, LastHeard;
      var init := Membership.Fresh(epoch, start);
      RecordIsHistory(cfg, epoch, start, calls[..|calls| - 1], id);
      ExecStep(cfg, init, calls);
      DoTells(cfg, init, calls, id);
    }
  }

  // ----- who may hold a required stage -----

  predicate TrustedEnough(trust: Trust, least: Trust) {
    least == Untrusted || trust == TrustedCore || (least == SemiTrustedEdge && trust == SemiTrustedEdge)
  }

  predicate Strained(p: Power) {
    p.thermal in {Serious, Critical} || (!p.isWallPowered && p.battery.Some? && p.battery.value < 0.2)
  }

  // The node joined, and still declares, as one that can hold required stages; it is trusted
  // enough, not under duress where that counts, and its lease outlasts the estimate.
  ghost predicate Fit(
    cfg: Config, policy: Placement.Policy, began: Profile, latest: Profile, grant: Grant, now: real, estimate: real)
  {
    && began.declaresRequired && began.connectivity != OpportunisticMobile && latest.declaresRequired
    && TrustedEnough(latest.trust, policy.minimumTrust)
    && (policy.excludeDuress ==> !Strained(latest.power))
    && (policy.requireLease ==>
          var ends := grant.at + Lasting(cfg, grant.profile);
          now < ends && now + estimate < ends)
  }

  /**
   * Who is eligible, in every run without the generic event, on what the node published: so a
   * declaring desktop with enough trust, no duress and a lease that outlasts the stage is, and a
   * node that did not declare, or joined as an opportunistic mobile, never is.
   */
  lemma {:induction false} EligibleIffFit(
    cfg: Config, epoch: nat, start: real, calls: seq<Call>, id: NodeID, policy: Placement.Policy, now: real,
    estimate: real)
    requires NoGeneric(calls)
    ensures
      var init := Membership.Fresh(epoch, start);
      var s := Exec(cfg, init, calls).members;
      id in s.storage ==>
        var member := PlannedMember(s.storage[id].profile, s.storage[id].state, s.storage[id].lease);
        var began, latest, grant :=
          BeganWith(cfg, init, calls, id), LastProfile(calls, id), Granted(cfg, init, calls, id);
        Placement.Eligible(policy, member, now, estimate)
        <==> id in Planning(s.storage) && began.Some? && latest.Some? && grant.Some?
             && Fit(cfg, policy, began.value, latest.value, grant.value, now, estimate)
  {
    hide Exec, BeganWith, LastProfile, Granted, LastHeard, Lasting;
    RecordIsHistory(cfg, epoch, start, calls, id);
    LeasesAreCurrent(cfg, epoch, start, calls, id);
  }

  // ----- when the next epoch can begin -----

  // When the last epoch began, or the service itself.
  function ChangedAt(cfg: Config, init: Members, calls: seq<Call>): real {
    if calls == [] then init.changedAt
    else
      var before, last := calls[..|calls| - 1], calls[|calls| - 1];
      var s := Exec(cfg, init, before).members;
      if Do(cfg, s, last).after.epoch > s.epoch then last.now else ChangedAt(cfg, init, before)
  }

  lemma {:induction false} ChangesAreRecorded(cfg: Config, init: Members, calls: seq<Call>)
    ensures Exec(cfg, init, calls).members.changedAt == ChangedAt(cfg, init, calls)
  {
    if calls != [] {
      hide Do, Exec;
      ChangesAreRecorded(cfg, init, calls[..|calls| - 1]);
      ExecStep(cfg, init, calls);
      DoSpaces(cfg, Exec(cfg, init, calls[..|calls| - 1]).members, calls[|calls| - 1]);
    }
  }

  // What a tick announces, after its evictions.
  lemma NewsOf(cfg: Config, s: Members, now: real)
    ensures
      var e := Ticked(cfg, s, now);
      var plan, waits := Planning(e.after.storage), cfg.dwell - (now - s.changedAt);
      && (forall left :: Deferred(left) in e.events <==> plan != s.announced && waits > 0.0 && left == waits)
      && (forall n, listed :: EpochChanged(n, listed) in e.events
            <==> plan != s.announced && waits <= 0.0 && n == s.epoch + 1 && listed == Sorted(plan))
  {
    EvictionsAreQuiet(cfg, s, now);
    PlanAfter(cfg, s, now);
    hide SweptAll, Evictions, Reissued, Planning, Sorted;
    var e, evictions := Ticked(cfg, s, now), Evictions(cfg, s, now);
    assert |e.events| > |evictions| ==> e.events[|evictions|] in e.events;
  }

  lemma PlanAfter(cfg: Config, s: Members, now: real)
    ensures Planning(Ticked(cfg, s, now).after.storage) == Planning(SweptAll(cfg, s, now))
  {
    var swept := SweptAll(cfg, s, now);
    forall id | id in swept
      ensures ReissuedState(cfg, s.epoch + 1, swept, now, id) == swept[id].state
    {
      ReissuedRecord(cfg, s.epoch + 1, swept, now, id);
    }
    assert Reissued(cfg, s.epoch + 1, swept, swept.Keys, now).Keys == swept.Keys;
    hide SweptAll, Evictions, Reissued;
  }

  function ReissuedState(cfg: Config, epoch: nat, storage: map<NodeID, Record>, now: real, id: NodeID): NodeState
    requires id in storage
  {
    ReissuedRecord(cfg, epoch, storage, now, id);
    Reissued(cfg, epoch, storage, storage.Keys, now)[id].state
  }

  /**
   * What a tick says of the epoch, in every run: when the planning set it leaves is not the one last
   * announced, it begins the next epoch with that set once the dwell time has passed since the
   * last, and before that defers it for exactly the time still to pass; otherwise it says nothing.
   */
  lemma {:induction false} EpochNewsIsExact(cfg: Config, epoch: nat, start: real, calls: seq<Call>, now: real)
    ensures
      var init := Membership.Fresh(epoch, start);
      var w := Exec(cfg, init, calls);
      var e := Ticked(cfg, w.members, now);
      var changed := Planning(e.after.storage) != LastAnnounced(w.history);
      var waits := cfg.dwell - (now - ChangedAt(cfg, init, calls));
      && (forall left :: Deferred(left) in e.events <==> changed && waits > 0.0 && left == waits)
      && (forall n, listed :: EpochChanged(n, listed) in e.events
            <==> changed && waits <= 0.0 && n == epoch + Announcements(w.history) + 1
                 && listed == Sorted(Planning(e.after.storage)))
  {
    hide Exec, Ticked, Planning, Sorted, ChangedAt, Announcements, LastAnnounced;
    EpochsAreSpaced(cfg, epoch, start, calls);
    ChangesAreRecorded(cfg, Membership.Fresh(epoch, start), calls);
    NewsOf(cfg, Exec(cfg, Membership.Fresh(epoch, start), calls).members, now);
  }
}
