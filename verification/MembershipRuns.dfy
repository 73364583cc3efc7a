/** What holds in every run of the membership service. */
module MembershipRuns {
  import opened Base
  import opened Capability
  import opened Membership

  // ----- stays: joined, maybe leaving, evicted, and again -----

  datatype Stay = Out | In | Departing | Broken

  // A reader of one node's events that accepts only well-formed stays.
  function Turn(p: Stay, e: Event, id: NodeID): Stay {
    match e
    case Joined(x) => if x != id then p else if p == Out then In else Broken
    case Leaving(x) => if x != id then p else if p == In then Departing else Broken
    case Evicted(x, why) =>
      if x != id then p
      else if (p == Departing && why == Drained) || (p == In && why != Drained) then Out
      else Broken
    case _ => p
  }

  function StayFrom(p: Stay, events: seq<Event>, id: NodeID): Stay {
    if events == [] then p
    else Turn(StayFrom(p, events[..|events| - 1], id), events[|events| - 1], id)
  }

  lemma {:induction false} StayConcat(p: Stay, a: seq<Event>, b: seq<Event>, id: NodeID)
    ensures StayFrom(p, a + b, id) == StayFrom(StayFrom(p, a, id), b, id)
  {
    if b == [] {
      assert a + b == a;
    } else {
      assert (a + b)[..|a + b| - 1] == a + b[..|b| - 1];
      StayConcat(p, a, b[..|b| - 1], id);
    }
  }

  lemma {:induction false} StayOne(p: Stay, e: Event, id: NodeID)
    ensures StayFrom(p, [e], id) == Turn(p, e, id)
  {
    assert [e][..0] == [];
  }

  // The stay a record's state amounts to.
  function StayNow(s: Members, id: NodeID): Stay {
    if id !in s.storage || s.storage[id].state == Suspended then Out
    else if s.storage[id].state == Draining then Departing
    else In
  }

  lemma {:induction false} SweepStay(
    cfg: Config, storage: map<NodeID, Record>, keys: seq<NodeID>, now: real, p: Stay, id: NodeID)
    requires Ascending(keys) && forall x :: x in keys ==> x in storage
    ensures
      StayFrom(p, SweepEvents(cfg, storage, keys, now), id)
      == if id in keys && Verdict(cfg, storage[id], now).Some?
         then Turn(p, Evicted(id, Verdict(cfg, storage[id], now).value), id) else p
  {
    hide Verdict, StayFrom;
    if keys == [] {
      EmptyStay(p, id);
    } else {
      var front, last := keys[..|keys| - 1], keys[|keys| - 1];
      SweepStay(cfg, storage, front, now, p, id);
      assert last !in front;
      assert id in keys <==> id in front || id == last;
      var v := Verdict(cfg, storage[last], now);
      var events := SweepEvents(cfg, storage, front, now);
      if v.Some? {
        StayConcat(p, events, [Evicted(last, v.value)], id);
        StayOne(StayFrom(p, events, id), Evicted(last, v.value), id);
        assert SweepEvents(cfg, storage, keys, now) == events + [Evicted(last, v.value)];
      } else {
        assert SweepEvents(cfg, storage, keys, now) == events;
      }
    }
  }

  lemma {:induction false} EmptyStay(p: Stay, id: NodeID)
    ensures StayFrom(p, [], id) == p
  {
  }

  lemma {:induction false} EvictionsStay(cfg: Config, s: Members, now: real, p: Stay, id: NodeID)
    ensures
      StayFrom(p, Evictions(cfg, s, now), id)
      == if id in s.storage && Verdict(cfg, s.storage[id], now).Some?
         then Turn(p, Evicted(id, Verdict(cfg, s.storage[id], now).value), id) else p
  {
    SweepStay(cfg, s.storage, Sorted(s.storage.Keys), now, p, id);
  }

  lemma TickEvents(cfg: Config, s: Members, now: real)
    ensures
      var events, evictions := Ticked(cfg, s, now).events, Evictions(cfg, s, now);
      || events == evictions
      || (exists e: Event :: (e.EpochChanged? || e.Deferred?) && events == evictions + [e])
  {
    hide SweptAll, Evictions, Reissued, Planning;
  }

  lemma {:induction false} TickStay(cfg: Config, s: Members, now: real, id: NodeID)
    ensures StayFrom(StayNow(s, id), Ticked(cfg, s, now).events, id)
            == StayNow(Ticked(cfg, s, now).after, id)
  {
    hide Ticked, Evictions;
    var p := StayNow(s, id);
    var evictions, events := Evictions(cfg, s, now), Ticked(cfg, s, now).events;
    EvictionsStay(cfg, s, now, p, id);
    TickEvents(cfg, s, now);
    if events != evictions {
      var e: Event :| (e.EpochChanged? || e.Deferred?) && events == evictions + [e];
      StayConcat(p, evictions, [e], id);
      StayOne(StayFrom(p, evictions, id), e, id);
    }
    if id in s.storage {
      SweptRecord(cfg, s, now, id);
    } else {
      TickAddsNobody(cfg, s, now, id);
    }
  }

  lemma {:induction false} DoStay(cfg: Config, s: Members, c: Call, id: NodeID)
    requires !c.op.Generic?
    ensures StayFrom(StayNow(s, id), Do(cfg, s, c).events, id) == StayNow(Do(cfg, s, c).after, id)
  {
    hide Ticked;
    if c.op.Tick? {
      TickStay(cfg, s, c.now, id);
    } else if Do(cfg, s, c).events != [] {
      StayOne(StayNow(s, id), Do(cfg, s, c).events[0], id);
    }
  }

  lemma {:induction false} RunStay(cfg: Config, init: Members, calls: seq<Call>, id: NodeID)
    requires NoGeneric(calls) && init.storage == map[]
    ensures StayFrom(Out, Exec(cfg, init, calls).history, id) == StayNow(Exec(cfg, init, calls).members, id)
  {
    if calls != [] {
      hide Exec, Do, StayNow;
      var before, last := calls[..|calls| - 1], calls[|calls| - 1];
      RunStay(cfg, init, before, id);
      var w := Exec(cfg, init, before);
      ExecStep(cfg, init, calls);
      StayConcat(Out, w.history, Do(cfg, w.members, last).events, id);
      DoStay(cfg, w.members, last, id);
    }
  }

  /**
   * In every run without the generic event call, what a node's events say is what its record
   * says: the node is suspended (or unknown) exactly when its stays so far have all ended, and
   * its events never leave the pattern joined, at most one leaving, evicted; a stay that
   * announced it is leaving ends as drained, and only such a stay does.
   */
  lemma {:induction false} StaysAreTruthful(cfg: Config, epoch: nat, start: real, calls: seq<Call>, id: NodeID)
    requires NoGeneric(calls)
    ensures
      var w := Exec(cfg, Fresh(epoch, start), calls);
      var stay := StayFrom(Out, w.history, id);
      && stay != Broken
      && (stay == Out <==> id !in w.members.storage || w.members.storage[id].state == Suspended)
      && (stay == Departing <==> id in w.members.storage && w.members.storage[id].state == Draining)
      && (stay == In <==> id in Planning(w.members.storage))
  {
    RunStay(cfg, Fresh(epoch, start), calls, id);
  }

  predicate IsTurn(e: Event, id: NodeID) {
    (e.Joined? && e.id == id) || (e.Evicted? && e.id == id)
  }

  ghost predicate LeftBetween(h: seq<Event>, id: NodeID, i: nat, k: nat)
    requires i < k <= |h|
  {
    exists l :: i < l < k && h[l] == Leaving(id)
  }

  lemma {:induction false} BrokenStays(h: seq<Event>, id: NodeID, k: nat)
    requires k <= |h| && StayFrom(Out, h[..k], id) == Broken
    ensures StayFrom(Out, h, id) == Broken
    decreases |h| - k
  {
    if k == |h| {
      assert h[..k] == h;
    } else {
      assert h[..k + 1][..k] == h[..k];
      BrokenStays(h, id, k + 1);
    }
  }

  lemma {:induction false} StayBetween(h: seq<Event>, id: NodeID, i: nat, k: nat)
    requires i < k <= |h| && StayFrom(Out, h, id) != Broken && IsTurn(h[i], id)
    requires forall l :: i < l < k ==> !IsTurn(h[l], id)
    ensures
      StayFrom(Out, h[..k], id)
      == if h[i].Evicted? then Out else if LeftBetween(h, id, i, k) then Departing else In
  {
    assert h[..k][..k - 1] == h[..k - 1];
    if StayFrom(Out, h[..k], id) == Broken {
      BrokenStays(h, id, k);
    }
    if k > i + 1 {
      StayBetween(h, id, i, k - 1);
      assert LeftBetween(h, id, i, k) <==> LeftBetween(h, id, i, k - 1) || h[k - 1] == Leaving(id);
    }
  }

  lemma {:induction false} StayBefore(h: seq<Event>, id: NodeID, k: nat)
    requires k <= |h| && StayFrom(Out, h, id) != Broken
    requires forall l :: 0 <= l < k ==> !IsTurn(h[l], id)
    ensures StayFrom(Out, h[..k], id) == Out
  {
    if k > 0 {
      assert h[..k][..k - 1] == h[..k - 1];
      StayBefore(h, id, k - 1);
      if StayFrom(Out, h[..k], id) == Broken {
        BrokenStays(h, id, k);
      }
    }
  }

  /**
   * Read directly: a node's joins and evictions strictly alternate, starting with a join; a stay
   * ends as drained exactly when the node announced that it was leaving during that stay, and it
   * announces so at most once.
   */
  lemma {:induction false} JoinsAndEvictionsAlternate(h: seq<Event>, id: NodeID, i: nat, j: nat)
    requires StayFrom(Out, h, id) != Broken
    requires i < j < |h| && IsTurn(h[i], id) && IsTurn(h[j], id)
    requires forall l :: i < l < j ==> !IsTurn(h[l], id)
    ensures h[i].Joined? <==> h[j].Evicted?
    ensures h[j].Evicted? ==> (h[j].reason == Drained <==> LeftBetween(h, id, i, j))
    ensures forall l, m :: i < l < m < j ==> !(h[l] == Leaving(id) && h[m] == Leaving(id))
    ensures (forall l :: 0 <= l < i ==> !IsTurn(h[l], id)) ==> h[i].Joined?
  {
    hide StayFrom, LeftBetween;
    StayBetween(h, id, i, j);
    NextStay(h, id, j);
    forall l, m | i < l < m < j
      ensures !(h[l] == Leaving(id) && h[m] == Leaving(id))
    {
      OneLeaving(h, id, i, l, m);
    }
    if forall l :: 0 <= l < i ==> !IsTurn(h[l], id) {
      StayBefore(h, id, i);
      NextStay(h, id, i);
    }
  }

  // Each event is read without breaking the pattern.
  lemma {:induction false} NextStay(h: seq<Event>, id: NodeID, k: nat)
    requires k < |h| && StayFrom(Out, h, id) != Broken
    ensures Turn(StayFrom(Out, h[..k], id), h[k], id) != Broken
  {
    if StayFrom(Out, h[..k + 1], id) == Broken {
      BrokenStays(h, id, k + 1);
    }
    assert h[..k + 1][..k] == h[..k];
  }

  lemma {:induction false} OneLeaving(h: seq<Event>, id: NodeID, i: nat, l: nat, m: nat)
    requires StayFrom(Out, h, id) != Broken
    requires i < l < m < |h| && IsTurn(h[i], id)
    requires forall k :: i < k < m ==> !IsTurn(h[k], id)
    ensures !(h[l] == Leaving(id) && h[m] == Leaving(id))
  {
    if h[l] == Leaving(id) {
      assert LeftBetween(h, id, i, m);
      hide StayFrom;
      StayBetween(h, id, i, m);
      NextStay(h, id, m);
    }
  }

  /**
   * The generic event call is the exception: it keeps events and records in agreement exactly
   * when it moves nothing, or demotes an elastic member under power duress.
   */
  lemma {:induction false} GenericAgreesIff(s: Members, history: seq<Event>, event: NodeEvent, id: NodeID)
    requires StayFrom(Out, history, id) == StayNow(s, id)
    ensures
      StayFrom(Out, history, id) == StayNow(Applied(s, event, id), id)
      <==> (id !in s.storage || NextState(s.storage[id].state, event).None?
            || (s.storage[id].state == ActiveElastic && event == NodeEvent.PowerDuress))
  {
  }

  // ----- time -----

  function Now(start: real, calls: seq<Call>): real {
    if calls == [] then start else calls[|calls| - 1].now
  }

  predicate Timely(start: real, calls: seq<Call>) {
    forall k :: 0 <= k < |calls| ==> Now(start, calls[..k]) <= calls[k].now
  }

  lemma TimelyPrefix(start: real, calls: seq<Call>, n: nat)
    requires Timely(start, calls) && n <= |calls|
    ensures Timely(start, calls[..n])
  {
    forall k | 0 <= k < n
      ensures Now(start, calls[..n][..k]) <= calls[..n][k].now
    {
      assert calls[..n][..k] == calls[..k];
    }
  }

  // ----- missed heartbeats -----

  // The failures reported for a node since its last success or appearance.
  function TrailingFailures(calls: seq<Call>, id: NodeID): nat {
    if calls == [] then 0
    else
      var front, op := calls[..|calls| - 1], calls[|calls| - 1].op;
      if op == Fail(id) then TrailingFailures(front, id) + 1
      else if op == Succeed(id) || (op.Appear? && op.profile.nodeID == id) then 0
      else TrailingFailures(front, id)
  }

  lemma SweptAllRecord(cfg: Config, s: Members, now: real, id: NodeID)
    requires id in s.storage
    ensures id in SweptAll(cfg, s, now)
    ensures
      SweptAll(cfg, s, now)[id]
      == if Verdict(cfg, s.storage[id], now).Some? then s.storage[id].(state := Suspended)
         else s.storage[id]
  {
  }

  lemma ReissuedRecord(cfg: Config, epoch: nat, storage: map<NodeID, Record>, now: real, id: NodeID)
    requires id in storage
    ensures id in Reissued(cfg, epoch, storage, storage.Keys, now)
    ensures
      Reissued(cfg, epoch, storage, storage.Keys, now)[id]
      == if storage[id].state.Plans()
         then storage[id].(lease := Some(IssueLease(cfg, epoch, storage[id].profile, storage[id].state, now)))
         else storage[id]
  {
  }

  // One record through a tick.
  function TickedRecord(cfg: Config, s: Members, now: real, id: NodeID): Record
    requires id in s.storage
  {
    var r := s.storage[id];
    var after := if Verdict(cfg, r, now).Some? then r.(state := Suspended) else r;
    if Ticked(cfg, s, now).after.epoch != s.epoch && after.state.Plans()
    then after.(lease := Some(IssueLease(cfg, s.epoch + 1, r.profile, r.state, now)))
    else after
  }

  lemma TickKeepsKeys(cfg: Config, s: Members, now: real)
    ensures Ticked(cfg, s, now).after.storage.Keys == s.storage.Keys
    ensures s.epoch <= Ticked(cfg, s, now).after.epoch <= s.epoch + 1
  {
    var swept := SweptAll(cfg, s, now);
    assert swept.Keys == s.storage.Keys;
    assert Reissued(cfg, s.epoch + 1, swept, swept.Keys, now).Keys == swept.Keys;
  }

  lemma SweptRecord(cfg: Config, s: Members, now: real, id: NodeID)
    requires id in s.storage
    ensures id in Ticked(cfg, s, now).after.storage
    ensures Ticked(cfg, s, now).after.storage[id] == TickedRecord(cfg, s, now, id)
    ensures s.epoch <= Ticked(cfg, s, now).after.epoch <= s.epoch + 1
  {
    TickKeepsKeys(cfg, s, now);
    hide SweptAll, Reissued, Evictions, Verdict, Planning;
    SweptAllRecord(cfg, s, now, id);
    ReissuedRecord(cfg, s.epoch + 1, SweptAll(cfg, s, now), now, id);
  }

  // An unknown node stays unknown.
  lemma TickAddsNobody(cfg: Config, s: Members, now: real, id: NodeID)
    requires id !in s.storage
    ensures id !in Ticked(cfg, s, now).after.storage
  {
    TickKeepsKeys(cfg, s, now);
  }

  lemma {:induction false} MissesAreTrailingFailures(cfg: Config, epoch: nat, start: real, calls: seq<Call>, id: NodeID)
    ensures
      var s := Exec(cfg, Fresh(epoch, start), calls).members;
      id in s.storage ==> s.storage[id].missed == TrailingFailures(calls, id)
  {
    hide Ticked;
    if calls != [] {
      var before, last := calls[..|calls| - 1], calls[|calls| - 1];
      MissesAreTrailingFailures(cfg, epoch, start, before, id);
      var s := Exec(cfg, Fresh(epoch, start), before).members;
      if last.op.Tick? {
        if id in s.storage {
          SweptRecord(cfg, s, last.now, id);
        } else {
          TickAddsNobody(cfg, s, last.now, id);
        }
      }
    }
  }

  // ----- what a tick evicts -----

  lemma {:induction false} SweepEvictsExactly(
    cfg: Config, storage: map<NodeID, Record>, keys: seq<NodeID>, now: real, id: NodeID, why: Reason)
    requires forall x :: x in keys ==> x in storage
    ensures Evicted(id, why) in SweepEvents(cfg, storage, keys, now)
            <==> id in keys && Verdict(cfg, storage[id], now) == Some(why)
  {
    if keys != [] {
      SweepEvictsExactly(cfg, storage, keys[..|keys| - 1], now, id, why);
      assert keys == keys[..|keys| - 1] + [keys[|keys| - 1]];
    }
  }

  lemma TickEvictsExactly(cfg: Config, s: Members, now: real, id: NodeID, why: Reason)
    ensures Evicted(id, why) in Ticked(cfg, s, now).events
            <==> id in s.storage && Verdict(cfg, s.storage[id], now) == Some(why)
  {
    SweepEvictsExactly(cfg, s.storage, Sorted(s.storage.Keys), now, id, why);
  }

  /**
   * In any run that ends in a tick without generic events, the tick evicts precisely: as drained
   * the members that announced they were leaving; as unreachable the planning members whose
   * reports since the last success or appearance are at least `threshold` failures; as lapsed the
   * other planning members whose lease has run out.
   */
  lemma {:induction false} EvictionIsExact(
    cfg: Config, epoch: nat, start: real, calls: seq<Call>, now: real, id: NodeID)
    requires NoGeneric(calls)
    ensures
      var w := Exec(cfg, Fresh(epoch, start), calls);
      var evicted := Ticked(cfg, w.members, now).events;
      var planned := id in Planning(w.members.storage);
      var overdue := TrailingFailures(calls, id) >= cfg.threshold;
      && (Evicted(id, Drained) in evicted <==> StayFrom(Out, w.history, id) == Departing)
      && (Evicted(id, HeartbeatLapsed) in evicted <==> planned && overdue)
      && (Evicted(id, LeaseLapsed) in evicted
          <==> planned && !overdue && w.members.storage[id].lease.Some?
               && !w.members.storage[id].lease.value.IsValid(now))
  {
    var w := Exec(cfg, Fresh(epoch, start), calls);
    StaysAreTruthful(cfg, epoch, start, calls, id);
    MissesAreTrailingFailures(cfg, epoch, start, calls, id);
    LeasesAreCurrent(cfg, epoch, start, calls, id);
    TickEvictsExactly(cfg, w.members, now, id, Drained);
    TickEvictsExactly(cfg, w.members, now, id, HeartbeatLapsed);
    TickEvictsExactly(cfg, w.members, now, id, LeaseLapsed);
  }

  // ----- leases -----

  ghost predicate Current(s: Members, id: NodeID) {
    id in s.storage ==>
      var r := s.storage[id];
      && r.profile.nodeID == id
      && r.lease.Some?
      && (r.state.Plans() ==>
            && r.lease.value.nodeID == id
            && r.lease.value.epoch == s.epoch
            && r.lease.value.stages == (if r.state.CanHostRequired() then AllStages else OptionalStages))
  }

  lemma DoKeepsCurrent(cfg: Config, s: Members, c: Call, id: NodeID)
    requires !c.op.Generic? && Current(s, id)
    ensures Current(Do(cfg, s, c).after, id)
  {
    hide Ticked;
    if c.op.Tick? {
      if id in s.storage {
        SweptRecord(cfg, s, c.now, id);
      } else {
        TickAddsNobody(cfg, s, c.now, id);
      }
    }
  }

  /**
   * In every run without generic events a planning member holds a lease of its own for the
   * current epoch, allowing required stages exactly when its state does: no lease of an earlier
   * epoch ever authorises work.
   */
  lemma {:induction false} LeasesAreCurrent(cfg: Config, epoch: nat, start: real, calls: seq<Call>, id: NodeID)
    requires NoGeneric(calls)
    ensures Current(Exec(cfg, Fresh(epoch, start), calls).members, id)
  {
    if calls != [] {
      var before := calls[..|calls| - 1];
      LeasesAreCurrent(cfg, epoch, start, before, id);
      DoKeepsCurrent(cfg, Exec(cfg, Fresh(epoch, start), before).members, calls[|calls| - 1], id);
    }
  }

  // When the node's lease was last granted by a success or a join, if it ever was.
  ghost function Renewed(cfg: Config, init: Members, calls: seq<Call>, id: NodeID): Option<real> {
    if calls == [] then None
    else
      var front, last := calls[..|calls| - 1], calls[|calls| - 1];
      if last.op == Succeed(id) then Some(last.now)
      else if Joined(id) in Do(cfg, Exec(cfg, init, front).members, last).events then Some(last.now)
      else Renewed(cfg, init, front, id)
  }

  // Every profile this node ever published supports leases of at least `window` seconds.
  predicate Supports(cfg: Config, calls: seq<Call>, id: NodeID, window: real) {
    forall k :: 0 <= k < |calls| && calls[k].op.Appear? && calls[k].op.profile.nodeID == id ==>
      window <= Duration(cfg, calls[k].op.profile)
  }

  lemma TickJoinsNobody(cfg: Config, s: Members, now: real, id: NodeID)
    ensures Joined(id) !in Ticked(cfg, s, now).events
  {
    SweepJoinsNobody(cfg, s.storage, Sorted(s.storage.Keys), now, id);
  }

  lemma {:induction false} SweepJoinsNobody(
    cfg: Config, storage: map<NodeID, Record>, keys: seq<NodeID>, now: real, id: NodeID)
    requires forall x :: x in keys ==> x in storage
    ensures Joined(id) !in SweepEvents(cfg, storage, keys, now)
  {
    if keys != [] {
      SweepJoinsNobody(cfg, storage, keys[..|keys| - 1], now, id);
    }
  }

  // When the last call granted a lease, if it did, and otherwise the grant before it.
  ghost function RenewedNow(s: Members, c: Call, e: Effect, before: Option<real>, id: NodeID): Option<real> {
    if c.op == Succeed(id) || Joined(id) in e.events then Some(c.now) else before
  }

  ghost predicate CoveredRecord(s: Members, now: real, cfg: Config, renewed: Option<real>, id: NodeID, window: real) {
    && (renewed.Some? ==> renewed.value <= now)
    && (id in s.storage ==>
          var r := s.storage[id];
          && window <= Duration(cfg, r.profile)
          && (r.state.Plans() ==> renewed.Some? && r.lease.Some?
                                  && renewed.value + window <= r.lease.value.expiresAt))
  }

  lemma TickKeepsCover(cfg: Config, s: Members, then_: real, now: real, renewed: Option<real>, id: NodeID, window: real)
    requires CoveredRecord(s, then_, cfg, renewed, id, window) && then_ <= now
    ensures CoveredRecord(Ticked(cfg, s, now).after, now, cfg, renewed, id, window)
  {
    hide Ticked;
    if id in s.storage {
      SweptRecord(cfg, s, now, id);
    } else {
      TickAddsNobody(cfg, s, now, id);
    }
  }

  lemma DoKeepsCover(cfg: Config, s: Members, then_: real, c: Call, renewed: Option<real>, id: NodeID, window: real)
    requires !c.op.Generic? && then_ <= c.now && CoveredRecord(s, then_, cfg, renewed, id, window)
    requires c.op.Appear? && c.op.profile.nodeID == id ==> window <= Duration(cfg, c.op.profile)
    ensures
      var e := Do(cfg, s, c);
      CoveredRecord(e.after, c.now, cfg, RenewedNow(s, c, e, renewed, id), id, window)
  {
    hide Ticked;
    if c.op.Tick? {
      TickJoinsNobody(cfg, s, c.now, id);
      TickKeepsCover(cfg, s, then_, c.now, renewed, id, window);
    }
  }

  lemma {:induction false} LeaseCoversWindow(
    cfg: Config, epoch: nat, start: real, calls: seq<Call>, id: NodeID, window: real)
    requires NoGeneric(calls) && Timely(start, calls) && Supports(cfg, calls, id, window)
    ensures
      var init := Fresh(epoch, start);
      CoveredRecord(Exec(cfg, init, calls).members, Now(start, calls), cfg,
                    Renewed(cfg, init, calls, id), id, window)
  {
    if calls != [] {
      hide Do, Exec;
      ExecStep(cfg, Fresh(epoch, start), calls);
      var before, last := calls[..|calls| - 1], calls[|calls| - 1];
      TimelyPrefix(start, calls, |calls| - 1);
      LeaseCoversWindow(cfg, epoch, start, before, id, window);
      assert Now(start, before) <= last.now;
      var init := Fresh(epoch, start);
      DoKeepsCover(cfg, Exec(cfg, init, before).members, Now(start, before), last,
                   Renewed(cfg, init, before, id), id, window);
    }
  }

  // The tick at `calls[k]`, if it is one, finds the node reporting and recently renewed.
  ghost predicate Looked(cfg: Config, init: Members, calls: seq<Call>, k: nat, id: NodeID, window: real)
    requires k < |calls|
  {
    calls[k].op.Tick? ==>
      && TrailingFailures(calls[..k], id) < cfg.threshold
      && Renewed(cfg, init, calls[..k], id).Some?
      && calls[k].now < Renewed(cfg, init, calls[..k], id).value + window
  }

  /**
   * A member that succeeds inside every lease window, never misses `threshold` reports in a row
   * and does not announce a drain survives every tick.
   */
  lemma {:induction false} HealthyMemberSurvives(
    cfg: Config, epoch: nat, start: real, calls: seq<Call>, from: nat, id: NodeID, window: real)
    requires NoGeneric(calls) && Timely(start, calls) && Supports(cfg, calls, id, window)
    requires from <= |calls| && id in Planning(Exec(cfg, Fresh(epoch, start), calls[..from]).members.storage)
    requires forall k :: from <= k < |calls| ==> calls[k].op != Drain(id)
    requires forall k :: from <= k < |calls| ==> Looked(cfg, Fresh(epoch, start), calls, k, id, window)
    ensures id in Planning(Exec(cfg, Fresh(epoch, start), calls).members.storage)
    decreases |calls|
  {
    hide Exec, Planning, Looked, Timely, Supports, NoGeneric;
    if from == |calls| {
      assert calls[..from] == calls;
    } else {
      var init := Fresh(epoch, start);
      var n := |calls| - 1;
      TimelyPrefix(start, calls, n);
      SupportsPrefix(cfg, calls, n, id, window);
      assert calls[..n][..from] == calls[..from];
      forall k | from <= k < n
        ensures Looked(cfg, init, calls[..n], k, id, window)
      {
        LookedBefore(cfg, init, calls, k, n, id, window);
      }
      HealthyMemberSurvives(cfg, epoch, start, calls[..n], from, id, window);
      SurvivesOne(cfg, epoch, start, calls, id, window);
    }
  }

  lemma SupportsPrefix(cfg: Config, calls: seq<Call>, n: nat, id: NodeID, window: real)
    requires NoGeneric(calls) && Supports(cfg, calls, id, window) && n <= |calls|
    ensures NoGeneric(calls[..n]) && Supports(cfg, calls[..n], id, window)
  {
  }

  // A look at an earlier call does not depend on later ones.
  lemma LookedBefore(cfg: Config, init: Members, calls: seq<Call>, k: nat, n: nat, id: NodeID, window: real)
    requires k < n <= |calls| && Looked(cfg, init, calls, k, id, window)
    ensures Looked(cfg, init, calls[..n], k, id, window)
  {
    assert calls[..n][..k] == calls[..k];
  }

  lemma {:induction false} SurvivesOne(cfg: Config, epoch: nat, start: real, calls: seq<Call>, id: NodeID, window: real)
    requires NoGeneric(calls) && Timely(start, calls) && Supports(cfg, calls, id, window) && calls != []
    requires id in Planning(Exec(cfg, Fresh(epoch, start), calls[..|calls| - 1]).members.storage)
    requires calls[|calls| - 1].op != Drain(id)
    requires Looked(cfg, Fresh(epoch, start), calls, |calls| - 1, id, window)
    ensures id in Planning(Exec(cfg, Fresh(epoch, start), calls).members.storage)
  {
    hide Do, Exec, Renewed, CoveredRecord, TrailingFailures;
    var init := Fresh(epoch, start);
    var n := |calls| - 1;
    var before := calls[..n];
    TimelyPrefix(start, calls, n);
    ExecStep(cfg, init, calls);
    LeaseCoversWindow(cfg, epoch, start, before, id, window);
    MissesAreTrailingFailures(cfg, epoch, start, before, id);
    var s, renewed := Exec(cfg, init, before).members, Renewed(cfg, init, before, id);
    CoverOfPlanning(s, Now(start, before), cfg, renewed, id, window);
    StaysPlanning(cfg, s, calls[n], renewed, id, window);
  }

  lemma CoverOfPlanning(s: Members, now: real, cfg: Config, renewed: Option<real>, id: NodeID, window: real)
    requires CoveredRecord(s, now, cfg, renewed, id, window) && id in Planning(s.storage)
    ensures renewed.Some? && id in s.storage && s.storage[id].lease.Some?
    ensures renewed.value + window <= s.storage[id].lease.value.expiresAt
  {
  }

  // One call keeps a planning member that is reporting and covered.
  lemma StaysPlanning(cfg: Config, s: Members, c: Call, renewed: Option<real>, id: NodeID, window: real)
    requires !c.op.Generic? && c.op != Drain(id) && id in Planning(s.storage)
    requires c.op.Tick? ==> s.storage[id].missed < cfg.threshold && renewed.Some? && c.now < renewed.value + window
    requires s.storage[id].lease.Some? && renewed.Some?
    requires renewed.value + window <= s.storage[id].lease.value.expiresAt
    ensures id in Planning(Do(cfg, s, c).after.storage)
  {
    hide Ticked;
    if c.op.Tick? {
      SweptRecord(cfg, s, c.now, id);
    }
  }

  // ----- after a tick -----

  ghost predicate Cleared(cfg: Config, s: Members, now: real) {
    forall id :: id in s.storage ==>
      var r := s.storage[id];
      && r.state != Draining
      && (r.state.Plans() ==> r.missed < cfg.threshold && r.lease.Some? && r.lease.value.IsValid(now))
  }

  // Leases that can never be valid have all run out already.
  ghost predicate Spent(cfg: Config, s: Members, now: real) {
    forall id :: id in s.storage ==>
      s.storage[id].lease.Some?
      && (cfg.leaseDuration <= 0.0 ==> s.storage[id].lease.value.expiresAt <= now)
  }

  lemma {:induction false} RunSpent(cfg: Config, epoch: nat, start: real, calls: seq<Call>)
    requires Timely(start, calls)
    ensures Spent(cfg, Exec(cfg, Fresh(epoch, start), calls).members, Now(start, calls))
  {
    if calls != [] {
      hide Do, Exec, Spent;
      var before, last := calls[..|calls| - 1], calls[|calls| - 1];
      TimelyPrefix(start, calls, |calls| - 1);
      RunSpent(cfg, epoch, start, before);
      assert Now(start, before) <= last.now;
      ExecStep(cfg, Fresh(epoch, start), calls);
      DoSpent(cfg, Exec(cfg, Fresh(epoch, start), before).members, Now(start, before), last);
    } else {
      assert Exec(cfg, Fresh(epoch, start), calls).members.storage == map[];
    }
  }

  lemma DoSpent(cfg: Config, s: Members, then_: real, c: Call)
    requires Spent(cfg, s, then_) && then_ <= c.now
    ensures Spent(cfg, Do(cfg, s, c).after, c.now)
  {
    hide Ticked;
    if c.op.Tick? {
      TickKeepsKeys(cfg, s, c.now);
      forall id | id in s.storage
        ensures
          var l := Ticked(cfg, s, c.now).after.storage[id].lease;
          l.Some? && (cfg.leaseDuration <= 0.0 ==> l.value.expiresAt <= c.now)
      {
        SweptRecord(cfg, s, c.now, id);
      }
    }
  }

  /**
   * After a tick of any run in which time does not go back, even with generic events, no member
   * is draining and no planning member is overdue or holds an expired lease.
   */
  lemma {:induction false} TickClears(cfg: Config, epoch: nat, start: real, calls: seq<Call>, now: real)
    requires Timely(start, calls) && Now(start, calls) <= now
    ensures
      Cleared(cfg, Ticked(cfg, Exec(cfg, Fresh(epoch, start), calls).members, now).after, now)
  {
    hide Ticked, Exec;
    var s := Exec(cfg, Fresh(epoch, start), calls).members;
    var after := Ticked(cfg, s, now).after;
    RunSpent(cfg, epoch, start, calls);
    TickKeepsKeys(cfg, s, now);
    forall id | id in after.storage
      ensures
        var r := after.storage[id];
        && r.state != Draining
        && (r.state.Plans() ==> r.missed < cfg.threshold && r.lease.Some? && r.lease.value.IsValid(now))
    {
      SweptRecord(cfg, s, now, id);
    }
  }

  // ----- epochs -----

  function Times(n: int, dwell: real): real {
    n as real * dwell
  }

  lemma OneMoreTime(n: int, dwell: real)
    ensures Times(0, dwell) == 0.0
    ensures Times(n + 1, dwell) == Times(n, dwell) + dwell
  {
  }

  function Announcements(h: seq<Event>): nat {
    if h == [] then 0
    else Announcements(h[..|h| - 1]) + if h[|h| - 1].EpochChanged? then 1 else 0
  }

  function AsSet(s: seq<NodeID>): set<NodeID> {
    set x | x in s
  }

  function LastAnnounced(h: seq<Event>): set<NodeID> {
    if h == [] then {}
    else if h[|h| - 1].EpochChanged? then AsSet(h[|h| - 1].members)
    else LastAnnounced(h[..|h| - 1])
  }

  lemma {:induction false} QuietEvents(h: seq<Event>, more: seq<Event>)
    requires forall k :: 0 <= k < |more| ==> !more[k].EpochChanged?
    ensures Announcements(h + more) == Announcements(h)
    ensures LastAnnounced(h + more) == LastAnnounced(h)
  {
    if more == [] {
      assert h + more == h;
    } else {
      assert (h + more)[..|h + more| - 1] == h + more[..|more| - 1];
      QuietEvents(h, more[..|more| - 1]);
    }
  }

  lemma {:induction false} SweepIsQuiet(cfg: Config, storage: map<NodeID, Record>, keys: seq<NodeID>, now: real)
    requires forall x :: x in keys ==> x in storage
    ensures forall k :: 0 <= k < |SweepEvents(cfg, storage, keys, now)| ==>
      SweepEvents(cfg, storage, keys, now)[k].Evicted?
  {
    if keys != [] {
      SweepIsQuiet(cfg, storage, keys[..|keys| - 1], now);
    }
  }

  lemma EvictionsAreQuiet(cfg: Config, s: Members, now: real)
    ensures forall k :: 0 <= k < |Evictions(cfg, s, now)| ==> Evictions(cfg, s, now)[k].Evicted?
  {
    SweepIsQuiet(cfg, s.storage, Sorted(s.storage.Keys), now);
  }

  // The last event of a tick that changes the epoch announces the new planning set.
  lemma TickNews(cfg: Config, s: Members, now: real)
    ensures
      var e, evictions := Ticked(cfg, s, now), Evictions(cfg, s, now);
      || (e.events == evictions && e.after.epoch == s.epoch && e.after.announced == s.announced)
      || (exists until :: e.events == evictions + [Deferred(until)]
                          && e.after.epoch == s.epoch && e.after.announced == s.announced)
      || (e.events == evictions + [EpochChanged(s.epoch + 1, Sorted(e.after.announced))]
          && e.after.epoch == s.epoch + 1)
  {
    hide SweptAll, Reissued, Evictions, Planning;
  }

  lemma {:induction false} TickAnnounces(cfg: Config, s: Members, now: real, h: seq<Event>)
    requires LastAnnounced(h) == s.announced
    ensures
      var e := Ticked(cfg, s, now);
      && LastAnnounced(h + e.events) == e.after.announced
      && Announcements(h + e.events) - Announcements(h) == e.after.epoch - s.epoch
  {
    hide Ticked, Evictions;
    var events, evictions := Ticked(cfg, s, now).events, Evictions(cfg, s, now);
    TickNews(cfg, s, now);
    EvictionsAreQuiet(cfg, s, now);
    QuietEvents(h, evictions);
    if events != evictions {
      var news := events[|evictions|];
      assert h + events == (h + evictions) + [news];
      assert (h + events)[..|h + events| - 1] == h + evictions;
    }
  }

  lemma {:induction false} DoAnnounces(cfg: Config, s: Members, c: Call, h: seq<Event>)
    requires LastAnnounced(h) == s.announced
    ensures
      var e := Do(cfg, s, c);
      && LastAnnounced(h + e.events) == e.after.announced
      && Announcements(h + e.events) - Announcements(h) == e.after.epoch - s.epoch
  {
    hide Ticked;
    if c.op.Tick? {
      TickAnnounces(cfg, s, c.now, h);
    } else {
      QuietEvents(h, Do(cfg, s, c).events);
    }
  }

  // An epoch either stays as it is, or the next one starts at `now` after the dwell time.
  lemma DoSpaces(cfg: Config, s: Members, c: Call)
    ensures
      var after := Do(cfg, s, c).after;
      || (after.epoch == s.epoch && after.changedAt == s.changedAt)
      || (after.epoch == s.epoch + 1 && after.changedAt == c.now && c.now - s.changedAt >= cfg.dwell)
  {
    hide SweptAll, Evictions, Reissued, Planning, IssueLease;
  }

  /**
   * Anti-flap over whole runs, with no assumption on time or on generic events: the epochs begun
   * are the epoch changes announced, and each cost at least the dwell time.
   */
  lemma {:induction false} EpochsAreSpaced(cfg: Config, epoch: nat, start: real, calls: seq<Call>)
    ensures
      var w := Exec(cfg, Fresh(epoch, start), calls);
      && w.members.epoch - epoch == Announcements(w.history)
      && (w.members.epoch - epoch) as real * cfg.dwell <= w.members.changedAt - start
      && w.members.announced == LastAnnounced(w.history)
      && (Timely(start, calls) ==> w.members.changedAt <= Now(start, calls))
  {
    hide Exec;
    EpochRun(cfg, epoch, start, calls);
  }

  lemma {:induction false} EpochRun(cfg: Config, epoch: nat, start: real, calls: seq<Call>)
    ensures
      var w := Exec(cfg, Fresh(epoch, start), calls);
      && w.members.epoch - epoch == Announcements(w.history)
      && Times(w.members.epoch - epoch, cfg.dwell) <= w.members.changedAt - start
      && w.members.announced == LastAnnounced(w.history)
      && (Timely(start, calls) ==> w.members.changedAt <= Now(start, calls))
  {
    if calls == [] {
      OneMoreTime(0, cfg.dwell);
    } else {
      hide Do, Exec, Times, Announcements, LastAnnounced;
      var before, last := calls[..|calls| - 1], calls[|calls| - 1];
      EpochRun(cfg, epoch, start, before);
      ExecStep(cfg, Fresh(epoch, start), calls);
      var w := Exec(cfg, Fresh(epoch, start), before);
      DoAnnounces(cfg, w.members, last, w.history);
      DoSpaces(cfg, w.members, last);
      OneMoreTime(w.members.epoch - epoch, cfg.dwell);
      if Timely(start, calls) {
        TimelyPrefix(start, calls, |calls| - 1);
        assert Now(start, before) <= last.now;
      }
    }
  }

  /**
   * Every epoch change lists exactly the planning set it leaves, in order, which differs from the
   * last one announced; it names the next epoch, and leaves every listed member a lease of that
   * epoch issued at that moment. A tick that neither changes the epoch nor defers the change
   * leaves the planning set that was last announced.
   */
  lemma {:induction false} EpochChangeIsExact(
    cfg: Config, epoch: nat, start: real, calls: seq<Call>, now: real, n: nat, listed: seq<NodeID>)
    requires EpochChanged(n, listed) in Ticked(cfg, Exec(cfg, Fresh(epoch, start), calls).members, now).events
    ensures
      var w := Exec(cfg, Fresh(epoch, start), calls);
      var after := Ticked(cfg, w.members, now).after;
      && n == w.members.epoch + 1 == after.epoch
      && Ascending(listed) && (forall x :: x in listed <==> x in Planning(after.storage))
      && AsSet(listed) != LastAnnounced(w.history)
      && (forall x :: x in listed ==>
            after.storage[x].lease
            == Some(IssueLease(cfg, n, after.storage[x].profile, after.storage[x].state, now)))
  {
    var w := Exec(cfg, Fresh(epoch, start), calls);
    EpochsAreSpaced(cfg, epoch, start, calls);
    EpochChangeOf(cfg, w.members, now, n, listed);
    hide Exec, Ticked;
  }

  lemma EpochChangeOf(cfg: Config, s: Members, now: real, n: nat, listed: seq<NodeID>)
    requires EpochChanged(n, listed) in Ticked(cfg, s, now).events
    ensures
      var after := Ticked(cfg, s, now).after;
      && n == s.epoch + 1 == after.epoch
      && Ascending(listed) && (forall x :: x in listed <==> x in Planning(after.storage))
      && AsSet(listed) != s.announced
      && (forall x :: x in listed ==>
            after.storage[x].lease
            == Some(IssueLease(cfg, n, after.storage[x].profile, after.storage[x].state, now)))
  {
    var e := Ticked(cfg, s, now);
    EvictionsAreQuiet(cfg, s, now);
    var swept := SweptAll(cfg, s, now);
    hide SweptAll, Evictions;
    assert n == s.epoch + 1 && listed == Sorted(Planning(swept));
    assert AsSet(listed) == Planning(swept);
    assert e.after.storage == Reissued(cfg, n, swept, swept.Keys, now);
    assert e.after.storage.Keys == swept.Keys;
    forall x | x in swept
      ensures e.after.storage[x].state == swept[x].state
    {
      ReissuedRecord(cfg, n, swept, now, x);
    }
  }

  lemma {:induction false} QuietTickIsSettled(cfg: Config, epoch: nat, start: real, calls: seq<Call>, now: real)
    requires
      forall x :: x in Ticked(cfg, Exec(cfg, Fresh(epoch, start), calls).members, now).events ==>
        !x.EpochChanged? && !x.Deferred?
    ensures
      var w := Exec(cfg, Fresh(epoch, start), calls);
      Planning(Ticked(cfg, w.members, now).after.storage) == LastAnnounced(w.history)
  {
    var w := Exec(cfg, Fresh(epoch, start), calls);
    EpochsAreSpaced(cfg, epoch, start, calls);
    var e := Ticked(cfg, w.members, now);
    hide SweptAll, Evictions, Reissued, Exec;
    assert |e.events| > 0 ==> e.events[|e.events| - 1] in e.events;
  }
}
