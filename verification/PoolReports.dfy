/** What the pool reports of each call, in every run. */
module PoolReports {
  import opened Base
  import opened Capability
  import opened Membership
  import opened MembershipRuns
  import opened Pool
  import opened PoolRuns
  import PooledPlan

  /**
   * A connection reports that its node was there already exactly when the platform's seat was
   * recorded as the node's, and otherwise that it connected; and it reports all platforms
   * exactly when every required one is seated after it.
   */
  lemma ConnectionReports(cfg: Config, s: PoolState, platform: Platform, p: Profile, now: real)
    ensures
      var e := Connected(cfg, s, platform, p, now);
      var here := platform in s.seats.nodeOf && s.seats.nodeOf[platform] == p.nodeID;
      var all := forall x: Platform :: x in e.after.seats.nodeOf;
      && e.events != []
      && e.events[0] == (if here then PeerAlreadyPresent(platform, p.nodeID) else PeerConnected(platform, p.nodeID))
      && e.events[1..] == if all then [AllConnected(e.after.seats.nodeOf.Keys)] else []
  {
    hide Admitted;
    var e := Connected(cfg, s, platform, p, now);
    AllSeatsIff(e.after.seats);
  }

  lemma AllSeatsIff(seats: Seats)
    ensures HasAll(seats) <==> forall x: Platform :: x in seats.nodeOf
  {
    if HasAll(seats) {
      forall x: Platform
        ensures x in seats.nodeOf
      {
        PooledPlan.EveryPlatform(x);
        assert x in seats.nodeOf.Keys;
      }
    }
  }

  /** A drain is reported exactly when a planning member announces it from a seat, with that seat. */
  lemma DrainReports(s: PoolState, id: NodeID, now: real)
    ensures
      DrainAnnounced(s, id, now).events
      == if id in Planning(s.members.storage) && id in s.seats.platformOf
         then [PeerDraining(s.seats.platformOf[id], id)] else []
  {
  }

  // What one event of the membership is reported as, given who sat where when the tick began.
  predicate Tells(seats: Seats, e: Event, r: PoolEvent) {
    match r
    case PeerEvicted(p, id, why) => e == Evicted(id, why) && id in seats.platformOf && seats.platformOf[id] == p
    case NewEpoch(n, members) => e == EpochChanged(n, members)
    case EpochDeferred(left) => e == Deferred(left)
    case _ => false
  }

  ghost predicate EvictsOnce(events: seq<Event>) {
    forall i, j :: 0 <= i < j < |events| && events[i].Evicted? && events[j].Evicted? ==> events[i].id != events[j].id
  }

  lemma {:induction false} ReportsTell(seats: Seats, events: seq<Event>, r: PoolEvent)
    requires SeatsHeld(seats) && EvictsOnce(events)
    ensures r in ReportedAll(seats, events) <==> exists e :: e in events && Tells(seats, e, r)
  {
    hide SeatsHeld;
    if events != [] {
      var before, last := events[..|events| - 1], events[|events| - 1];
      assert EvictsOnce(before);
      ReportsTell(seats, before, r);
      OneTells(seats, before, last, r);
      assert events == before + [last];
      assert forall e :: e in events <==> e in before || e == last;
    }
  }

  lemma OneTells(seats: Seats, before: seq<Event>, last: Event, r: PoolEvent)
    requires SeatsHeld(seats) && EvictsOnce(before + [last])
    ensures r in Reported(VacatedAll(seats, before), last) <==> Tells(seats, last, r)
  {
    hide SeatsHeld, VacatedAll;
    if last.Evicted? {
      VacatedAllHolds(seats, before, last.id);
      NotYetGone(before, last);
    }
  }

  lemma NotYetGone(before: seq<Event>, last: Event)
    requires EvictsOnce(before + [last]) && last.Evicted?
    ensures !Leaves(before, last.id)
  {
    var all := before + [last];
    assert all[|before|] == last && forall k :: 0 <= k < |before| ==> all[k] == before[k];
  }

  lemma {:induction false} SweepEvictsOnce(cfg: Config, storage: map<NodeID, Record>, keys: seq<NodeID>, now: real)
    requires Ascending(keys) && forall x :: x in keys ==> x in storage
    ensures EvictsOnce(SweepEvents(cfg, storage, keys, now))
    ensures
      var events := SweepEvents(cfg, storage, keys, now);
      forall k :: 0 <= k < |events| ==> events[k].Evicted? && events[k].id in keys
  {
    hide Verdict;
    if keys != [] {
      var front, last := keys[..|keys| - 1], keys[|keys| - 1];
      SweepEvictsOnce(cfg, storage, front, now);
      assert forall x :: x in front ==> x < last;
    }
  }

  lemma TickEvictsOnce(cfg: Config, s: Members, now: real)
    ensures EvictsOnce(Ticked(cfg, s, now).events)
  {
    hide SweptAll, Reissued, Planning;
    SweepEvictsOnce(cfg, s.storage, Sorted(s.storage.Keys), now);
  }

  /**
   * What a tick reports, in every run: an eviction exactly for each seated member with a verdict,
   * with its seat and the reason; an epoch exactly as the membership began it; and a deferral
   * exactly as it was deferred.
   */
  lemma {:induction false} TickReports(cfg: Config, epoch: nat, start: real, calls: seq<PoolCall>, now: real)
    ensures
      var s := ExecPool(cfg, epoch, start, calls);
      var reports, events := PoolTicked(cfg, s, now).events, Ticked(cfg, s.members, now).events;
      && (forall p, id, why :: PeerEvicted(p, id, why) in reports
            <==> id in s.members.storage && Verdict(cfg, s.members.storage[id], now) == Some(why)
                 && id in s.seats.platformOf && s.seats.platformOf[id] == p)
      && (forall n, members :: NewEpoch(n, members) in reports <==> EpochChanged(n, members) in events)
      && (forall left :: EpochDeferred(left) in reports <==> Deferred(left) in events)
  {
    hide ExecPool, Ticked, VacatedAll, ReportedAll, SeatsHeld, Verdict, EvictsOnce;
    var s := ExecPool(cfg, epoch, start, calls);
    var events := Ticked(cfg, s.members, now).events;
    NoSeatIsShared(cfg, epoch, start, calls);
    TickEvictsOnce(cfg, s.members, now);
    forall r: PoolEvent
      ensures r in PoolTicked(cfg, s, now).events <==> exists e :: e in events && Tells(s.seats, e, r)
    {
      ReportsTell(s.seats, events, r);
    }
    forall p, id, why
      ensures PeerEvicted(p, id, why) in PoolTicked(cfg, s, now).events
              <==> id in s.members.storage && Verdict(cfg, s.members.storage[id], now) == Some(why)
                   && id in s.seats.platformOf && s.seats.platformOf[id] == p
    {
      TickEvictsExactly(cfg, s.members, now, id, why);
      assert Evicted(id, why) in events && id in s.seats.platformOf && s.seats.platformOf[id] == p
             ==> Tells(s.seats, Evicted(id, why), PeerEvicted(p, id, why));
    }
    forall n, members
      ensures NewEpoch(n, members) in PoolTicked(cfg, s, now).events <==> EpochChanged(n, members) in events
    {
      assert Tells(s.seats, EpochChanged(n, members), NewEpoch(n, members));
    }
    forall left
      ensures EpochDeferred(left) in PoolTicked(cfg, s, now).events <==> Deferred(left) in events
    {
      assert Tells(s.seats, Deferred(left), EpochDeferred(left));
    }
  }
}
