/**
 * Ring membership driven by injected time: who is in, in what state, whether their lease holds,
 * and when a new epoch starts. The fields change through the methods of MembershipService; the
 * functions before it say what each method does to them.
 */
module Membership {
  import opened Base
  import opened Capability

  datatype Config = Config(leaseDuration: real, threshold: int, dwell: real)

  datatype Reason = HeartbeatLapsed | LeaseLapsed | Drained

  datatype Event =
    | Joined(id: NodeID)
    | Leaving(id: NodeID)
    | Evicted(id: NodeID, reason: Reason)
    | EpochChanged(epoch: nat, members: seq<NodeID>)
    | Deferred(remaining: real)

  datatype Record = Record(
    profile: Profile, state: NodeState, lease: Option<Lease>, missed: int, lastHeardFrom: real)

  datatype Members = Members(
    storage: map<NodeID, Record>, epoch: nat, changedAt: real, announced: set<NodeID>)

  datatype Effect = Effect(after: Members, events: seq<Event>)

  function Duration(cfg: Config, p: Profile): real {
    if cfg.leaseDuration < p.MaxLease() then cfg.leaseDuration else p.MaxLease()
  }

  function IssueLease(cfg: Config, epoch: nat, p: Profile, state: NodeState, now: real): Lease {
    Lease(p.nodeID, epoch, now, now + Duration(cfg, p),
          if state.CanHostRequired() then AllStages else OptionalStages)
  }

  function Planning(storage: map<NodeID, Record>): set<NodeID> {
    set id | id in storage && storage[id].state.Plans()
  }

  function JoinEvent(p: Profile): NodeEvent {
    match InitialState(p)
    case ActiveCore => JoinedAsCore
    case ActiveElastic => JoinedAsElastic
    case _ => JoinedAsOpportunistic
  }

  function Appeared(cfg: Config, s: Members, p: Profile, now: real): Effect {
    if p.nodeID in s.storage then
      var r := s.storage[p.nodeID];
      if r.state == Suspended then
        var state := Moved(r.state, JoinEvent(p));
        var r' := Record(p, state, Some(IssueLease(cfg, s.epoch, p, state, now)), 0, now);
        Effect(s.(storage := s.storage[p.nodeID := r']), [Joined(p.nodeID)])
      else
        var r' := r.(profile := p, lastHeardFrom := now, missed := 0);
        Effect(s.(storage := s.storage[p.nodeID := r']), [])
    else
      var state := InitialState(p);
      var r' := Record(p, state, Some(IssueLease(cfg, s.epoch, p, state, now)), 0, now);
      Effect(s.(storage := s.storage[p.nodeID := r']), [Joined(p.nodeID)])
  }

  function Succeeded(cfg: Config, s: Members, id: NodeID, now: real): Members {
    if id !in s.storage then s
    else
      var r := s.storage[id].(missed := 0, lastHeardFrom := now);
      var r' := if r.state.Plans()
                then r.(lease := Some(IssueLease(cfg, s.epoch, r.profile, r.state, now)))
                else r;
      s.(storage := s.storage[id := r'])
  }

  function Failed(s: Members, id: NodeID): Members {
    if id !in s.storage then s
    else s.(storage := s.storage[id := s.storage[id].(missed := s.storage[id].missed + 1)])
  }

  function AnnouncedDrain(s: Members, id: NodeID, now: real): Effect {
    if id in s.storage && NextState(s.storage[id].state, EnteredBackground).Some? then
      var r := s.storage[id].(state := Moved(s.storage[id].state, EnteredBackground), lastHeardFrom := now);
      Effect(s.(storage := s.storage[id := r]), [Leaving(id)])
    else Effect(s, [])
  }

  function Applied(s: Members, event: NodeEvent, id: NodeID): Members {
    if id in s.storage && NextState(s.storage[id].state, event).Some?
    then s.(storage := s.storage[id := s.storage[id].(state := Moved(s.storage[id].state, event))])
    else s
  }

  // Why a tick at `now` evicts this member, if it does.
  function Verdict(cfg: Config, r: Record, now: real): Option<Reason> {
    if r.state == Draining then Some(Drained)
    else if !r.state.Plans() then None
    else if r.missed >= cfg.threshold then Some(HeartbeatLapsed)
    else if r.lease.Some? && !r.lease.value.IsValid(now) then Some(LeaseLapsed)
    else None
  }

  function Swept(cfg: Config, storage: map<NodeID, Record>, keys: seq<NodeID>, now: real): map<NodeID, Record> {
    map id | id in storage ::
      if id in keys && Verdict(cfg, storage[id], now).Some?
      then storage[id].(state := Suspended) else storage[id]
  }

  function SweepEvents(cfg: Config, storage: map<NodeID, Record>, keys: seq<NodeID>, now: real): seq<Event>
    requires forall id :: id in keys ==> id in storage
  {
    if keys == [] then []
    else
      var last := keys[|keys| - 1];
      var v := Verdict(cfg, storage[last], now);
      SweepEvents(cfg, storage, keys[..|keys| - 1], now)
      + if v.Some? then [Evicted(last, v.value)] else []
  }

  function Reissued(
    cfg: Config, epoch: nat, storage: map<NodeID, Record>, ids: set<NodeID>, now: real): map<NodeID, Record> {
    map id | id in storage ::
      if id in ids && storage[id].state.Plans()
      then storage[id].(lease := Some(IssueLease(cfg, epoch, storage[id].profile, storage[id].state, now)))
      else storage[id]
  }

  function SweptAll(cfg: Config, s: Members, now: real): map<NodeID, Record> {
    Swept(cfg, s.storage, Sorted(s.storage.Keys), now)
  }

  function Evictions(cfg: Config, s: Members, now: real): seq<Event> {
    SweepEvents(cfg, s.storage, Sorted(s.storage.Keys), now)
  }

  function Ticked(cfg: Config, s: Members, now: real): Effect {
    var swept := SweptAll(cfg, s, now);
    var evictions := Evictions(cfg, s, now);
    var plan := Planning(swept);
    if plan == s.announced then Effect(s.(storage := swept), evictions)
    else if now - s.changedAt >= cfg.dwell then
      var e := s.epoch + 1;
      Effect(Members(Reissued(cfg, e, swept, swept.Keys, now), e, now, plan),
             evictions + [EpochChanged(e, Sorted(plan))])
    else
      Effect(s.(storage := swept), evictions + [Deferred(cfg.dwell - (now - s.changedAt))])
  }

  // What one more key adds to a sweep that has done keys[..i].
  lemma {:induction false} SweepStep(cfg: Config, was: map<NodeID, Record>, keys: seq<NodeID>, i: nat, now: real)
    requires i < |keys| && Ascending(keys) && forall id :: id in keys ==> id in was
    ensures
      var id, done := keys[i], Swept(cfg, was, keys[..i], now);
      var v := Verdict(cfg, was[id], now);
      && id in done && done[id] == was[id]
      && Swept(cfg, was, keys[..i + 1], now)
         == (if v.Some? then done[id := was[id].(state := Suspended)] else done)
      && SweepEvents(cfg, was, keys[..i + 1], now)
         == SweepEvents(cfg, was, keys[..i], now) + if v.Some? then [Evicted(id, v.value)] else []
  {
    hide Verdict;
    assert keys[..i + 1][..i] == keys[..i];
    SweptOneMore(cfg, was, keys[..i], keys[i], now);
    assert keys[..i + 1] == keys[..i] + [keys[i]];
  }

  lemma {:induction false} SweepNothing(cfg: Config, was: map<NodeID, Record>, now: real)
    ensures Swept(cfg, was, [], now) == was && SweepEvents(cfg, was, [], now) == []
  {
  }

  lemma SweptOneMore(cfg: Config, was: map<NodeID, Record>, front: seq<NodeID>, id: NodeID, now: real)
    requires id in was && id !in front
    ensures
      var done := Swept(cfg, was, front, now);
      && id in done && done[id] == was[id]
      && Swept(cfg, was, front + [id], now)
         == if Verdict(cfg, was[id], now).Some? then done[id := was[id].(state := Suspended)] else done
  {
    hide Verdict;
  }

  class MembershipService {
    const config: Config
    var storage: map<NodeID, Record>
    var currentEpoch: nat
    var lastEpochChangedAt: real
    var lastEpochMembers: set<NodeID>

    ghost function View(): Members
      reads this
    {
      Members(storage, currentEpoch, lastEpochChangedAt, lastEpochMembers)
    }

    constructor (config: Config, epoch: nat, now: real)
      ensures View() == Fresh(epoch, now) && this.config == config
    {
      this.config := config;
      storage, currentEpoch, lastEpochChangedAt, lastEpochMembers := map[], epoch, now, {};
    }

    method NodeAppeared(p: Profile, now: real) returns (events: seq<Event>)
      modifies this
      ensures Effect(View(), events) == Appeared(config, old(View()), p, now)
    {
      events := [];
      if p.nodeID in storage {
        var existing := storage[p.nodeID];
        if existing.state == Suspended {
          var state := Moved(existing.state, JoinEvent(p));
          var lease := IssueLease(config, currentEpoch, p, state, now);
          storage := storage[p.nodeID := Record(p, state, Some(lease), 0, now)];
          events := [Joined(p.nodeID)];
        } else {
          existing := existing.(profile := p, lastHeardFrom := now, missed := 0);
          storage := storage[p.nodeID := existing];
        }
      } else {
        var state := InitialState(p);
        var lease := IssueLease(config, currentEpoch, p, state, now);
        storage := storage[p.nodeID := Record(p, state, Some(lease), 0, now)];
        events := [Joined(p.nodeID)];
      }
    }

    method HeartbeatSucceeded(id: NodeID, now: real)
      modifies this
      ensures View() == Succeeded(config, old(View()), id, now)
    {
      if id in storage {
        var r := storage[id].(missed := 0, lastHeardFrom := now);
        if r.state.Plans() {
          r := r.(lease := Some(IssueLease(config, currentEpoch, r.profile, r.state, now)));
        }
        storage := storage[id := r];
      }
    }

    method HeartbeatFailed(id: NodeID)
      modifies this
      ensures View() == Failed(old(View()), id)
    {
      if id in storage {
        var r := storage[id];
        storage := storage[id := r.(missed := r.missed + 1)];
      }
    }

    method NodeAnnouncedDrain(id: NodeID, now: real) returns (events: seq<Event>)
      modifies this
      ensures Effect(View(), events) == AnnouncedDrain(old(View()), id, now)
    {
      events := [];
      if id in storage {
        var r := storage[id];
        var next := NextState(r.state, EnteredBackground);
        if next.Some? {
          storage := storage[id := r.(state := next.value, lastHeardFrom := now)];
          events := [Leaving(id)];
        }
      }
    }

    method ApplyEvent(event: NodeEvent, id: NodeID) returns (moved: bool)
      modifies this
      ensures View() == Applied(old(View()), event, id)
      ensures moved == (id in old(storage) && NextState(old(storage)[id].state, event).Some?)
    {
      moved := false;
      if id in storage {
        var next := NextState(storage[id].state, event);
        if next.Some? {
          storage := storage[id := storage[id].(state := next.value)];
          moved := true;
        }
      }
    }

    // One turn of the tick's loop over the members.
    method SweepOne(id: NodeID, now: real) returns (events: seq<Event>)
      requires id in storage
      modifies this`storage
      ensures
        var v := Verdict(config, old(storage)[id], now);
        && events == (if v.Some? then [Evicted(id, v.value)] else [])
        && storage == (if v.Some? then old(storage)[id := old(storage)[id].(state := Suspended)]
                       else old(storage))
    {
      events := [];
      var r := storage[id];
      if r.state == Draining {
        storage := storage[id := r.(state := Moved(r.state, DrainCompleted))];
        events := [Evicted(id, Drained)];
      } else if r.state.Plans() {
        if r.missed >= config.threshold {
          storage := storage[id := r.(state := Moved(r.state, NodeEvent.HeartbeatLost))];
          events := [Evicted(id, HeartbeatLapsed)];
        } else if r.lease.Some? && !r.lease.value.IsValid(now) {
          storage := storage[id := r.(state := Moved(r.state, NodeEvent.LeaseExpired))];
          events := [Evicted(id, LeaseLapsed)];
        }
      }
    }

    // The first half of a tick: completes drains and evicts the unreachable and the lapsed.
    method Sweep(now: real) returns (events: seq<Event>)
      modifies this`storage
      ensures storage == Swept(config, old(storage), Sorted(old(storage).Keys), now)
      ensures events == SweepEvents(config, old(storage), Sorted(old(storage).Keys), now)
    {
      hide Swept, SweepEvents, Verdict;
      ghost var was := storage;
      var keys := Sorted(storage.Keys);
      events := [];
      SweepNothing(config, was, now);
      assert keys[..0] == [];
      for i := 0 to |keys|
        invariant storage == Swept(config, was, keys[..i], now)
        invariant events == SweepEvents(config, was, keys[..i], now)
      {
        SweepStep(config, was, keys, i, now);
        var evicted := SweepOne(keys[i], now);
        events := events + evicted;
      }
      assert keys[..|keys|] == keys;
    }

    method Tick(now: real) returns (events: seq<Event>)
      modifies this
      ensures Effect(View(), events) == Ticked(config, old(View()), now)
    {
      events := Sweep(now);
      var plan := Planning(storage);
      if plan != lastEpochMembers {
        var elapsed := now - lastEpochChangedAt;
        if elapsed >= config.dwell {
          currentEpoch := currentEpoch + 1;
          lastEpochChangedAt := now;
          lastEpochMembers := plan;
          ReissueLeases(now);
          events := events + [EpochChanged(currentEpoch, Sorted(plan))];
        } else {
          events := events + [Deferred(config.dwell - elapsed)];
        }
      }
    }

    // The source walks its dictionary in no particular order, and so does this loop.
    method ReissueLeases(now: real)
      modifies this`storage
      ensures storage == Reissued(config, currentEpoch, old(storage), old(storage).Keys, now)
    {
      ghost var was := storage;
      var rest := storage.Keys;
      while rest != {}
        invariant rest <= was.Keys
        invariant storage == Reissued(config, currentEpoch, was, was.Keys - rest, now)
        decreases rest
      {
        var id :| id in rest;
        var r := storage[id];
        if r.state.Plans() {
          storage := storage[id := r.(lease := Some(IssueLease(config, currentEpoch, r.profile, r.state, now)))];
        }
        rest := rest - {id};
      }
      assert was.Keys - rest == was.Keys;
    }
  }

  // ----- runs -----

  datatype Op =
    | Appear(profile: Profile)
    | Succeed(id: NodeID)
    | Fail(id: NodeID)
    | Drain(id: NodeID)
    | Generic(event: NodeEvent, id: NodeID)
    | Tick

  datatype Call = Call(op: Op, now: real)

  datatype World = World(members: Members, history: seq<Event>)

  function Fresh(epoch: nat, start: real): Members {
    Members(map[], epoch, start, {})
  }

  function Do(cfg: Config, s: Members, c: Call): Effect {
    match c.op
    case Appear(p) => Appeared(cfg, s, p, c.now)
    case Succeed(id) => Effect(Succeeded(cfg, s, id, c.now), [])
    case Fail(id) => Effect(Failed(s, id), [])
    case Drain(id) => AnnouncedDrain(s, id, c.now)
    case Generic(event, id) => Effect(Applied(s, event, id), [])
    case Tick => Ticked(cfg, s, c.now)
  }

  // Every call of a run from a fresh service, with all events returned so far in order.
  function Exec(cfg: Config, init: Members, calls: seq<Call>): World {
    if calls == [] then World(init, [])
    else
      var w := Exec(cfg, init, calls[..|calls| - 1]);
      var e := Do(cfg, w.members, calls[|calls| - 1]);
      World(e.after, w.history + e.events)
  }

  lemma {:induction false} ExecStep(cfg: Config, init: Members, calls: seq<Call>)
    requires calls != []
    ensures
      var w := Exec(cfg, init, calls[..|calls| - 1]);
      var e := Do(cfg, w.members, calls[|calls| - 1]);
      Exec(cfg, init, calls) == World(e.after, w.history + e.events)
  {
    hide Do;
  }

  predicate NoGeneric(calls: seq<Call>) {
    forall k :: 0 <= k < |calls| ==> !calls[k].op.Generic?
  }
}
