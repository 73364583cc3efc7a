/**
 * Rounds in which every peer answers every ping, from the start of the monitor: exactly when the
 * monitor loses a node, and that the node is its own.
 */
module HealthyRing {
  import opened Base
  import opened Capability
  import M = Membership
  import R = MembershipRuns
  import W = Watchdog
  import opened Monitor

  // ----- rounds as calls -----

  function Pings(peers: seq<Probe>, now: real): seq<Call> {
    if peers == [] then []
    else Pings(peers[..|peers| - 1], now) + [Call(Ping(peers[|peers| - 1]), now)]
  }

  function RoundCalls(peers: seq<Probe>, now: real): seq<Call> {
    [Call(Publish, now)] + Pings(peers, now) + [Call(CloseRound, now)]
  }

  // One round at each of these times.
  function Rounds(peers: seq<Probe>, times: seq<real>): seq<Call> {
    if times == [] then []
    else Rounds(peers, times[..|times| - 1]) + RoundCalls(peers, times[|times| - 1])
  }

  lemma {:induction false} ExecOne(c: Setup, start: real, a: seq<Call>, b: Call)
    ensures Exec(c, start, a + [b]).mon == Do(c, Exec(c, start, a).mon, b).0
  {
    hide Do;
    assert (a + [b])[..|a + [b]| - 1] == a;
  }

  lemma {:induction false} ExecPings(c: Setup, start: real, a: seq<Call>, peers: seq<Probe>, now: real)
    ensures Exec(c, start, a + Pings(peers, now)).mon == AllProbed(c, Exec(c, start, a).mon, peers, now)
  {
    hide Exec, Probed;
    if peers == [] {
      assert a + Pings(peers, now) == a;
    } else {
      var front, last := peers[..|peers| - 1], Call(Ping(peers[|peers| - 1]), now);
      ExecPings(c, start, a, front, now);
      assert a + Pings(peers, now) == a + Pings(front, now) + [last];
      ExecOne(c, start, a + Pings(front, now), last);
    }
  }

  /** The calls of a round, made one after the other, are the round the monitor's method makes. */
  lemma {:induction false} RoundCallsAreRound(c: Setup, start: real, a: seq<Call>, peers: seq<Probe>, now: real)
    ensures Exec(c, start, a + RoundCalls(peers, now)).mon == Round(c, Exec(c, start, a).mon, peers, now)
  {
    hide Exec, AllProbed, Published, M.Ticked, Told, Pings;
    var first := a + [Call(Publish, now)];
    var pinged := first + Pings(peers, now);
    ExecOne(c, start, a, Call(Publish, now));
    ExecPings(c, start, first, peers, now);
    ExecOne(c, start, pinged, Call(CloseRound, now));
    assert a + RoundCalls(peers, now) == pinged + [Call(CloseRound, now)];
  }

  // ----- when a node's own lease was granted -----

  // The first of these times that is not before `from`, or |times|.
  function First(times: seq<real>, from: real): (k: nat)
    ensures k <= |times|
    ensures k < |times| ==> times[k] >= from
    ensures forall j :: 0 <= j < k ==> times[j] < from
  {
    if times == [] then 0
    else
      var k := First(times[..|times| - 1], from);
      if k < |times| - 1 then k
      else if times[|times| - 1] >= from then |times| - 1
      else |times|
  }

  // The round whose time the own lease held in round `k` was granted at: the one that announced
  // the first epoch, which is the first past the dwell time, and before it the very first.
  function GrantRound(cfg: M.Config, start: real, times: seq<real>, k: nat): (g: nat)
    ensures g <= k
  {
    var announcing := First(times, start + cfg.dwell);
    if announcing < k then announcing else 0
  }

  // Round `k` comes when that lease has run out.
  predicate IsLate(cfg: M.Config, start: real, times: seq<real>, k: nat, lasts: real)
    requires k < |times|
  {
    times[k] >= times[GrantRound(cfg, start, times, k)] + lasts
  }

  ghost predicate InTime(cfg: M.Config, start: real, times: seq<real>, lasts: real) {
    forall k :: 0 <= k < |times| ==> !IsLate(cfg, start, times, k, lasts)
  }

  // What a round adds does not change when earlier leases were granted.
  lemma {:induction false} GrantsStay(cfg: M.Config, start: real, times: seq<real>, n: nat, k: nat)
    requires k < n <= |times|
    ensures GrantRound(cfg, start, times[..n], k) == GrantRound(cfg, start, times, k)
  {
    var from := start + cfg.dwell;
    var a, b := First(times[..n], from), First(times, from);
    if a < k {
      assert times[a] >= from;
      assert b <= a;
    }
    if b < k {
      assert times[..n][b] >= from;
    }
  }

  lemma {:induction false} LateStays(cfg: M.Config, start: real, times: seq<real>, n: nat, k: nat, lasts: real)
    requires k < n <= |times|
    ensures IsLate(cfg, start, times[..n], k, lasts) <==> IsLate(cfg, start, times, k, lasts)
  {
    GrantsStay(cfg, start, times, n, k);
  }

  lemma {:induction false} InTimeSteps(cfg: M.Config, start: real, times: seq<real>, lasts: real)
    requires times != []
    ensures
      var n := |times| - 1;
      InTime(cfg, start, times, lasts)
      <==> InTime(cfg, start, times[..n], lasts) && !IsLate(cfg, start, times, n, lasts)
  {
    hide IsLate;
    var n := |times| - 1;
    forall k | 0 <= k < n
      ensures IsLate(cfg, start, times[..n], k, lasts) <==> IsLate(cfg, start, times, k, lasts)
    {
      LateStays(cfg, start, times, n, k, lasts);
    }
  }

  // ----- what rounds with every peer answering do -----

  // Every peer answers, under the ID of its profile, and none of them is the local node.
  ghost predicate Answering(c: Setup, peers: seq<Probe>) {
    && c.local.Some?
    && forall k :: 0 <= k < |peers| ==>
         && peers[k].alive && peers[k].id != c.local.value.nodeID
         && (peers[k].profile.Some? ==> peers[k].profile.value.nodeID == peers[k].id)
  }

  ghost predicate Sane(c: Setup) {
    c.local.Some? && c.members.threshold >= 1 && c.members.leaseDuration > 0.0
  }

  function Lasts(c: Setup): real
    requires c.local.Some?
  {
    M.Duration(c.members, c.local.value)
  }

  // The peers that answer with a profile.
  function Known(peers: seq<Probe>): set<NodeID> {
    set p | p in peers && p.profile.Some? :: p.id
  }

  // The local node is a member whose lease was granted at `granted`; every member is one for
  // planning, has missed nothing, and is in `all`.
  ghost predicate Manned(c: Setup, s: M.Members, all: set<NodeID>, granted: real)
    requires c.local.Some?
  {
    var id := c.local.value.nodeID;
    && id in s.storage && s.storage.Keys <= all + {id}
    && s.storage[id].profile == c.local.value
    && s.storage[id].lease.Some? && s.storage[id].lease.value.expiresAt == granted + Lasts(c)
    && forall x :: x in s.storage ==> s.storage[x].state.Plans() && s.storage[x].missed == 0
  }

  // In the middle of a round at `now`, those in `seen` are members whose leases run.
  ghost predicate Tended(c: Setup, s: M.Members, seen: set<NodeID>, all: set<NodeID>, granted: real, now: real)
    requires c.local.Some?
  {
    && Manned(c, s, all, granted) && seen <= s.storage.Keys
    && forall x :: x in seen && x != c.local.value.nodeID ==>
         s.storage[x].lease.Some? && now < s.storage[x].lease.value.expiresAt
  }

  lemma JoinsPlanning(p: Profile)
    ensures InitialState(p).Plans()
  {
  }

  // One answered ping.
  lemma ProbedIsTended(
    c: Setup, s: Mon, p: Probe, seen: set<NodeID>, all: set<NodeID>, granted: real, now: real)
    requires Sane(c) && Tended(c, s.members, seen, all, granted, now)
    requires p.alive && p.id != c.local.value.nodeID
    requires p.profile.Some? ==> p.profile.value.nodeID == p.id && p.id in all
    ensures
      var after := Probed(c, s, p, now).after;
      && Tended(c, after, if p.profile.Some? then seen + {p.id} else seen, all, granted, now)
      && after.epoch == s.members.epoch && after.announced == s.members.announced
      && after.changedAt == s.members.changedAt
  {
    if p.profile.Some? {
      JoinsPlanning(p.profile.value);
    }
  }

  lemma {:induction false} AllProbedAreTended(
    c: Setup, s: Mon, peers: seq<Probe>, all: set<NodeID>, granted: real, now: real)
    requires Sane(c) && Answering(c, peers) && Known(peers) <= all
    requires Tended(c, s.members, {}, all, granted, now)
    ensures
      var after := AllProbed(c, s, peers, now);
      && Tended(c, after.members, Known(peers), all, granted, now)
      && after == s.(members := after.members) && after.members.epoch == s.members.epoch
      && after.members.announced == s.members.announced && after.members.changedAt == s.members.changedAt
  {
    hide Tended, Probed, Sane;
    if peers == [] {
      assert Known(peers) == {};
    } else {
      var front, last := peers[..|peers| - 1], peers[|peers| - 1];
      assert peers == front + [last];
      KnownSnoc(front, last);
      AllProbedAreTended(c, s, front, all, granted, now);
      ProbedIsTended(c, AllProbed(c, s, front, now), last, Known(front), all, granted, now);
    }
  }

  lemma KnownSnoc(front: seq<Probe>, last: Probe)
    ensures Known(front + [last]) == if last.profile.Some? then Known(front) + {last.id} else Known(front)
  {
    if last.profile.Some? {
      assert last in front + [last];
    }
  }

  lemma PublishedIsTended(c: Setup, s: Mon, all: set<NodeID>, granted: real, now: real)
    requires Sane(c)
    requires if s.members.storage == map[] then granted == now else Manned(c, s.members, all, granted)
    ensures
      var after := Published(c, s, now).after;
      && Tended(c, after, {}, all, granted, now)
      && (s.members.storage.Keys == all + {c.local.value.nodeID} ==> after.storage.Keys == s.members.storage.Keys)
      && after == s.members.(storage := after.storage)
  {
    JoinsPlanning(c.local.value);
  }

  predicate NothingToEvict(cfg: M.Config, s: M.Members, now: real) {
    forall x :: x in s.storage ==> s.storage[x].state.Plans() && M.Verdict(cfg, s.storage[x], now).None?
  }

  lemma NobodyIsSwept(cfg: M.Config, s: M.Members, now: real)
    requires NothingToEvict(cfg, s, now)
    ensures M.SweptAll(cfg, s, now) == s.storage && M.Planning(s.storage) == s.storage.Keys
  {
    hide M.Verdict;
  }

  lemma NobodyIsLost(cfg: M.Config, s: M.Members, now: real)
    requires NothingToEvict(cfg, s, now)
    ensures forall k :: 0 <= k < |M.Ticked(cfg, s, now).events| ==>
      W.LossOf(M.Ticked(cfg, s, now).events[k]).None?
  {
    hide M.Verdict, M.Ticked;
    LossesAreVerdicts(cfg, s, now);
  }

  // A tick that finds nothing to evict.
  lemma TickOfTended(cfg: M.Config, s: M.Members, now: real)
    requires NothingToEvict(cfg, s, now)
    ensures
      M.Ticked(cfg, s, now).after
      == if s.announced == s.storage.Keys then s
         else if now - s.changedAt >= cfg.dwell then
           M.Members(M.Reissued(cfg, s.epoch + 1, s.storage, s.storage.Keys, now), s.epoch + 1, now, s.storage.Keys)
         else s
  {
    hide M.Verdict, M.SweptAll, M.Evictions, M.Planning, M.Reissued, NothingToEvict;
    NobodyIsSwept(cfg, s, now);
  }

  // Nobody but the local node has a verdict, and it has one exactly when its lease has run out.
  lemma VerdictsOfTended(c: Setup, s: M.Members, all: set<NodeID>, granted: real, now: real)
    requires Sane(c) && Tended(c, s, all, all, granted, now)
    ensures
      var id := c.local.value.nodeID;
      && (forall x :: x in s.storage && x != id ==> M.Verdict(c.members, s.storage[x], now).None?)
      && M.Verdict(c.members, s.storage[id], now)
         == if now >= granted + Lasts(c) then Some(M.LeaseLapsed) else None
  {
  }

  // In between rounds, none of them late.
  ghost predicate Standing(c: Setup, start: real, peers: seq<Probe>, times: seq<real>, s: Mon)
    requires c.local.Some?
  {
    if times == [] then s == Start(start)
    else
      var all := Known(peers) + {c.local.value.nodeID};
      && Manned(c, s.members, Known(peers), times[GrantRound(c.members, start, times, |times|)])
      && s.members.storage.Keys == all
      && s.dog == W.Started(start) && !s.rebuilding
      && if First(times, start + c.members.dwell) < |times| then s.members.announced == all
         else s.members.announced == {} && s.members.changedAt == start
  }

  // What the pings of one more round leave to its tick.
  lemma {:induction false} RoundIsTended(c: Setup, start: real, peers: seq<Probe>, times: seq<real>, s: Mon)
    requires Sane(c) && Answering(c, peers) && times != []
    requires Standing(c, start, peers, times[..|times| - 1], s)
    ensures
      var n := |times| - 1;
      var now, all := times[n], Known(peers) + {c.local.value.nodeID};
      var probed := AllProbed(c, s.(members := Published(c, s, now).after), peers, now);
      && Tended(c, probed.members, Known(peers), Known(peers), times[GrantRound(c.members, start, times, n)], now)
      && probed.dog == W.Started(start) && !probed.rebuilding
      && probed.members.storage.Keys == all
      && if First(times, start + c.members.dwell) < n then probed.members.announced == all
         else probed.members.announced == {} && probed.members.changedAt == start
  {
    var n := |times| - 1;
    var now, all, granted := times[n], Known(peers), times[GrantRound(c.members, start, times, n)];
    var front := times[..n];
    FirstOfFront(times, start + c.members.dwell);
    GrantHeld(c.members, start, times);
    hide First, GrantRound, AllProbed, Sane, Answering, Manned;
    PublishedIsTended(c, s, all, granted, now);
    var published := s.(members := Published(c, s, now).after);
    hide Published;
    AllProbedAreTended(c, published, peers, all, granted, now);
  }

  lemma {:induction false} GrantHeld(cfg: M.Config, start: real, times: seq<real>)
    requires times != []
    ensures
      var n := |times| - 1;
      && GrantRound(cfg, start, times[..n], n) == GrantRound(cfg, start, times, n)
      && (n == 0 ==> GrantRound(cfg, start, times, n) == 0)
      && (n > 0 ==> GrantRound(cfg, start, times, n) < n)
  {
    FirstOfFront(times, start + cfg.dwell);
  }

  lemma {:induction false} FirstOfFront(times: seq<real>, from: real)
    requires times != []
    ensures
      var n := |times| - 1;
      var f := First(times[..n], from);
      First(times, from) == if f < n then f else if times[n] >= from then n else n + 1
  {
  }

  lemma {:induction false} AllProbedLeavesDog(c: Setup, s: Mon, peers: seq<Probe>, now: real)
    ensures AllProbed(c, s, peers, now) == s.(members := AllProbed(c, s, peers, now).members)
  {
    hide Probed;
    if peers != [] {
      AllProbedLeavesDog(c, s, peers[..|peers| - 1], now);
    }
  }

  lemma {:induction false} NoLossConsumed(dog: W.Dog, events: seq<M.Event>, now: real)
    requires forall k :: 0 <= k < |events| ==> W.LossOf(events[k]).None?
    ensures W.Consumed(dog, events, now) == dog
  {
    if events != [] {
      NoLossConsumed(dog, events[..|events| - 1], now);
    }
  }

  // Telling a running watchdog of no loss.
  lemma {:induction false} ToldNothing(c: Setup, s: Mon, e: M.Effect, now: real)
    requires s.dog.phase.Running? && s.dog.pending.None?
    requires forall k :: 0 <= k < |e.events| ==> W.LossOf(e.events[k]).None?
    ensures
      var told := Told(c, s, e, now);
      told.dog == s.dog && told.rebuilding == s.rebuilding && told.members == e.after
  {
    NoLossConsumed(s.dog, e.events, now);
    hide W.Consumed;
  }

  lemma ReissuedIsManned(c: Setup, s: M.Members, all: set<NodeID>, granted: real, now: real)
    requires Sane(c) && Manned(c, s, all, granted)
    ensures
      var storage := M.Reissued(c.members, s.epoch + 1, s.storage, s.storage.Keys, now);
      && storage.Keys == s.storage.Keys
      && Manned(c, M.Members(storage, s.epoch + 1, now, s.storage.Keys), all, now)
  {
  }

  // What a tick in time leaves: the first epoch, if it was due, and new leases with it.
  lemma TickStands(c: Setup, s: M.Members, known: set<NodeID>, granted: real, start: real, now: real)
    requires Sane(c) && Tended(c, s, known, known, granted, now) && now < granted + Lasts(c)
    requires s.announced == s.storage.Keys || (s.announced == {} && s.changedAt == start)
    ensures NothingToEvict(c.members, s, now)
    ensures
      var after := M.Ticked(c.members, s, now).after;
      var renewed := s.announced == {} && now - start >= c.members.dwell;
      && after.storage.Keys == s.storage.Keys
      && Manned(c, after, known, if renewed then now else granted)
      && after.announced == (if renewed then s.storage.Keys else s.announced)
      && (!renewed ==> after.changedAt == s.changedAt)
  {
    VerdictsOfTended(c, s, known, granted, now);
    hide M.Verdict, M.Ticked, M.Reissued;
    assert s.storage.Keys != {} by {
      assert c.local.value.nodeID in s.storage.Keys;
    }
    TickOfTended(c.members, s, now);
    ReissuedIsManned(c, s, known, granted, now);
  }

  // Where the lease of the next round was granted.
  lemma {:induction false} GrantMoves(cfg: M.Config, start: real, times: seq<real>)
    requires times != []
    ensures
      var n, f := |times| - 1, First(times, start + cfg.dwell);
      var here, next := GrantRound(cfg, start, times, n), GrantRound(cfg, start, times, n + 1);
      && here <= n && next <= n
      && (f < n ==> next == here)
      && (f == n ==> times[n] - start >= cfg.dwell && next == n)
      && (f > n ==> times[n] - start < cfg.dwell && next == here)
  {
  }

  /** A round in time leaves the ring standing. */
  lemma {:induction false} RoundStands(c: Setup, start: real, peers: seq<Probe>, times: seq<real>, s: Mon)
    requires Sane(c) && c.local.Some? && Answering(c, peers) && times != []
    requires Standing(c, start, peers, times[..|times| - 1], s)
    requires !IsLate(c.members, start, times, |times| - 1, Lasts(c))
    ensures Standing(c, start, peers, times, Round(c, s, peers, times[|times| - 1]))
  {
    hide AllProbed, Published, First, GrantRound, M.Ticked, Manned, Tended, Sane, Answering, Known, NothingToEvict;
    hide Told, M.Duration;
    var n := |times| - 1;
    GrantMoves(c.members, start, times);
    var now, granted := times[n], times[GrantRound(c.members, start, times, n)];
    RoundIsTended(c, start, peers, times, s);
    var probed := AllProbed(c, s.(members := Published(c, s, now).after), peers, now);
    var m := probed.members;
    assert c.local.value.nodeID in Known(peers) + {c.local.value.nodeID};
    TickStands(c, m, Known(peers), granted, start, now);
    NobodyIsLost(c.members, m, now);
    ToldNothing(c, probed, M.Ticked(c.members, m, now), now);
  }

  // The watchdog holds the local node for lost since `at`.
  ghost predicate Blaming(s: Mon, id: NodeID, start: real, at: real) {
    && s.dog.pending == Some(W.Pending(W.Unreachable(id), at)) && s.dog.progressAt == start
    && (s.dog.phase.Running? ==> !s.rebuilding)
    && (!s.dog.phase.Running? ==> s.dog.phase.reason == W.Unreachable(id))
  }

  lemma {:induction false} LateTickBlames(c: Setup, s: Mon, start: real, now: real, id: NodeID)
    requires s.dog == W.Started(start) && !s.rebuilding && id in s.members.storage
    requires M.Verdict(c.members, s.members.storage[id], now) == Some(M.LeaseLapsed)
    requires forall x :: x in s.members.storage && x != id ==> M.Verdict(c.members, s.members.storage[x], now).None?
    ensures
      var after := Told(c, s, M.Ticked(c.members, s.members, now), now);
      && Blaming(after, id, start, now)
      && (now >= W.Later(start, now) + c.dog.grace ==> !after.dog.phase.Running?)
  {
    OwnLossIsRecorded(c, s, now, id);
    hide M.Verdict, M.Ticked, W.Consumed;
    W.ConsumedOnlyPends(s.dog, M.Ticked(c.members, s.members, now).events, now);
  }

  /** A late one evicts the local node, and nobody else. */
  lemma {:induction false} LateRoundBlames(c: Setup, start: real, peers: seq<Probe>, times: seq<real>, s: Mon)
    requires Sane(c) && Answering(c, peers) && times != []
    requires Standing(c, start, peers, times[..|times| - 1], s)
    requires IsLate(c.members, start, times, |times| - 1, Lasts(c))
    ensures
      var now := times[|times| - 1];
      var after := Round(c, s, peers, now);
      && Blaming(after, c.local.value.nodeID, start, now)
      && (now >= W.Later(start, now) + c.dog.grace ==> !after.dog.phase.Running?)
  {
    var n := |times| - 1;
    var now, granted := times[n], times[GrantRound(c.members, start, times, n)];
    RoundIsTended(c, start, peers, times, s);
    var probed := AllProbed(c, s.(members := Published(c, s, now).after), peers, now);
    hide AllProbed, Published, First, GrantRound, M.Verdict, M.Ticked, Told, Blaming;
    VerdictsOfTended(c, probed.members, Known(peers), granted, now);
    assert c.local.value.nodeID in probed.members.storage;
    hide Tended, Standing, Sane, Answering;
    LateTickBlames(c, probed, start, now, c.local.value.nodeID);
  }

  lemma {:induction false} RoundKeepsBlaming(
    c: Setup, peers: seq<Probe>, now: real, s: Mon, id: NodeID, start: real, at: real)
    requires Blaming(s, id, start, at)
    ensures
      var after := Round(c, s, peers, now);
      && Blaming(after, id, start, at)
      && (now >= W.Later(start, at) + c.dog.grace ==> !after.dog.phase.Running?)
  {
    var published := s.(members := Published(c, s, now).after);
    AllProbedLeavesDog(c, published, peers, now);
    var probed := AllProbed(c, published, peers, now);
    W.ConsumedOnlyPends(probed.dog, M.Ticked(c.members, probed.members, now).events, now);
    hide AllProbed, Published, M.Ticked, W.Consumed;
  }

  // ----- over whole runs -----

  lemma {:induction false} RoundsStand(c: Setup, start: real, peers: seq<Probe>, times: seq<real>)
    requires Sane(c) && Answering(c, peers) && InTime(c.members, start, times, Lasts(c))
    ensures Standing(c, start, peers, times, Exec(c, start, Rounds(peers, times)).mon)
  {
    if times != [] {
      hide Standing, Round, RoundCalls, IsLate, Sane, Answering;
      var n := |times| - 1;
      InTimeSteps(c.members, start, times, Lasts(c));
      RoundsStand(c, start, peers, times[..n]);
      RoundCallsAreRound(c, start, Rounds(peers, times[..n]), peers, times[n]);
      RoundStands(c, start, peers, times, Exec(c, start, Rounds(peers, times[..n])).mon);
    }
  }

  lemma {:induction false} RoundsBlame(c: Setup, start: real, peers: seq<Probe>, times: seq<real>, n: nat)
    requires Sane(c) && Answering(c, peers) && n < |times|
    requires InTime(c.members, start, times[..n], Lasts(c)) && IsLate(c.members, start, times, n, Lasts(c))
    ensures
      var s := Exec(c, start, Rounds(peers, times)).mon;
      && Blaming(s, c.local.value.nodeID, start, times[n])
      && (times[|times| - 1] >= W.Later(start, times[n]) + c.dog.grace ==> !s.dog.phase.Running?)
  {
    hide Standing, Round, RoundCalls, Answering, Blaming, InTime, IsLate, Exec;
    var front, now := times[..|times| - 1], times[|times| - 1];
    RoundCallsAreRound(c, start, Rounds(peers, front), peers, now);
    var before := Exec(c, start, Rounds(peers, front)).mon;
    if n == |times| - 1 {
      RoundsStand(c, start, peers, front);
      LateRoundBlames(c, start, peers, times, before);
    } else {
      LateStays(c.members, start, times, |front|, n, Lasts(c));
      assert front[..n] == times[..n];
      RoundsBlame(c, start, peers, front, n);
      RoundKeepsBlaming(c, peers, now, before, c.local.value.nodeID, start, times[n]);
    }
  }

  // The first round that comes late.
  lemma {:induction false} FirstLate(cfg: M.Config, start: real, times: seq<real>, lasts: real) returns (n: nat)
    requires !InTime(cfg, start, times, lasts)
    ensures n < |times| && InTime(cfg, start, times[..n], lasts) && IsLate(cfg, start, times, n, lasts)
  {
    n := |times| - 1;
    InTimeSteps(cfg, start, times, lasts);
    if !InTime(cfg, start, times[..n], lasts) {
      var m := FirstLate(cfg, start, times[..n], lasts);
      LateStays(cfg, start, times, n, m, lasts);
      assert times[..n][..m] == times[..m];
      n := m;
    }
  }

  /**
   * However many rounds are made and whenever, with every peer answering every ping in all of
   * them: the monitor loses a node if and only if some round comes after its own lease has run
   * out, which nothing has renewed since the first epoch was announced. The node is its own, lost
   * at the first such round, and `grace` later the ring is no longer running because of it.
   */
  lemma {:induction false} AnsweringRingLosesItselfIff(c: Setup, start: real, peers: seq<Probe>, times: seq<real>)
    requires Sane(c) && Answering(c, peers)
    ensures
      var dog := Exec(c, start, Rounds(peers, times)).mon.dog;
      var own := W.Unreachable(c.local.value.nodeID);
      && (dog.pending.None? <==> InTime(c.members, start, times, Lasts(c)))
      && (dog.pending.None? ==> dog == W.Started(start))
      && forall n :: 0 <= n < |times| && InTime(c.members, start, times[..n], Lasts(c))
                     && IsLate(c.members, start, times, n, Lasts(c)) ==>
           && dog.pending == Some(W.Pending(own, times[n]))
           && (times[|times| - 1] >= W.Later(start, times[n]) + c.dog.grace ==>
                 !dog.phase.Running? && dog.phase.reason == own)
  {
    hide InTime, IsLate, Exec, Rounds, Answering;
    if InTime(c.members, start, times, Lasts(c)) {
      RoundsStand(c, start, peers, times);
    } else {
      var first := FirstLate(c.members, start, times, Lasts(c));
      RoundsBlame(c, start, peers, times, first);
    }
    forall n | 0 <= n < |times| && InTime(c.members, start, times[..n], Lasts(c))
               && IsLate(c.members, start, times, n, Lasts(c))
      ensures Blaming(Exec(c, start, Rounds(peers, times)).mon, c.local.value.nodeID, start, times[n])
      ensures times[|times| - 1] >= W.Later(start, times[n]) + c.dog.grace ==>
                !Exec(c, start, Rounds(peers, times)).mon.dog.phase.Running?
    {
      RoundsBlame(c, start, peers, times, n);
    }
  }

  // ----- with the figures the app runs with -----

  const MemberFigures := M.Config(60.0, 3, 5.0)
  const DogFigures := W.Config(10.0, 2.0, 30.0, 3)

  function EveryTwoSeconds(rounds: nat): seq<real> {
    seq(rounds, k requires 0 <= k < rounds => 2.0 * k as real)
  }

  // The first round that finds the own lease run out: 36 s on a phone, 66 s elsewhere.
  function LateRound(p: Profile): nat {
    if p.backgroundLink == IosSuspended then 18 else 33
  }

  lemma {:induction false} LateAt(p: Profile, rounds: nat, k: nat)
    requires k < rounds
    ensures IsLate(MemberFigures, 0.0, EveryTwoSeconds(rounds), k, M.Duration(MemberFigures, p)) <==> k >= LateRound(p)
  {
    var times := EveryTwoSeconds(rounds);
    var f := First(times, 5.0);
    if rounds > 3 {
      assert times[3] == 6.0 && times[2] == 4.0;
      assert f == 3;
    }
  }

  /**
   * So in the app, with a round every two seconds and every peer answering every ping, the first
   * rounds lose nobody; the round 36 s (on a phone) or 66 s (elsewhere) after the start reports the
   * app's own node unreachable, and the next one ends the running ring for it.
   */
  lemma {:induction false} AppBlamesItself(p: Profile, canReform: bool, peers: seq<Probe>, rounds: nat)
    requires Answering(Setup(MemberFigures, DogFigures, canReform, Some(p)), peers)
    ensures
      var c := Setup(MemberFigures, DogFigures, canReform, Some(p));
      var dog := Exec(c, 0.0, Rounds(peers, EveryTwoSeconds(rounds))).mon.dog;
      var late := LateRound(p);
      && (rounds <= late ==> dog == W.Started(0.0))
      && (rounds > late ==> dog.pending == Some(W.Pending(W.Unreachable(p.nodeID), 2.0 * late as real)))
      && (rounds > late + 1 ==> !dog.phase.Running? && dog.phase.reason == W.Unreachable(p.nodeID))
  {
    hide Exec, Rounds, Answering, IsLate;
    var c := Setup(MemberFigures, DogFigures, canReform, Some(p));
    var times, late := EveryTwoSeconds(rounds), LateRound(p);
    AnsweringRingLosesItselfIff(c, 0.0, peers, times);
    forall k: nat | k < rounds
      ensures IsLate(MemberFigures, 0.0, times, k, Lasts(c)) <==> k >= late
    {
      LateAt(p, rounds, k);
    }
    if rounds > late {
      assert times[..late] == EveryTwoSeconds(late);
      forall k: nat | k < late
        ensures !IsLate(MemberFigures, 0.0, times[..late], k, Lasts(c))
      {
        LateAt(p, late, k);
      }
      assert InTime(c.members, 0.0, times[..late], Lasts(c));
      assert IsLate(c.members, 0.0, times, late, Lasts(c));
    }
  }
}
