/**
 * The leader election of the ring. Devices are numbered by their place in the list of
 * discovered devices sorted by name, so a device's number stands for its DeviceID, and every
 * device holds the same list. `ram[i]` is the recommendedUsageRAM of device `i`.
 */
module Election {
  import opened Base

  datatype Role = Inactive | Candidate | Coordinator | Follower

  datatype Kind = Election | Announcement

  datatype Message = Message(kind: Kind, candidate: nat, ram: int)

  // `order[k]` is the device of rank k.
  datatype Ring = Ring(order: seq<nat>, coordinator: nat)

  datatype Device = Device(role: Role, coordinatorID: Option<nat>, ring: Option<Ring>)

  datatype Outcome = Outcome(device: Device, sent: Option<Message>)

  // ----- one device's handlers, as functions of its fields -----

  function Next(n: nat, i: nat): (j: nat)
    requires i < n
  {
    if i + 1 == n then 0 else i + 1
  }

  function Range(lo: nat, hi: nat): seq<nat>
    requires lo <= hi
  {
    seq(hi - lo, k requires 0 <= k < hi - lo => lo + k)
  }

  function RingOf(n: nat, c: nat): Ring
    requires c < n
  {
    Ring(Range(c, n) + Range(0, c), c)
  }

  function Rebuilt(n: nat, d: Device): Device {
    if d.coordinatorID.Some? && d.coordinatorID.value < n
    then d.(ring := Some(RingOf(n, d.coordinatorID.value)))
    else d
  }

  function Initiate(me: nat, ram: int, d: Device): Outcome {
    Outcome(d.(role := Candidate), Some(Message(Election, me, ram)))
  }

  function Stopped(d: Device): Device {
    d.(ring := None, role := Inactive)
  }

  function Handle(n: nat, me: nat, ram: int, d: Device, m: Message): Outcome {
    match m.kind
    case Election =>
      if ram < m.ram then Outcome(d.(role := Follower), Some(m))
      else if m.candidate != me then
        if d.role != Candidate then Initiate(me, ram, d) else Outcome(d, None)
      else
        Outcome(d.(coordinatorID := Some(me), role := Coordinator),
                Some(Message(Announcement, me, ram)))
    case Announcement =>
      var role := if m.candidate == me then Coordinator else Follower;
      var d' := Rebuilt(n, d.(coordinatorID := Some(m.candidate), role := role));
      Outcome(d', if m.candidate != me then Some(m) else None)
  }

  /** The coordinator object: its methods update the fields as the handlers above say. */
  class RingCoordinator {
    const count: nat
    const myIndex: nat
    const currentRAM: int
    var state: Role
    var coordinatorID: Option<nat>
    var currentRing: Option<Ring>

    ghost function View(): Device
      reads this
    {
      Device(state, coordinatorID, currentRing)
    }

    constructor (count: nat, myIndex: nat, ram: int)
      requires myIndex < count
      ensures View() == Device(Inactive, None, None)
      ensures this.count == count && this.myIndex == myIndex && currentRAM == ram
    {
      this.count, this.myIndex, currentRAM := count, myIndex, ram;
      state, coordinatorID, currentRing := Inactive, None, None;
    }

    // The device messages are sent to; none in a ring of one.
    method GetSuccessor() returns (next: Option<nat>)
      requires myIndex < count
      ensures next == if count == 1 then None else Some(Next(count, myIndex))
    {
      var nextIndex := (myIndex + 1) % count;
      if myIndex + 1 < count {
        assert nextIndex == myIndex + 1;
      } else {
        assert nextIndex == 0;
      }
      next := if nextIndex == myIndex then None else Some(nextIndex);
    }

    method InitiateElection() returns (sent: Option<Message>)
      modifies this
      ensures Outcome(View(), sent) == Initiate(myIndex, currentRAM, old(View()))
    {
      state := Candidate;
      sent := Some(Message(Election, myIndex, currentRAM));
    }

    method StopFormation()
      modifies this
      ensures View() == Stopped(old(View()))
    {
      currentRing := None;
      state := Inactive;
    }

    method BecomeCoordinator() returns (sent: Option<Message>)
      modifies this
      ensures View() == old(View()).(coordinatorID := Some(myIndex), role := Coordinator)
      ensures sent == Some(Message(Announcement, myIndex, currentRAM))
    {
      coordinatorID := Some(myIndex);
      state := Coordinator;
      sent := Some(Message(Announcement, myIndex, currentRAM));
    }

    method BuildRing()
      modifies this`currentRing
      ensures View() == Rebuilt(count, old(View()))
    {
      if coordinatorID.None? || coordinatorID.value >= count {
        return;
      }
      var all := Range(0, count);
      var c := coordinatorID.value;
      assert all[c..] == Range(c, count) && all[..c] == Range(0, c);
      currentRing := Some(Ring(all[c..] + all[..c], c));
    }

    method ProcessElectionMessage(m: Message) returns (sent: Option<Message>)
      modifies this
      ensures Outcome(View(), sent) == Handle(count, myIndex, currentRAM, old(View()), m)
    {
      sent := None;
      match m.kind {
        case Election =>
          if currentRAM < m.ram {
            state := Follower;
            sent := Some(m);
          } else if m.candidate != myIndex {
            if state != Candidate {
              sent := InitiateElection();
            }
          } else {
            sent := BecomeCoordinator();
          }
        case Announcement =>
          coordinatorID := Some(m.candidate);
          state := if m.candidate == myIndex then Coordinator else Follower;
          BuildRing();
          if m.candidate != myIndex {
            sent := Some(m);
          }
      }
    }
  }

  // ----- the whole ring: devices and an unordered network -----

  datatype Envelope = Envelope(dest: nat, msg: Message)

  datatype System = System(devices: seq<Device>, net: seq<Envelope>)

  // Deliver and Lose name any message in flight, so messages may overtake each other.
  datatype Step = Start(i: nat) | Stop(i: nat) | Deliver(k: nat) | Lose(k: nat)

  function Posted(n: nat, from: nat, sent: Option<Message>): seq<Envelope>
    requires from < n
  {
    if sent.Some? then [Envelope(Next(n, from), sent.value)] else []
  }

  function Init(ram: seq<int>): System {
    System(seq(|ram|, i => Device(Inactive, None, None)), [])
  }

  function Without(net: seq<Envelope>, k: nat): seq<Envelope>
    requires k < |net|
  {
    net[..k] + net[k + 1..]
  }

  predicate Shaped(ram: seq<int>, s: System) {
    && |s.devices| == |ram|
    && forall k :: 0 <= k < |s.net| ==> s.net[k].dest < |ram|
  }

  // A step that names no device or no message in flight changes nothing.
  function Apply(ram: seq<int>, s: System, step: Step): (s': System)
    requires Shaped(ram, s)
    ensures Shaped(ram, s')
  {
    var n := |ram|;
    match step
    case Start(i) =>
      if i < n then
        var o := Initiate(i, ram[i], s.devices[i]);
        System(s.devices[i := o.device], s.net + Posted(n, i, o.sent))
      else s
    case Stop(i) =>
      if i < n then s.(devices := s.devices[i := Stopped(s.devices[i])]) else s
    case Deliver(k) =>
      if k < |s.net| then
        var i := s.net[k].dest;
        var o := Handle(n, i, ram[i], s.devices[i], s.net[k].msg);
        System(s.devices[i := o.device], Without(s.net, k) + Posted(n, i, o.sent))
      else s
    case Lose(k) =>
      if k < |s.net| then s.(net := Without(s.net, k)) else s
  }

  function Exec(ram: seq<int>, steps: seq<Step>): (s: System)
    ensures Shaped(ram, s)
  {
    if steps == [] then Init(ram)
    else Apply(ram, Exec(ram, steps[..|steps| - 1]), steps[|steps| - 1])
  }

  lemma {:induction false} ExecStep(ram: seq<int>, steps: seq<Step>)
    requires steps != []
    ensures Exec(ram, steps) == Apply(ram, Exec(ram, steps[..|steps| - 1]), steps[|steps| - 1])
  {
    hide Apply;
  }

  // ----- safety -----

  ghost predicate StrictMax(ram: seq<int>, c: nat) {
    c < |ram| && forall j :: 0 <= j < |ram| && j != c ==> ram[j] < ram[c]
  }

  // Hops from device i forward to device j.
  function Dist(n: nat, i: nat, j: nat): nat
    requires i < n && j < n
  {
    if i <= j then j - i else j + n - i
  }

  // Device j was passed by a message that left c and is now addressed to dest.
  predicate Passed(n: nat, c: nat, j: nat, dest: nat)
    requires c < n && j < n && dest < n
  {
    j != c && (dest == c || Dist(n, c, j) < Dist(n, c, dest))
  }

  ghost predicate SafeMessage(ram: seq<int>, e: Envelope) {
    && e.dest < |ram| && e.msg.candidate < |ram|
    && e.msg.ram == ram[e.msg.candidate]
    && match e.msg.kind
       case Election =>
         forall j :: 0 <= j < |ram| && Passed(|ram|, e.msg.candidate, j, e.dest) ==>
           ram[j] < ram[e.msg.candidate]
       case Announcement => StrictMax(ram, e.msg.candidate)
  }

  ghost predicate SafeDevice(ram: seq<int>, i: nat, d: Device) {
    && (d.role == Coordinator ==> StrictMax(ram, i))
    && (d.coordinatorID.Some? ==> StrictMax(ram, d.coordinatorID.value))
    && (d.ring.Some? ==> StrictMax(ram, d.ring.value.coordinator)
                         && d.ring.value == RingOf(|ram|, d.ring.value.coordinator))
  }

  ghost predicate Safe(ram: seq<int>, s: System) {
    && Shaped(ram, s)
    && (forall i :: 0 <= i < |ram| ==> SafeDevice(ram, i, s.devices[i]))
    && (forall k :: 0 <= k < |s.net| ==> SafeMessage(ram, s.net[k]))
  }

  lemma PassedOneMore(n: nat, c: nat, dest: nat, j: nat)
    requires 2 <= n && c < n && dest < n && j < n && dest != c
    ensures Passed(n, c, j, Next(n, dest)) ==> Passed(n, c, j, dest) || j == dest
  {
  }

  lemma HandlePreservesSafety(ram: seq<int>, s: System, k: nat)
    requires 2 <= |ram| && Safe(ram, s) && k < |s.net|
    ensures
      var i := s.net[k].dest;
      var o := Handle(|ram|, i, ram[i], s.devices[i], s.net[k].msg);
      SafeDevice(ram, i, o.device)
      && (o.sent.Some? ==> SafeMessage(ram, Envelope(Next(|ram|, i), o.sent.value)))
  {
    var n := |ram|;
    var e := s.net[k];
    var c := e.msg.candidate;
    assert SafeMessage(ram, e) && SafeDevice(ram, e.dest, s.devices[e.dest]);
    if e.msg.kind == Election && ram[e.dest] < e.msg.ram {
      forall j | 0 <= j < n && Passed(n, c, j, Next(n, e.dest))
        ensures ram[j] < ram[c]
      {
        PassedOneMore(n, c, e.dest, j);
      }
    }
  }

  lemma StepPreservesSafety(ram: seq<int>, s: System, step: Step)
    requires 2 <= |ram| && Safe(ram, s)
    ensures Safe(ram, Apply(ram, s, step))
  {
    match step
    case Start(i) =>
    case Stop(i) =>
    case Lose(k) =>
    case Deliver(k) =>
      if k < |s.net| {
        HandlePreservesSafety(ram, s, k);
      }
  }

  lemma {:induction false} RunIsSafe(ram: seq<int>, steps: seq<Step>)
    requires 2 <= |ram|
    ensures Safe(ram, Exec(ram, steps))
  {
    if steps != [] {
      RunIsSafe(ram, steps[..|steps| - 1]);
      StepPreservesSafety(ram, Exec(ram, steps[..|steps| - 1]), steps[|steps| - 1]);
    }
  }

  /**
   * In every run, with starts, stops, losses and reordering, a device is coordinator only if its
   * RAM is strictly greater than every other device's, and everything stored anywhere names that
   * one device: all rings that exist are the same ring.
   */
  lemma {:induction false} ElectionSafety(ram: seq<int>, steps: seq<Step>, i: nat, j: nat)
    requires 2 <= |ram| && i < |ram| && j < |ram|
    ensures
      var s := Exec(ram, steps);
      var a, b := s.devices[i], s.devices[j];
      && (a.role == Coordinator ==> forall o :: 0 <= o < |ram| && o != i ==> ram[o] < ram[i])
      && (a.role == Coordinator && b.role == Coordinator ==> i == j)
      && (a.role == Coordinator && b.coordinatorID.Some? ==> b.coordinatorID == Some(i))
      && (a.coordinatorID.Some? && b.coordinatorID.Some? ==> a.coordinatorID == b.coordinatorID)
      && (a.ring.Some? && b.ring.Some? ==> a.ring == b.ring)
      && (a.ring.Some? && b.coordinatorID.Some? ==> b.coordinatorID == Some(a.ring.value.coordinator))
  {
    RunIsSafe(ram, steps);
    hide Exec, SafeDevice;
    var s := Exec(ram, steps);
    SafeDevicesAgree(ram, i, s.devices[i], j, s.devices[j]);
  }

  lemma OneStrictMax(ram: seq<int>, c: nat, d: nat)
    requires StrictMax(ram, c) && StrictMax(ram, d)
    ensures c == d
  {
    assert ram[c] <= ram[d] || ram[d] <= ram[c];
  }

  lemma SafeDevicesAgree(ram: seq<int>, i: nat, a: Device, j: nat, b: Device)
    requires SafeDevice(ram, i, a) && SafeDevice(ram, j, b)
    ensures a.role == Coordinator ==> forall o :: 0 <= o < |ram| && o != i ==> ram[o] < ram[i]
    ensures a.role == Coordinator && b.role == Coordinator ==> i == j
    ensures a.role == Coordinator && b.coordinatorID.Some? ==> b.coordinatorID == Some(i)
    ensures a.coordinatorID.Some? && b.coordinatorID.Some? ==> a.coordinatorID == b.coordinatorID
    ensures a.ring.Some? && b.ring.Some? ==> a.ring == b.ring
    ensures a.ring.Some? && b.coordinatorID.Some? ==> b.coordinatorID == Some(a.ring.value.coordinator)
  {
    hide RingOf;
    if b.coordinatorID.Some? {
      var c := b.coordinatorID.value;
      if a.role == Coordinator {
        OneStrictMax(ram, i, c);
      }
      if a.coordinatorID.Some? {
        OneStrictMax(ram, a.coordinatorID.value, c);
      }
      if a.ring.Some? {
        OneStrictMax(ram, a.ring.value.coordinator, c);
      }
    }
    if a.role == Coordinator && b.role == Coordinator {
      OneStrictMax(ram, i, j);
    }
    if a.ring.Some? && b.ring.Some? {
      OneStrictMax(ram, a.ring.value.coordinator, b.ring.value.coordinator);
    }
  }

  // ----- the ranks a ring gives -----

  lemma RingPlaces(n: nat, c: nat, k: nat)
    requires c < n && k < n
    ensures |RingOf(n, c).order| == n
    ensures RingOf(n, c).order[k] == if c + k < n then c + k else c + k - n
    ensures Dist(n, c, RingOf(n, c).order[k]) == k
  {
  }

  /**
   * The ring every device builds for coordinator c ranks each device exactly once: the device of
   * rank Dist(c, i) is i, the coordinator has rank 0, and a device's successor on the network has
   * the next rank, wrapping to 0 after the last.
   */
  lemma RingRanks(n: nat, c: nat, i: nat)
    requires 1 <= n && c < n && i < n
    ensures |RingOf(n, c).order| == n
    ensures Dist(n, c, i) < n && RingOf(n, c).order[Dist(n, c, i)] == i
    ensures forall k :: 0 <= k < n && RingOf(n, c).order[k] == i ==> k == Dist(n, c, i)
    ensures Dist(n, c, c) == 0
    ensures Dist(n, c, Next(n, i)) == if Dist(n, c, i) + 1 == n then 0 else Dist(n, c, i) + 1
  {
    RingPlaces(n, c, Dist(n, c, i));
    forall k | 0 <= k < n && RingOf(n, c).order[k] == i
      ensures k == Dist(n, c, i)
    {
      RingPlaces(n, c, k);
    }
  }

  // ----- progress when no message is lost -----

  predicate LossFree(steps: seq<Step>) {
    forall k :: 0 <= k < |steps| ==> steps[k].Start? || steps[k].Deliver?
  }

  function Starts(ram: seq<int>, steps: seq<Step>): nat {
    if steps == [] then 0
    else
      var last := steps[|steps| - 1];
      Starts(ram, steps[..|steps| - 1]) + if last.Start? && last.i < |ram| then 1 else 0
  }

  // Deliveries of a message that was in flight.
  function Deliveries(ram: seq<int>, steps: seq<Step>): nat {
    if steps == [] then 0
    else
      var before := steps[..|steps| - 1];
      var last := steps[|steps| - 1];
      Deliveries(ram, before) + if last.Deliver? && last.k < |Exec(ram, before).net| then 1 else 0
  }

  // How many more deliveries a message can still cause when m is the strict maximum.
  function Weight(n: nat, m: nat, e: Envelope): int
    requires m < n && e.dest < n
  {
    var hops := Dist(n, e.dest, m) + 1;
    match e.msg.kind
    case Announcement => hops
    case Election => if e.msg.candidate == m then n + hops else 2 * n + hops
  }

  function Potential(n: nat, m: nat, net: seq<Envelope>): int
    requires m < n && forall k :: 0 <= k < |net| ==> net[k].dest < n
  {
    Sum(seq(|net|, k requires 0 <= k < |net| => Weight(n, m, net[k])))
  }

  lemma PotentialOf(n: nat, m: nat, a: seq<Envelope>, b: seq<Envelope>)
    requires m < n
    requires forall k :: 0 <= k < |a| ==> a[k].dest < n
    requires forall k :: 0 <= k < |b| ==> b[k].dest < n
    ensures forall k :: 0 <= k < |a + b| ==> (a + b)[k].dest < n
    ensures Potential(n, m, a + b) == Potential(n, m, a) + Potential(n, m, b)
  {
    var wa := seq(|a|, k requires 0 <= k < |a| => Weight(n, m, a[k]));
    var wb := seq(|b|, k requires 0 <= k < |b| => Weight(n, m, b[k]));
    var ab := a + b;
    assert wa + wb == seq(|ab|, k requires 0 <= k < |ab| => Weight(n, m, ab[k]));
    SumAppend(wa, wb);
  }

  lemma PotentialOfOne(n: nat, m: nat, e: Envelope)
    requires m < n && e.dest < n
    ensures Potential(n, m, [e]) == Weight(n, m, e)
  {
    var w := seq(1, k requires 0 <= k < 1 => Weight(n, m, [e][k]));
    assert w == [Weight(n, m, e)];
    assert Potential(n, m, [e]) == Sum(w);
    assert w[..0] == [];
  }

  lemma PotentialWithout(n: nat, m: nat, net: seq<Envelope>, k: nat)
    requires m < n && k < |net|
    requires forall j :: 0 <= j < |net| ==> net[j].dest < n
    ensures Potential(n, m, Without(net, k)) == Potential(n, m, net) - Weight(n, m, net[k])
  {
    PotentialOf(n, m, net[..k], net[k + 1..]);
    PotentialOf(n, m, net[..k], [net[k]]);
    PotentialOf(n, m, net[..k] + [net[k]], net[k + 1..]);
    assert net == net[..k] + [net[k]] + net[k + 1..];
    PotentialOfOne(n, m, net[k]);
  }

  // What a device sends on weighs less than what it received.
  lemma SentWeighsLess(ram: seq<int>, m: nat, e: Envelope, d: Device)
    requires 2 <= |ram| && StrictMax(ram, m) && SafeMessage(ram, e)
    ensures
      var n := |ram|;
      var o := Handle(n, e.dest, ram[e.dest], d, e.msg);
      o.sent.Some? ==> Weight(n, m, Envelope(Next(n, e.dest), o.sent.value)) < Weight(n, m, e)
  {
    var n := |ram|;
    assert e.dest != m ==> Dist(n, Next(n, e.dest), m) == Dist(n, e.dest, m) - 1;
    assert e.dest == m ==> Dist(n, Next(n, e.dest), m) == n - 1 && Dist(n, e.dest, m) == 0;
    if e.msg.kind == Election && e.dest == m && e.msg.candidate == m {
    } else if e.msg.kind == Election && e.dest == m {
      assert ram[e.msg.candidate] < ram[m];
    }
  }

  lemma PostedPotential(n: nat, m: nat, from: nat, sent: Option<Message>, bound: int)
    requires m < n && from < n && 0 <= bound
    requires sent.Some? ==> Weight(n, m, Envelope(Next(n, from), sent.value)) <= bound
    ensures Potential(n, m, Posted(n, from, sent)) <= bound
  {
    if sent.Some? {
      PotentialOfOne(n, m, Envelope(Next(n, from), sent.value));
    }
  }

  lemma StartPotential(ram: seq<int>, m: nat, s: System, i: nat)
    requires 2 <= |ram| && StrictMax(ram, m) && Shaped(ram, s) && i < |ram|
    ensures Potential(|ram|, m, Apply(ram, s, Start(i)).net)
            <= Potential(|ram|, m, s.net) + 3 * |ram|
  {
    var n := |ram|;
    var o := Initiate(i, ram[i], s.devices[i]);
    assert Apply(ram, s, Start(i)).net == s.net + Posted(n, i, o.sent);
    PotentialOf(n, m, s.net, Posted(n, i, o.sent));
    assert i != m ==> Dist(n, Next(n, i), m) == Dist(n, i, m) - 1;
    PostedPotential(n, m, i, o.sent, 3 * n);
  }

  lemma DeliveryPotential(ram: seq<int>, m: nat, s: System, k: nat)
    requires 2 <= |ram| && StrictMax(ram, m) && Safe(ram, s) && k < |s.net|
    ensures Potential(|ram|, m, Apply(ram, s, Deliver(k)).net) < Potential(|ram|, m, s.net)
  {
    var n := |ram|;
    var e := s.net[k];
    assert SafeMessage(ram, e);
    var o := Handle(n, e.dest, ram[e.dest], s.devices[e.dest], e.msg);
    var w, p := Without(s.net, k), Posted(n, e.dest, o.sent);
    assert Apply(ram, s, Deliver(k)).net == w + p;
    PotentialWithout(n, m, s.net, k);
    PotentialOf(n, m, w, p);
    SentWeighsLess(ram, m, e, s.devices[e.dest]);
    PostedPotential(n, m, e.dest, o.sent, Weight(n, m, e) - 1);
  }

  /**
   * With a strict maximum and no loss, at most 3n deliveries follow each start, whatever the
   * order of delivery: so once the last election has been started the network empties.
   */
  lemma {:induction false} ElectionTraffic(ram: seq<int>, m: nat, steps: seq<Step>)
    requires 2 <= |ram| && StrictMax(ram, m) && LossFree(steps)
    ensures Deliveries(ram, steps) + |Exec(ram, steps).net| <= 3 * |ram| * Starts(ram, steps)
  {
    TrafficPotential(ram, m, steps);
    NetBelowPotential(|ram|, m, Exec(ram, steps).net);
  }

  lemma {:induction false} TrafficPotential(ram: seq<int>, m: nat, steps: seq<Step>)
    requires 2 <= |ram| && StrictMax(ram, m) && LossFree(steps)
    ensures Deliveries(ram, steps) + Potential(|ram|, m, Exec(ram, steps).net)
            <= 3 * |ram| * Starts(ram, steps)
  {
    if steps != [] {
      hide Potential, Exec, StrictMax;
      var before, last := steps[..|steps| - 1], steps[|steps| - 1];
      TrafficPotential(ram, m, before);
      RunIsSafe(ram, before);
      var s := Exec(ram, before);
      ExecStep(ram, steps);
      MoreStarts(|ram|, Starts(ram, before));
      if last.Start? && last.i < |ram| {
        StartPotential(ram, m, s, last.i);
      } else if last.Deliver? && last.k < |s.net| {
        DeliveryPotential(ram, m, s, last.k);
      } else {
        assert Apply(ram, s, last) == s;
      }
    }
  }

  lemma MoreStarts(n: int, x: int)
    ensures 3 * n * (x + 1) == 3 * n * x + 3 * n
  {
  }

  lemma NetBelowPotential(n: nat, m: nat, net: seq<Envelope>)
    requires m < n && forall k :: 0 <= k < |net| ==> net[k].dest < n
    ensures |net| <= Potential(n, m, net)
  {
    if net != [] {
      var k := |net| - 1;
      NetBelowPotential(n, m, net[..k]);
      assert net == net[..k] + [net[k]];
      PotentialOf(n, m, net[..k], [net[k]]);
      PotentialOfOne(n, m, net[k]);
    }
  }

  // ----- who is elected when the network is quiet -----

  predicate Knows(ram: seq<int>, m: nat, d: Device)
    requires m < |ram|
  {
    d.coordinatorID == Some(m) && d.ring == Some(RingOf(|ram|, m))
  }

  // An announcement leaves every device it passed with the coordinator and its ring.
  ghost predicate Announced(ram: seq<int>, m: nat, s: System, e: Envelope)
    requires Shaped(ram, s) && m < |ram| && e.dest < |ram|
  {
    e.msg.kind == Announcement ==>
      forall j :: 0 <= j < |ram| && Passed(|ram|, m, j, e.dest) ==> Knows(ram, m, s.devices[j])
  }

  predicate Elected(ram: seq<int>, m: nat, s: System)
    requires Shaped(ram, s) && m < |ram|
  {
    forall j :: 0 <= j < |ram| ==> Knows(ram, m, s.devices[j])
  }

  // The message is won, or belongs to m, or is addressed to a device fewer than `hops` from m.
  predicate Claims(n: nat, m: nat, e: Envelope, hops: nat)
    requires m < n && e.dest < n
  {
    e.msg.kind == Announcement || e.msg.candidate == m || Dist(n, e.dest, m) < hops
  }

  ghost predicate Claimed(ram: seq<int>, m: nat, s: System, hops: nat)
    requires Shaped(ram, s) && m < |ram|
  {
    exists k :: 0 <= k < |s.net| && Claims(|ram|, m, s.net[k], hops)
  }

  ghost predicate CandidatesClaim(ram: seq<int>, m: nat, s: System)
    requires Shaped(ram, s) && m < |ram|
  {
    forall i :: 0 <= i < |ram| && s.devices[i].role == Candidate ==>
      Claimed(ram, m, s, Dist(|ram|, i, m))
  }

  ghost predicate Progress(ram: seq<int>, m: nat, s: System)
    requires Shaped(ram, s) && m < |ram|
  {
    && (forall k :: 0 <= k < |s.net| ==> Announced(ram, m, s, s.net[k]))
    && (Elected(ram, m, s) || CandidatesClaim(ram, m, s))
  }

  // Either nothing has started, or something is in flight, or the outcome is known everywhere.
  ghost predicate Underway(ram: seq<int>, m: nat, s: System)
    requires Shaped(ram, s) && m < |ram|
  {
    s.net != [] || Elected(ram, m, s)
  }

  // The messages in flight other than the k-th are still in flight after it is delivered.
  lemma OthersStay(ram: seq<int>, s: System, k: nat, j: nat)
    requires Shaped(ram, s) && k < |s.net| && j < |s.net| && j != k
    ensures s.net[j] in Apply(ram, s, Deliver(k)).net
  {
    var w := Without(s.net, k);
    var j' := if j < k then j else j - 1;
    assert w[j'] == s.net[j];
    var e := s.net[k];
    var o := Handle(|ram|, e.dest, ram[e.dest], s.devices[e.dest], e.msg);
    assert Apply(ram, s, Deliver(k)).net == w + Posted(|ram|, e.dest, o.sent);
  }

  lemma ClaimByMember(ram: seq<int>, m: nat, s: System, e: Envelope, hops: nat)
    requires Shaped(ram, s) && m < |ram| && e in s.net && Claims(|ram|, m, e, hops)
    ensures Claimed(ram, m, s, hops)
  {
    var k :| 0 <= k < |s.net| && s.net[k] == e;
    assert Claims(|ram|, m, s.net[k], hops);
  }

  lemma NothingPassedYet(n: nat, c: nat, j: nat)
    requires 2 <= n && c < n && j < n
    ensures !Passed(n, c, j, Next(n, c))
  {
  }

  // Every delivery keeps the announcements' trail of informed devices.
  lemma DeliverAnnounces(ram: seq<int>, m: nat, s: System, k: nat)
    requires 2 <= |ram| && StrictMax(ram, m) && Safe(ram, s) && k < |s.net|
    requires forall j :: 0 <= j < |s.net| ==> Announced(ram, m, s, s.net[j])
    ensures
      var s' := Apply(ram, s, Deliver(k));
      && (forall j :: 0 <= j < |s'.net| ==> Announced(ram, m, s', s'.net[j]))
      && (Elected(ram, m, s) ==> Elected(ram, m, s'))
      && (s.net[k].msg.kind == Announcement && s.net[k].dest == m ==> Elected(ram, m, s'))
  {
    var n := |ram|;
    var s' := Apply(ram, s, Deliver(k));
    var e := s.net[k];
    var o := Handle(n, e.dest, ram[e.dest], s.devices[e.dest], e.msg);
    assert SafeMessage(ram, e) && SafeDevice(ram, e.dest, s.devices[e.dest]);
    assert e.msg.kind == Announcement ==> e.msg.candidate == m && Knows(ram, m, o.device);
    assert Knows(ram, m, s.devices[e.dest]) ==> Knows(ram, m, o.device);
    forall j | 0 <= j < |s'.net|
      ensures Announced(ram, m, s', s'.net[j])
    {
      if j < |s.net| - 1 {
        var old_j := if j < k then j else j + 1;
        assert s'.net[j] == s.net[old_j];
        assert Announced(ram, m, s, s.net[old_j]);
      } else if s'.net[j].msg.kind == Announcement {
        assert s'.net[j] == Envelope(Next(n, e.dest), o.sent.value);
        forall i | 0 <= i < n && Passed(n, m, i, Next(n, e.dest))
          ensures Knows(ram, m, s'.devices[i])
        {
          if e.msg.kind == Announcement {
            assert Announced(ram, m, s, e);
            PassedOneMore(n, m, e.dest, i);
          } else {
            NothingPassedYet(n, m, i);
          }
        }
      }
    }
    if e.msg.kind == Announcement && e.dest == m {
      assert Announced(ram, m, s, e);
      forall j | 0 <= j < n
        ensures Knows(ram, m, s'.devices[j])
      {
        if j != m {
          assert Passed(n, m, j, m);
        }
      }
    }
  }

  // A claim survives delivery: it is carried on, replaced by a closer one, or won.
  lemma ClaimSurvives(ram: seq<int>, m: nat, s: System, k: nat, hops: nat)
    requires 2 <= |ram| && StrictMax(ram, m) && Safe(ram, s) && Progress(ram, m, s)
    requires k < |s.net| && Claimed(ram, m, s, hops) && !Elected(ram, m, s)
    ensures
      var s' := Apply(ram, s, Deliver(k));
      Elected(ram, m, s') || Claimed(ram, m, s', hops)
  {
    var n := |ram|;
    var s' := Apply(ram, s, Deliver(k));
    var j :| 0 <= j < |s.net| && Claims(n, m, s.net[j], hops);
    if j != k {
      OthersStay(ram, s, k, j);
      ClaimByMember(ram, m, s', s.net[j], hops);
    } else {
      var e := s.net[k];
      var i := e.dest;
      assert SafeMessage(ram, e);
      var o := Handle(n, i, ram[i], s.devices[i], e.msg);
      if o.sent.Some? {
        var e' := Envelope(Next(n, i), o.sent.value);
        assert s'.net[|s'.net| - 1] == e';
        assert i != m ==> Dist(n, Next(n, i), m) == Dist(n, i, m) - 1;
        assert Claims(n, m, e', hops);
        ClaimByMember(ram, m, s', e', hops);
      } else if e.msg.kind == Announcement {
        DeliverAnnounces(ram, m, s, k);
      } else {
        // Swallowed by a candidate, whose own claim is a different message.
        assert s.devices[i].role == Candidate && e.msg.candidate != m;
        assert Claimed(ram, m, s, Dist(n, i, m));
        var j' :| 0 <= j' < |s.net| && Claims(n, m, s.net[j'], Dist(n, i, m));
        assert j' != k;
        OthersStay(ram, s, k, j');
        ClaimByMember(ram, m, s', s.net[j'], hops);
      }
    }
  }

  lemma DeliverProgresses(ram: seq<int>, m: nat, s: System, k: nat)
    requires 2 <= |ram| && StrictMax(ram, m) && Safe(ram, s) && Progress(ram, m, s)
    requires k < |s.net|
    ensures Progress(ram, m, Apply(ram, s, Deliver(k)))
    ensures Underway(ram, m, Apply(ram, s, Deliver(k)))
  {
    var n := |ram|;
    var s' := Apply(ram, s, Deliver(k));
    var e := s.net[k];
    DeliverAnnounces(ram, m, s, k);
    if !Elected(ram, m, s') {
      // Any message in flight claims within n hops, so one is still in flight.
      assert Claims(n, m, e, n);
      ClaimSurvives(ram, m, s, k, n);
      forall i | 0 <= i < n && s'.devices[i].role == Candidate
        ensures Claimed(ram, m, s', Dist(n, i, m))
      {
        if s.devices[i].role == Candidate {
          assert Claimed(ram, m, s, Dist(n, i, m));
          ClaimSurvives(ram, m, s, k, Dist(n, i, m));
        } else {
          assert i == e.dest;
          var o := Handle(n, i, ram[i], s.devices[i], e.msg);
          StartedClaim(ram, m, s', i, Posted(n, i, o.sent)[0]);
        }
      }
    }
  }

  // The message a device sends when it starts an election is its claim.
  lemma StartedClaim(ram: seq<int>, m: nat, s: System, i: nat, e: Envelope)
    requires 2 <= |ram| && Shaped(ram, s) && m < |ram| && i < |ram|
    requires e in s.net && e.dest == Next(|ram|, i) && e.msg.candidate == i
    ensures Claimed(ram, m, s, Dist(|ram|, i, m))
  {
    assert i != m ==> Dist(|ram|, Next(|ram|, i), m) == Dist(|ram|, i, m) - 1;
    ClaimByMember(ram, m, s, e, Dist(|ram|, i, m));
  }

  lemma StartProgresses(ram: seq<int>, m: nat, s: System, i: nat)
    requires 2 <= |ram| && StrictMax(ram, m) && Safe(ram, s) && Progress(ram, m, s)
    requires i < |ram|
    ensures Progress(ram, m, Apply(ram, s, Start(i)))
    ensures Apply(ram, s, Start(i)).net != []
  {
    var n := |ram|;
    var s' := Apply(ram, s, Start(i));
    var e := Envelope(Next(n, i), Message(Election, i, ram[i]));
    assert s'.net == s.net + [e];
    assert forall j :: 0 <= j < n ==> Knows(ram, m, s.devices[j]) ==> Knows(ram, m, s'.devices[j]);
    forall j | 0 <= j < |s'.net|
      ensures Announced(ram, m, s', s'.net[j])
    {
      if j < |s.net| {
        assert Announced(ram, m, s, s.net[j]);
      }
    }
    if !Elected(ram, m, s') {
      forall j | 0 <= j < n && s'.devices[j].role == Candidate
        ensures Claimed(ram, m, s', Dist(n, j, m))
      {
        if j == i {
          StartedClaim(ram, m, s', i, e);
        } else {
          assert Claimed(ram, m, s, Dist(n, j, m));
          var k :| 0 <= k < |s.net| && Claims(n, m, s.net[k], Dist(n, j, m));
          assert s'.net[k] == s.net[k];
        }
      }
    }
  }

  lemma {:induction false} RunProgresses(ram: seq<int>, m: nat, steps: seq<Step>)
    requires 2 <= |ram| && StrictMax(ram, m) && LossFree(steps)
    ensures Progress(ram, m, Exec(ram, steps))
    ensures Starts(ram, steps) > 0 ==> Underway(ram, m, Exec(ram, steps))
  {
    if steps != [] {
      var before, last := steps[..|steps| - 1], steps[|steps| - 1];
      RunProgresses(ram, m, before);
      RunIsSafe(ram, before);
      var s := Exec(ram, before);
      if last.Start? && last.i < |ram| {
        StartProgresses(ram, m, s, last.i);
      } else if last.Deliver? && last.k < |s.net| {
        DeliverProgresses(ram, m, s, last.k);
      } else {
        assert Apply(ram, s, last) == s;
      }
    }
  }

  /**
   * With a strict maximum m and no loss, once some election has started and the network is empty
   * again, every device has stored m as coordinator and holds the ring that m leads.
   */
  lemma {:induction false} QuietMeansElected(ram: seq<int>, m: nat, steps: seq<Step>, i: nat)
    requires 2 <= |ram| && StrictMax(ram, m) && LossFree(steps)
    requires Starts(ram, steps) > 0 && Exec(ram, steps).net == [] && i < |ram|
    ensures Exec(ram, steps).devices[i].coordinatorID == Some(m)
    ensures Exec(ram, steps).devices[i].ring == Some(RingOf(|ram|, m))
  {
    RunProgresses(ram, m, steps);
    assert Knows(ram, m, Exec(ram, steps).devices[i]);
  }

  // ----- what a tie for the most RAM does -----

  ghost predicate IsMax(ram: seq<int>, a: nat) {
    a < |ram| && forall j :: 0 <= j < |ram| ==> ram[j] <= ram[a]
  }

  lemma MaxExists(ram: seq<int>) returns (a: nat)
    requires ram != []
    ensures IsMax(ram, a)
  {
    a := 0;
    for k := 0 to |ram|
      invariant a < |ram|
      invariant forall j :: 0 <= j < k ==> ram[j] <= ram[a]
    {
      if ram[a] < ram[k] {
        a := k;
      }
    }
  }

  // One message in flight, from a device with the most RAM, and device a is a candidate.
  ghost predicate Lonely(ram: seq<int>, s: System, a: nat) {
    && Shaped(ram, s) && IsMax(ram, a) && s.devices[a].role == Candidate
    && |s.net| == 1 && s.net[0].msg.kind == Election && s.net[0].msg.ram == ram[a]
  }

  // Delivering that message over and over swallows it when there is no strict maximum.
  lemma {:induction false} TieSwallows(ram: seq<int>, a: nat, steps: seq<Step>) returns (more: seq<Step>)
    requires 2 <= |ram| && (forall c :: 0 <= c < |ram| ==> !StrictMax(ram, c))
    requires LossFree(steps) && Lonely(ram, Exec(ram, steps), a)
    ensures LossFree(more) && steps <= more && Exec(ram, more).net == []
    decreases Dist(|ram|, Exec(ram, steps).net[0].dest, a)
  {
    var n := |ram|;
    var s := Exec(ram, steps);
    var e := s.net[0];
    RunIsSafe(ram, steps);
    assert SafeMessage(ram, e);
    more := steps + [Deliver(0)];
    assert more[..|more| - 1] == steps;
    assert Without(s.net, 0) == [];
    var o := Handle(n, e.dest, ram[e.dest], s.devices[e.dest], e.msg);
    if e.msg.candidate == e.dest {
      OwnReturnIsStrictMax(ram, e);
    }
    if o.sent.Some? {
      assert e.dest != a;
      assert Dist(n, Next(n, e.dest), a) == Dist(n, e.dest, a) - 1;
      more := TieSwallows(ram, a, more);
    }
  }

  lemma OwnReturnIsStrictMax(ram: seq<int>, e: Envelope)
    requires SafeMessage(ram, e) && e.msg.kind == Election && e.msg.candidate == e.dest
    ensures StrictMax(ram, e.dest)
  {
    forall j | 0 <= j < |ram| && j != e.dest
      ensures ram[j] < ram[e.dest]
    {
      assert Passed(|ram|, e.dest, j, e.dest);
    }
  }

  ghost predicate AllAgree(ram: seq<int>, s: System)
    requires Shaped(ram, s)
  {
    exists c :: 0 <= c < |ram| && Elected(ram, c, s)
  }

  ghost predicate Settles(ram: seq<int>, steps: seq<Step>) {
    (LossFree(steps) && Starts(ram, steps) > 0 && Exec(ram, steps).net == []) ==>
      AllAgree(ram, Exec(ram, steps))
  }

  // When two devices share the most RAM their messages are swallowed and the ring goes quiet.
  lemma TieGoesQuiet(ram: seq<int>) returns (steps: seq<Step>)
    requires 2 <= |ram| && forall c :: 0 <= c < |ram| ==> !StrictMax(ram, c)
    ensures !Settles(ram, steps)
  {
    var a := MaxExists(ram);
    var first := [Start(a)];
    assert first[..0] == [];
    assert Exec(ram, []) == Init(ram);
    assert Exec(ram, first) == Apply(ram, Init(ram), Start(a));
    assert Starts(ram, []) == 0 && Starts(ram, first) == 1;
    steps := TieSwallows(ram, a, first);
    StartsGrow(ram, first, steps);
    RunIsSafe(ram, steps);
    var s := Exec(ram, steps);
    assert SafeDevice(ram, 0, s.devices[0]);
    forall c | 0 <= c < |ram|
      ensures !Elected(ram, c, s)
    {
      assert s.devices[0].coordinatorID.None?;
    }
  }

  lemma {:induction false} StartsGrow(ram: seq<int>, a: seq<Step>, b: seq<Step>)
    requires a <= b
    ensures Starts(ram, a) <= Starts(ram, b)
    decreases |b|
  {
    if a != b {
      assert a <= b[..|b| - 1];
      StartsGrow(ram, a, b[..|b| - 1]);
    } else {
      assert a == b;
    }
  }

  /**
   * The election is sure to elect exactly when one device has strictly more RAM than all others:
   * then every loss-free run that started and went quiet agrees on one coordinator, and otherwise
   * some such run ends with none, because tied devices swallow each other's messages.
   */
  lemma ElectsIffStrictMaximum(ram: seq<int>)
    requires 2 <= |ram|
    ensures (exists m :: 0 <= m < |ram| && StrictMax(ram, m))
            <==> (forall steps :: Settles(ram, steps))
  {
    if exists m :: 0 <= m < |ram| && StrictMax(ram, m) {
      var m :| 0 <= m < |ram| && StrictMax(ram, m);
      forall steps
        ensures Settles(ram, steps)
      {
        if LossFree(steps) && Starts(ram, steps) > 0 && Exec(ram, steps).net == [] {
          RunProgresses(ram, m, steps);
          assert Elected(ram, m, Exec(ram, steps));
        }
      }
    } else {
      var steps := TieGoesQuiet(ram);
    }
  }
}
