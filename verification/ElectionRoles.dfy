/**
 * Which roles the devices are left in when an election with a strict maximum m has gone quiet.
 */
module ElectionRoles {
  import opened Base
  import opened Election

  // ----- one device's part in a run -----

  // What a step is to a device: it begins or ends its part; it hears of an election of more RAM, of
  // one with no more, or its own come back; it is told the coordinator.
  datatype Concern = Begun | Ended | Outdone | Challenged | Returned | Told(coordinator: nat)

  function ConcernOf(ram: seq<int>, s: System, step: Step, i: nat): Option<Concern>
    requires Shaped(ram, s) && i < |ram|
  {
    match step
    case Start(j) => if j == i then Some(Begun) else None
    case Stop(j) => if j == i then Some(Ended) else None
    case Deliver(k) =>
      if k >= |s.net| || s.net[k].dest != i then None
      else
        var m := s.net[k].msg;
        if m.kind.Announcement? then Some(Told(m.candidate))
        else if m.ram > ram[i] then Some(Outdone)
        else if m.candidate == i then Some(Returned)
        else Some(Challenged)
    case Lose(_) => None
  }

  // The last step that was any concern of the device.
  function LastConcern(ram: seq<int>, steps: seq<Step>, i: nat): Option<Concern>
    requires i < |ram|
  {
    if steps == [] then None
    else
      var before := steps[..|steps| - 1];
      var c := ConcernOf(ram, Exec(ram, before), steps[|steps| - 1], i);
      if c.Some? then c else LastConcern(ram, before, i)
  }

  function RoleAfter(i: nat, c: Option<Concern>): Role {
    match c
    case None => Inactive
    case Some(Ended) => Inactive
    case Some(Begun) => Candidate
    case Some(Challenged) => Candidate
    case Some(Outdone) => Follower
    case Some(Returned) => Coordinator
    case Some(Told(coordinator)) => if coordinator == i then Coordinator else Follower
  }

  // The coordinator it was told of last, or knew itself to be when its election came back.
  function LastTold(ram: seq<int>, steps: seq<Step>, i: nat): Option<nat>
    requires i < |ram|
  {
    if steps == [] then None
    else
      var before := steps[..|steps| - 1];
      match ConcernOf(ram, Exec(ram, before), steps[|steps| - 1], i)
      case Some(Told(c)) => Some(c)
      case Some(Returned) => Some(i)
      case _ => LastTold(ram, before, i)
  }

  // The coordinator it was told of since it last ended its part.
  function ToldSinceEnd(ram: seq<int>, steps: seq<Step>, i: nat): Option<nat>
    requires i < |ram|
  {
    if steps == [] then None
    else
      var before := steps[..|steps| - 1];
      match ConcernOf(ram, Exec(ram, before), steps[|steps| - 1], i)
      case Some(Told(c)) => Some(c)
      case Some(Ended) => None
      case _ => ToldSinceEnd(ram, before, i)
  }

  // One step of it.
  lemma ConcernMoves(ram: seq<int>, s: System, step: Step, i: nat)
    requires 2 <= |ram| && i < |ram| && Safe(ram, s)
    ensures
      var d, d' := s.devices[i], Apply(ram, s, step).devices[i];
      var c := ConcernOf(ram, s, step, i);
      && d'.role == (if c.Some? then RoleAfter(i, c) else d.role)
      && match c
         case Some(Told(m)) => m < |ram| && d'.coordinatorID == Some(m) && d'.ring == Some(RingOf(|ram|, m))
         case Some(Returned) => d'.coordinatorID == Some(i) && d'.ring == d.ring
         case Some(Ended) => d'.coordinatorID == d.coordinatorID && d'.ring.None?
         case _ => d'.coordinatorID == d.coordinatorID && d'.ring == d.ring
  {
    hide RingOf, StrictMax, SafeDevice;
    if step.Deliver? && step.k < |s.net| {
      assert SafeMessage(ram, s.net[step.k]);
    }
  }

  /**
   * What a device is, in every run, with stops, losses and reordering: its role is decided by the
   * last step that concerned it alone; it knows the coordinator it was last told of, even after it
   * has stopped; and it holds a ring exactly when it was told of one since.
   */
  lemma {:induction false} DeviceIsItsHistory(ram: seq<int>, steps: seq<Step>, i: nat)
    requires 2 <= |ram| && i < |ram|
    ensures
      var d := Exec(ram, steps).devices[i];
      var told := ToldSinceEnd(ram, steps, i);
      && d.role == RoleAfter(i, LastConcern(ram, steps, i))
      && d.coordinatorID == LastTold(ram, steps, i)
      && (d.ring.Some? <==> told.Some?)
      && (told.Some? ==> told.value < |ram| && d.ring == Some(RingOf(|ram|, told.value)))
  {
    hide RingOf, Safe, Apply, ConcernOf;
    if steps != [] {
      var before, last := steps[..|steps| - 1], steps[|steps| - 1];
      DeviceIsItsHistory(ram, before, i);
      RunIsSafe(ram, before);
      ConcernMoves(ram, Exec(ram, before), last, i);
    }
  }

  // ----- the winner -----

  predicate IsClaimOf(e: Envelope, m: nat) {
    e.msg.kind.Election? && e.msg.candidate == m
  }

  ghost predicate Claiming(s: System, m: nat) {
    exists k :: 0 <= k < |s.net| && IsClaimOf(s.net[k], m)
  }

  // Whoever knows a coordinator has a role; and while m is a candidate its message is in flight.
  ghost predicate Manned(ram: seq<int>, m: nat, s: System)
    requires Shaped(ram, s) && m < |ram|
  {
    && (forall i :: 0 <= i < |ram| && s.devices[i].coordinatorID.Some? ==> s.devices[i].role != Inactive)
    && s.devices[m].role != Follower
    && (s.devices[m].role == Candidate ==> Claiming(s, m))
  }

  lemma ClaimByMember(s: System, m: nat, e: Envelope)
    requires e in s.net && IsClaimOf(e, m)
    ensures Claiming(s, m)
  {
    var k :| 0 <= k < |s.net| && s.net[k] == e;
    assert IsClaimOf(s.net[k], m);
  }

  lemma DeliverMans(ram: seq<int>, m: nat, s: System, k: nat)
    requires 2 <= |ram| && StrictMax(ram, m) && Safe(ram, s) && Manned(ram, m, s) && k < |s.net|
    ensures Manned(ram, m, Apply(ram, s, Deliver(k)))
  {
    var n, s', e := |ram|, Apply(ram, s, Deliver(k)), s.net[k];
    var i := e.dest;
    var o := Handle(n, i, ram[i], s.devices[i], e.msg);
    assert SafeMessage(ram, e);
    if s'.devices[m].role == Candidate {
      if o.sent.Some? && IsClaimOf(Envelope(Next(n, i), o.sent.value), m) {
        assert s'.net[|s'.net| - 1] == Envelope(Next(n, i), o.sent.value);
        ClaimByMember(s', m, s'.net[|s'.net| - 1]);
      } else {
        var j :| 0 <= j < |s.net| && IsClaimOf(s.net[j], m);
        assert j != k;
        OthersStay(ram, s, k, j);
        ClaimByMember(s', m, s.net[j]);
      }
    }
  }

  lemma StartMans(ram: seq<int>, m: nat, s: System, i: nat)
    requires 2 <= |ram| && m < |ram| && Shaped(ram, s) && Manned(ram, m, s) && i < |ram|
    ensures Manned(ram, m, Apply(ram, s, Start(i)))
  {
    var s', e := Apply(ram, s, Start(i)), Envelope(Next(|ram|, i), Message(Kind.Election, i, ram[i]));
    assert s'.net == s.net + [e];
    if i == m {
      ClaimByMember(s', m, e);
    } else if s.devices[m].role == Candidate {
      var j :| 0 <= j < |s.net| && IsClaimOf(s.net[j], m);
      assert s'.net[j] == s.net[j];
    }
  }

  lemma {:induction false} RunIsManned(ram: seq<int>, m: nat, steps: seq<Step>)
    requires 2 <= |ram| && StrictMax(ram, m) && LossFree(steps)
    ensures Manned(ram, m, Exec(ram, steps))
  {
    if steps != [] {
      hide StrictMax, Manned, Apply;
      var before, last := steps[..|steps| - 1], steps[|steps| - 1];
      RunIsManned(ram, m, before);
      RunIsSafe(ram, before);
      ExecStep(ram, steps);
      var s := Exec(ram, before);
      if last.Start? && last.i < |ram| {
        StartMans(ram, m, s, last.i);
      } else if last.Deliver? && last.k < |s.net| {
        DeliverMans(ram, m, s, last.k);
      } else {
        NoStep(ram, s, last);
      }
    } else {
      assert Exec(ram, steps) == Init(ram);
    }
  }

  lemma NoStep(ram: seq<int>, s: System, step: Step)
    requires Shaped(ram, s) && (step.Start? || step.Deliver?)
    requires (step.Start? ==> step.i >= |ram|) && (step.Deliver? ==> step.k >= |s.net|)
    ensures Apply(ram, s, step) == s
  {
  }

  // Some election was started and nothing is in flight.
  predicate WentQuiet(ram: seq<int>, steps: seq<Step>) {
    LossFree(steps) && Starts(ram, steps) > 0 && Exec(ram, steps).net == []
  }

  /**
   * When it has gone quiet the strict maximum is the coordinator, whoever started when; nobody
   * else is, and every other device is a follower or has started again in vain.
   */
  lemma {:induction false} QuietLeaderLeads(ram: seq<int>, m: nat, steps: seq<Step>, i: nat)
    requires 2 <= |ram| && StrictMax(ram, m) && WentQuiet(ram, steps) && i < |ram|
    ensures Exec(ram, steps).devices[m].role == Coordinator
    ensures i != m ==> Exec(ram, steps).devices[i].role in {Follower, Candidate}
  {
    hide Exec, RingOf;
    QuietMeansElected(ram, m, steps, i);
    QuietMeansElected(ram, m, steps, m);
    RunIsManned(ram, m, steps);
    RunIsSafe(ram, steps);
    var s := Exec(ram, steps);
    assert SafeDevice(ram, i, s.devices[i]);
    if s.devices[i].role == Coordinator {
      OneStrictMax(ram, i, m);
    }
  }

  ghost predicate Settled(ram: seq<int>, m: nat, s: System)
    requires Shaped(ram, s) && m < |ram|
  {
    && s.devices[m].role == Coordinator
    && forall i :: 0 <= i < |ram| && i != m ==> s.devices[i].role == Follower
  }

  // ----- runs in which nobody who knows the coordinator starts again -----

  // Device i, which knows a coordinator, starts an election, or is made to by a weaker one's.
  predicate Reopens(ram: seq<int>, s: System, step: Step, i: nat)
    requires Shaped(ram, s) && i < |ram|
  {
    && s.devices[i].coordinatorID.Some?
    && match step
       case Start(j) => j == i
       case Deliver(k) =>
         && k < |s.net| && s.net[k].dest == i && s.net[k].msg.kind.Election?
         && s.net[k].msg.candidate != i && s.net[k].msg.ram <= ram[i] && s.devices[i].role != Candidate
       case _ => false
  }

  ghost predicate NeverReopens(ram: seq<int>, steps: seq<Step>, i: nat)
    requires i < |ram|
  {
    forall n :: 0 <= n < |steps| ==> !Reopens(ram, Exec(ram, steps[..n]), steps[n], i)
  }

  lemma OnlyLeaderReturns(ram: seq<int>, m: nat, e: Envelope)
    requires StrictMax(ram, m) && SafeMessage(ram, e)
    ensures IsClaimOf(e, e.dest) ==> e.dest == m
  {
    if IsClaimOf(e, e.dest) {
      OwnReturnIsStrictMax(ram, e);
      OneStrictMax(ram, e.dest, m);
    }
  }

  // Told of m and not started since, a device other than m is a follower.
  lemma ToldFollows(ram: seq<int>, m: nat, s: System, step: Step, i: nat)
    requires 2 <= |ram| && StrictMax(ram, m) && Safe(ram, s) && i < |ram| && i != m
    requires step.Start? || step.Deliver?
    requires s.devices[i].coordinatorID.Some? ==> s.devices[i].role == Follower
    requires !Reopens(ram, s, step, i)
    ensures
      var d := Apply(ram, s, step).devices[i];
      d.coordinatorID.Some? ==> d.role == Follower
  {
    if step.Deliver? && step.k < |s.net| {
      OnlyLeaderReturns(ram, m, s.net[step.k]);
    }
  }

  lemma {:induction false} ToldStaysFollower(ram: seq<int>, m: nat, steps: seq<Step>, i: nat)
    requires 2 <= |ram| && StrictMax(ram, m) && LossFree(steps) && i < |ram| && i != m
    requires NeverReopens(ram, steps, i)
    ensures Exec(ram, steps).devices[i].coordinatorID.Some? ==> Exec(ram, steps).devices[i].role == Follower
  {
    if steps != [] {
      hide StrictMax, Apply, Reopens;
      var before, last := steps[..|steps| - 1], steps[|steps| - 1];
      assert forall n :: 0 <= n < |before| ==> before[..n] == steps[..n];
      ToldStaysFollower(ram, m, before, i);
      RunIsSafe(ram, before);
      ExecStep(ram, steps);
      ToldFollows(ram, m, Exec(ram, before), last, i);
    }
  }

  /**
   * So in a run in which no device starts, or is made to start, once it has been told the
   * coordinator, quiet means settled: the strict maximum leads and everybody else follows.
   */
  lemma {:induction false} QuietIsSettled(ram: seq<int>, m: nat, steps: seq<Step>)
    requires 2 <= |ram| && StrictMax(ram, m) && WentQuiet(ram, steps)
    requires forall i :: 0 <= i < |ram| && i != m ==> NeverReopens(ram, steps, i)
    ensures Settled(ram, m, Exec(ram, steps))
  {
    hide Exec, NeverReopens;
    QuietLeaderLeads(ram, m, steps, m);
    forall i | 0 <= i < |ram| && i != m
      ensures Exec(ram, steps).devices[i].role == Follower
    {
      QuietMeansElected(ram, m, steps, i);
      ToldStaysFollower(ram, m, steps, i);
    }
  }

  // ----- all runs, with starts at any time -----

  // From m on around the ring, every device but m has more RAM than the next.
  predicate Falling(ram: seq<int>, m: nat) {
    forall i :: 0 <= i < |ram| && i != m && Next(|ram|, i) != m ==> ram[Next(|ram|, i)] < ram[i]
  }

  // From device d on it falls from each to the next, so it falls from d to each.
  lemma {:induction false} FallsAfter(ram: seq<int>, m: nat, d: nat, y: nat)
    requires m < |ram| && d < |ram| && y < |ram| && y != m && Dist(|ram|, y, m) < Dist(|ram|, d, m)
    requires forall z :: 0 <= z < |ram| && z != m && Next(|ram|, z) != m && Dist(|ram|, z, m) <= Dist(|ram|, d, m)
                         ==> ram[Next(|ram|, z)] < ram[z]
    ensures ram[y] < ram[d]
    decreases Dist(|ram|, d, m)
  {
    var x := Next(|ram|, d);
    assert d != m && x != m && Dist(|ram|, x, m) == Dist(|ram|, d, m) - 1;
    if x != y {
      FallsAfter(ram, m, x, y);
    }
  }

  // The message will make device i a follower: it is m's, or an announcement that has yet to reach
  // i, or i's own on its way to m, which answers it with an election of its own.
  predicate Pursues(n: nat, m: nat, i: nat, e: Envelope)
    requires m < n && i < n && e.dest < n
  {
    || IsClaimOf(e, m)
    || (e.msg.kind.Announcement? && !Passed(n, m, i, e.dest))
    || (IsClaimOf(e, i) && Dist(n, e.dest, m) < Dist(n, i, m))
  }

  ghost predicate Pursued(n: nat, m: nat, s: System, i: nat)
    requires m < n && i < n && forall k :: 0 <= k < |s.net| ==> s.net[k].dest < n
  {
    exists k :: 0 <= k < |s.net| && Pursues(n, m, i, s.net[k])
  }

  ghost predicate CandidatesPursued(ram: seq<int>, m: nat, s: System)
    requires Shaped(ram, s) && m < |ram|
  {
    forall i :: 0 <= i < |ram| && i != m && s.devices[i].role == Candidate ==> Pursued(|ram|, m, s, i)
  }

  lemma PursuedBy(n: nat, m: nat, s: System, i: nat, e: Envelope)
    requires m < n && i < n && forall k :: 0 <= k < |s.net| ==> s.net[k].dest < n
    requires e in s.net && Pursues(n, m, i, e)
    ensures Pursued(n, m, s, i)
  {
    var k :| 0 <= k < |s.net| && s.net[k] == e;
    assert Pursues(n, m, i, s.net[k]);
  }

  // What is sent on pursues whom the message did, unless that one has now been told.
  lemma HandledPursues(ram: seq<int>, m: nat, s: System, k: nat, i: nat)
    requires 2 <= |ram| && StrictMax(ram, m) && Safe(ram, s) && Falling(ram, m)
    requires k < |s.net| && i < |ram| && i != m && Pursues(|ram|, m, i, s.net[k])
    ensures
      var e := s.net[k];
      var o := Handle(|ram|, e.dest, ram[e.dest], s.devices[e.dest], e.msg);
      || (o.sent.Some? && Pursues(|ram|, m, i, Envelope(Next(|ram|, e.dest), o.sent.value)))
      || (e.dest == i && o.device.role == Follower)
      || (e.dest == m && o.device.role == Candidate)
  {
    var n, e := |ram|, s.net[k];
    var d := e.dest;
    assert SafeMessage(ram, e);
    OnlyLeaderReturns(ram, m, e);
    if e.msg.kind.Announcement? {
      if d != i {
        assert d != m;
        PassedOneMore(n, m, d, i);
      }
    } else if IsClaimOf(e, m) {
      if d == m {
        NothingPassedYet(n, m, i);
      }
    } else if d != m {
      FallsAfter(ram, m, i, d);
      assert Dist(n, Next(n, d), m) == Dist(n, d, m) - 1;
    }
  }

  lemma DeliverPursues(ram: seq<int>, m: nat, s: System, k: nat)
    requires 2 <= |ram| && StrictMax(ram, m) && Safe(ram, s) && Falling(ram, m)
    requires Manned(ram, m, s) && CandidatesPursued(ram, m, s) && k < |s.net|
    ensures CandidatesPursued(ram, m, Apply(ram, s, Deliver(k)))
  {
    var n, s', e := |ram|, Apply(ram, s, Deliver(k)), s.net[k];
    var d := e.dest;
    var o := Handle(n, d, ram[d], s.devices[d], e.msg);
    DeliverMans(ram, m, s, k);
    forall i | 0 <= i < n && i != m && s'.devices[i].role == Candidate
      ensures Pursued(n, m, s', i)
    {
      if s'.devices[m].role == Candidate {
        var j :| 0 <= j < |s'.net| && IsClaimOf(s'.net[j], m);
        assert Pursues(n, m, i, s'.net[j]);
      } else if s.devices[i].role == Candidate {
        var j :| 0 <= j < |s.net| && Pursues(n, m, i, s.net[j]);
        if j != k {
          OthersStay(ram, s, k, j);
          PursuedBy(n, m, s', i, s.net[j]);
        } else {
          HandledPursues(ram, m, s, k, i);
          assert s'.net[|s'.net| - 1] == Envelope(Next(n, d), o.sent.value);
        }
      } else {
        assert d == i && IsClaimOf(Envelope(Next(n, i), o.sent.value), i);
        assert s'.net[|s'.net| - 1] == Envelope(Next(n, i), o.sent.value);
        assert Dist(n, Next(n, i), m) == Dist(n, i, m) - 1;
      }
    }
  }

  lemma StartPursues(ram: seq<int>, m: nat, s: System, x: nat)
    requires 2 <= |ram| && m < |ram| && x < |ram| && Shaped(ram, s) && CandidatesPursued(ram, m, s)
    ensures CandidatesPursued(ram, m, Apply(ram, s, Start(x)))
  {
    var n, s' := |ram|, Apply(ram, s, Start(x));
    var e := Envelope(Next(n, x), Message(Kind.Election, x, ram[x]));
    assert s'.net == s.net + [e];
    forall i | 0 <= i < n && i != m && s'.devices[i].role == Candidate
      ensures Pursued(n, m, s', i)
    {
      if i == x {
        assert Dist(n, Next(n, i), m) == Dist(n, i, m) - 1;
        PursuedBy(n, m, s', i, e);
      } else {
        var j :| 0 <= j < |s.net| && Pursues(n, m, i, s.net[j]);
        assert s'.net[j] == s.net[j];
      }
    }
  }

  lemma {:induction false} RunPursues(ram: seq<int>, m: nat, steps: seq<Step>)
    requires 2 <= |ram| && StrictMax(ram, m) && LossFree(steps) && Falling(ram, m)
    ensures CandidatesPursued(ram, m, Exec(ram, steps))
  {
    if steps != [] {
      hide StrictMax, Manned, CandidatesPursued, Apply, Falling;
      var before, last := steps[..|steps| - 1], steps[|steps| - 1];
      RunPursues(ram, m, before);
      RunIsSafe(ram, before);
      RunIsManned(ram, m, before);
      ExecStep(ram, steps);
      var s := Exec(ram, before);
      if last.Start? && last.i < |ram| {
        StartPursues(ram, m, s, last.i);
      } else if last.Deliver? && last.k < |s.net| {
        DeliverPursues(ram, m, s, last.k);
      } else {
        NoStep(ram, s, last);
      }
    } else {
      assert Exec(ram, steps) == Init(ram);
    }
  }

  lemma {:induction false} FallingSettles(ram: seq<int>, m: nat, steps: seq<Step>)
    requires 2 <= |ram| && StrictMax(ram, m) && Falling(ram, m) && WentQuiet(ram, steps)
    ensures Settled(ram, m, Exec(ram, steps))
  {
    RunPursues(ram, m, steps);
    hide Exec, Falling;
    forall i | 0 <= i < |ram|
      ensures if i == m then Exec(ram, steps).devices[i].role == Coordinator
              else Exec(ram, steps).devices[i].role == Follower
    {
      QuietLeaderLeads(ram, m, steps, i);
    }
  }

  // ----- an election that only m starts, message by message -----

  // The device `hops` after m.
  function Place(n: nat, m: nat, hops: nat): (i: nat)
    requires m < n && hops <= n
    ensures i < n
  {
    if m + hops < n then m + hops else m + hops - n
  }

  // After k deliveries: the election goes round once and then the announcement does.
  function LoneDevice(n: nat, m: nat, k: nat, j: nat): Device
    requires m < n && j < n
  {
    if j == m then
      if k < n then Device(Candidate, None, None)
      else Device(Coordinator, Some(m), if k < 2 * n then None else Some(RingOf(n, m)))
    else if k < Dist(n, m, j) then Device(Inactive, None, None)
    else if k < n + Dist(n, m, j) then Device(Follower, None, None)
    else Device(Follower, Some(m), Some(RingOf(n, m)))
  }

  function LoneNet(ram: seq<int>, m: nat, k: nat): seq<Envelope>
    requires m < |ram|
  {
    var n := |ram|;
    if k < n then [Envelope(Place(n, m, k + 1), Message(Kind.Election, m, ram[m]))]
    else if k < 2 * n then [Envelope(Place(n, m, k - n + 1), Message(Announcement, m, ram[m]))]
    else []
  }

  // ... and the devices in `late` have started again since.
  function Lone(ram: seq<int>, m: nat, k: nat, late: set<nat>): (s: System)
    requires m < |ram|
    ensures Shaped(ram, s)
  {
    var n := |ram|;
    System(seq(n, j requires 0 <= j < n =>
                 var d := LoneDevice(n, m, k, j);
                 if j in late then d.(role := Candidate) else d),
           LoneNet(ram, m, k))
  }

  lemma LoneStarts(ram: seq<int>, m: nat)
    requires 2 <= |ram| && m < |ram|
    ensures Apply(ram, Init(ram), Start(m)) == Lone(ram, m, 0, {})
  {
    hide RingOf;
    var a, b := Apply(ram, Init(ram), Start(m)), Lone(ram, m, 0, {});
    assert a.devices == b.devices;
    assert a.net == b.net;
  }

  lemma LoneHandles(ram: seq<int>, m: nat, k: nat, d: Device)
    requires 2 <= |ram| && StrictMax(ram, m) && k < 2 * |ram|
    requires
      var dest := LoneNet(ram, m, k)[0].dest;
      d == LoneDevice(|ram|, m, k, dest)
      || (dest != m && d == LoneDevice(|ram|, m, k, dest).(role := Candidate))
    ensures
      var n, e := |ram|, LoneNet(ram, m, k)[0];
      var o := Handle(n, e.dest, ram[e.dest], d, e.msg);
      && o.device == LoneDevice(n, m, k + 1, e.dest)
      && Posted(n, e.dest, o.sent) == LoneNet(ram, m, k + 1)
  {
  }

  // Delivering the lone message: its receiver is a follower again, whatever it was.
  lemma LoneDelivers(ram: seq<int>, m: nat, k: nat, late: set<nat>)
    requires 2 <= |ram| && StrictMax(ram, m) && k < 2 * |ram| && m !in late
    ensures Apply(ram, Lone(ram, m, k, late), Deliver(0))
            == Lone(ram, m, k + 1, late - {LoneNet(ram, m, k)[0].dest})
  {
    var n, s := |ram|, Lone(ram, m, k, late);
    var e := s.net[0];
    var d := e.dest;
    var a, b := Apply(ram, s, Deliver(0)), Lone(ram, m, k + 1, late - {d});
    LoneHandles(ram, m, k, s.devices[d]);
    hide Handle, RingOf;
    assert Without(s.net, 0) == [];
    assert a.net == b.net;
    forall j | 0 <= j < n
      ensures a.devices[j] == b.devices[j]
    {
      if j != d {
        LoneElsewhere(ram, m, k, j);
      }
    }
    assert a.devices == b.devices;
  }

  // The others are as they were.
  lemma LoneElsewhere(ram: seq<int>, m: nat, k: nat, j: nat)
    requires 2 <= |ram| && m < |ram| && k < 2 * |ram| && j < |ram| && j != LoneNet(ram, m, k)[0].dest
    ensures LoneDevice(|ram|, m, k + 1, j) == LoneDevice(|ram|, m, k, j)
  {
  }

  function LoneSteps(m: nat, k: nat): seq<Step> {
    if k == 0 then [Start(m)] else LoneSteps(m, k - 1) + [Deliver(0)]
  }

  /**
   * When only the strict maximum starts, every state on the way is known: its election passes each
   * device once and leaves a follower, comes back and makes it coordinator, and its announcement
   * goes round once more and leaves the ring; after 2n deliveries nothing is in flight.
   */
  lemma {:induction false} LoneElection(ram: seq<int>, m: nat, k: nat)
    requires 2 <= |ram| && StrictMax(ram, m) && k <= 2 * |ram|
    ensures Exec(ram, LoneSteps(m, k)) == Lone(ram, m, k, {})
  {
    var steps := LoneSteps(m, k);
    hide Apply, Lone, Init, Exec;
    ExecStep(ram, steps);
    if k == 0 {
      assert steps[..|steps| - 1] == [];
      NothingRun(ram);
      LoneStarts(ram, m);
    } else {
      var nobody: set<nat> := {};
      assert steps[..|steps| - 1] == LoneSteps(m, k - 1);
      LoneElection(ram, m, k - 1);
      LoneDelivers(ram, m, k - 1, nobody);
      assert nobody - {LoneNet(ram, m, k - 1)[0].dest} == nobody;
    }
  }

  lemma NothingRun(ram: seq<int>)
    ensures Exec(ram, []) == Init(ram)
  {
  }

  // ----- how a device can be left a candidate -----

  // A loss-free run that has started an election and leads here.
  predicate Leads(ram: seq<int>, steps: seq<Step>, s: System) {
    LossFree(steps) && Starts(ram, steps) > 0 && Exec(ram, steps) == s
  }

  lemma {:induction false} LeadsOn(ram: seq<int>, steps: seq<Step>, s: System, step: Step) returns (more: seq<Step>)
    requires Leads(ram, steps, s) && (step.Start? || step.Deliver?)
    ensures Shaped(ram, s) && Leads(ram, more, Apply(ram, s, step))
  {
    more := steps + [step];
    assert more[..|more| - 1] == steps;
    hide Apply;
    ExecStep(ram, more);
    assert LossFree(more) && Starts(ram, more) > 0;
  }

  lemma {:induction false} LeadsToLone(ram: seq<int>, m: nat)
    requires 2 <= |ram| && StrictMax(ram, m)
    ensures Leads(ram, LoneSteps(m, |ram| - 1), Lone(ram, m, |ram| - 1, {}))
  {
    hide Lone, Exec;
    LoneElection(ram, m, |ram| - 1);
    LoneStepsAreFree(ram, m, |ram| - 1);
  }

  lemma {:induction false} LoneStepsAreFree(ram: seq<int>, m: nat, k: nat)
    requires m < |ram|
    ensures LossFree(LoneSteps(m, k)) && Starts(ram, LoneSteps(m, k)) > 0
  {
    var steps := LoneSteps(m, k);
    if k > 0 {
      assert steps[..|steps| - 1] == LoneSteps(m, k - 1);
      LoneStepsAreFree(ram, m, k - 1);
    } else {
      assert steps[..0] == [];
    }
  }

  // Deliveries k to `to` are to devices that are not among these.
  ghost predicate Avoids(ram: seq<int>, m: nat, k: nat, to: nat, late: set<nat>)
    requires m < |ram| && to <= 2 * |ram|
  {
    forall j :: k <= j < to ==> LoneNet(ram, m, j)[0].dest !in late
  }

  // The lone message goes on while it is delivered to devices that have not started again.
  lemma {:induction false} LoneGoesOn(
    ram: seq<int>, steps: seq<Step>, m: nat, k: nat, to: nat, late: set<nat>) returns (more: seq<Step>)
    requires 2 <= |ram| && StrictMax(ram, m) && m !in late && k <= to <= 2 * |ram|
    requires Leads(ram, steps, Lone(ram, m, k, late)) && Avoids(ram, m, k, to, late)
    ensures Leads(ram, more, Lone(ram, m, to, late))
    decreases 2 * |ram| - k
  {
    hide Lone, Apply, Leads;
    more := steps;
    if k < to {
      LoneDelivers(ram, m, k, late);
      more := LeadsOn(ram, steps, Lone(ram, m, k, late), Deliver(0));
      assert late - {LoneNet(ram, m, k)[0].dest} == late;
      more := LoneGoesOn(ram, more, m, k + 1, to, late);
    }
  }

  // ... and one more message is in flight.
  function Joined(ram: seq<int>, m: nat, k: nat, late: set<nat>, e: Envelope): System
    requires m < |ram|
  {
    System(Lone(ram, m, k, late).devices, LoneNet(ram, m, k) + [e])
  }

  lemma LateStarts(ram: seq<int>, m: nat, k: nat, late: set<nat>, x: nat)
    requires 2 <= |ram| && m < |ram| && k < 2 * |ram| && x < |ram|
    ensures Apply(ram, Lone(ram, m, k, late), Start(x))
            == Joined(ram, m, k, late + {x}, LateMessage(ram, x, Next(|ram|, x)))
  {
    hide LoneDevice, LoneNet;
    var a := Apply(ram, Lone(ram, m, k, late), Start(x));
    assert a.devices == Lone(ram, m, k, late + {x}).devices;
  }

  // The extra message is delivered and leaves its receiver as it was.
  lemma JoinedDelivers(ram: seq<int>, m: nat, k: nat, late: set<nat>, e: Envelope, sent: Option<Message>)
    requires 2 <= |ram| && m < |ram| && k < 2 * |ram| && e.dest < |ram|
    requires
      var d := Lone(ram, m, k, late).devices[e.dest];
      Handle(|ram|, e.dest, ram[e.dest], d, e.msg) == Outcome(d, sent)
    ensures
      var s := Joined(ram, m, k, late, e);
      && Shaped(ram, s) && |s.net| == 2
      && Apply(ram, s, Deliver(1))
         == if sent.Some? then Joined(ram, m, k, late, Envelope(Next(|ram|, e.dest), sent.value))
            else Lone(ram, m, k, late)
  {
    hide Handle, LoneDevice;
    var s, lone := Joined(ram, m, k, late, e), Lone(ram, m, k, late);
    assert |LoneNet(ram, m, k)| == 1;
    assert Without(s.net, 1) == lone.net;
    assert lone.devices[e.dest := lone.devices[e.dest]] == lone.devices;
    assert lone.net + [] == lone.net;
  }

  // Device d has more RAM than every device between it and m.
  ghost predicate Outranks(ram: seq<int>, m: nat, d: nat)
    requires m < |ram| && d < |ram|
  {
    forall y :: 0 <= y < |ram| && y != m && Dist(|ram|, y, m) < Dist(|ram|, d, m) ==> ram[y] < ram[d]
  }

  function LateMessage(ram: seq<int>, d: nat, x: nat): Envelope
    requires d < |ram|
  {
    Envelope(x, Message(Kind.Election, d, ram[d]))
  }

  // Such a device's late message is passed on by those between, and swallowed by m.
  lemma LateHandled(ram: seq<int>, m: nat, d: nat, x: nat)
    requires 2 <= |ram| && StrictMax(ram, m) && d < |ram| && d != m && x < |ram| && Outranks(ram, m, d)
    requires Dist(|ram|, x, m) < Dist(|ram|, d, m)
    ensures
      var e, r := LateMessage(ram, d, x), Lone(ram, m, |ram| - 1, {d}).devices[x];
      Handle(|ram|, x, ram[x], r, e.msg) == Outcome(r, if x == m then None else Some(e.msg))
    ensures x != m ==> Next(|ram|, x) < |ram| && Dist(|ram|, Next(|ram|, x), m) < Dist(|ram|, x, m)
  {
  }

  lemma {:induction false} LateIsSwallowed(ram: seq<int>, steps: seq<Step>, m: nat, d: nat, x: nat)
    returns (more: seq<Step>)
    requires 2 <= |ram| && m < |ram| && StrictMax(ram, m) && d < |ram| && d != m && x < |ram|
    requires Outranks(ram, m, d) && Dist(|ram|, x, m) < Dist(|ram|, d, m)
    requires Leads(ram, steps, Joined(ram, m, |ram| - 1, {d}, LateMessage(ram, d, x)))
    ensures Leads(ram, more, Lone(ram, m, |ram| - 1, {d}))
    decreases Dist(|ram|, x, m)
  {
    hide Lone, Joined, Apply, Handle, Outranks, Dist, Leads, StrictMax, Next;
    var n, e := |ram|, LateMessage(ram, d, x);
    var sent := if x == m then None else Some(e.msg);
    LateHandled(ram, m, d, x);
    JoinedDelivers(ram, m, n - 1, {d}, e, sent);
    more := LeadsOn(ram, steps, Joined(ram, m, n - 1, {d}, e), Deliver(1));
    if x != m {
      more := LateIsSwallowed(ram, more, m, d, Next(n, x));
    }
  }

  // Up to d's place it is delivered to other devices, then to d, and then to others again.
  lemma PlacesUpTo(ram: seq<int>, m: nat, d: nat)
    requires 2 <= |ram| && m < |ram| && d < |ram| && d != m
    ensures
      var n := |ram|;
      var told := n + Dist(n, m, d) - 1;
      && n - 1 < told < 2 * n - 1 && LoneNet(ram, m, told)[0].dest == d
      && Avoids(ram, m, n - 1, told, {d}) && forall k: nat :: told < k <= 2 * n ==> Avoids(ram, m, k, 2 * n, {d})
  {
  }

  lemma NextIsCloser(n: nat, m: nat, d: nat)
    requires 2 <= n && m < n && d < n && d != m
    ensures Next(n, d) < n && Dist(n, Next(n, d), m) == Dist(n, d, m) - 1
    ensures Next(n, d) != m ==> Dist(n, m, Next(n, d)) == Dist(n, m, d) + 1
  {
  }

  // While m's election is on its way back d starts, in vain.
  lemma {:induction false} LateJoins(ram: seq<int>, m: nat, d: nat) returns (steps: seq<Step>)
    requires 2 <= |ram| && m < |ram| && StrictMax(ram, m) && d < |ram| && d != m && Outranks(ram, m, d)
    ensures Leads(ram, steps, Lone(ram, m, |ram| - 1, {d}))
  {
    hide *;
    var n := |ram|;
    LeadsToLone(ram, m);
    LateStarts(ram, m, n - 1, {}, d);
    assert {} + {d} == {d};
    NextIsCloser(n, m, d);
    steps := LeadsOn(ram, LoneSteps(m, n - 1), Lone(ram, m, n - 1, {}), Start(d));
    steps := LateIsSwallowed(ram, steps, m, d, Next(n, d));
  }

  // Then the announcement goes round up to d.
  lemma {:induction false} LateUntilTold(ram: seq<int>, m: nat, d: nat) returns (steps: seq<Step>)
    requires 2 <= |ram| && m < |ram| && StrictMax(ram, m) && d < |ram| && d != m && Outranks(ram, m, d)
    ensures Dist(|ram|, m, d) > 0
    ensures Leads(ram, steps, Lone(ram, m, |ram| + Dist(|ram|, m, d) - 1, {d}))
  {
    hide *;
    PlacesUpTo(ram, m, d);
    steps := LateJoins(ram, m, d);
    steps := LoneGoesOn(ram, steps, m, |ram| - 1, |ram| + Dist(|ram|, m, d) - 1, {d});
  }

  lemma CandidateSwallows(ram: seq<int>, m: nat, k: nat, d: nat, i: nat)
    requires 2 <= |ram| && m < |ram| && i < |ram| && d == Next(|ram|, i) && d != m && k < 2 * |ram|
    requires ram[d] >= ram[i]
    ensures
      var s := Joined(ram, m, k, {d} + {i}, LateMessage(ram, i, d));
      Shaped(ram, s) && Apply(ram, s, Deliver(1)) == Lone(ram, m, k, {d} + {i})
  {
    var late, e := {d} + {i}, LateMessage(ram, i, d);
    var r := Lone(ram, m, k, late).devices[d];
    assert Handle(|ram|, d, ram[d], r, e.msg) == Outcome(r, None);
    JoinedDelivers(ram, m, k, late, e, None);
  }

  // The device before d starts now, d swallows that, and the announcement goes on.
  lemma {:induction false} LeftCandidate(ram: seq<int>, m: nat, i: nat, d: nat) returns (steps: seq<Step>)
    requires 2 <= |ram| && m < |ram| && StrictMax(ram, m) && i < |ram| && d < |ram| && d == Next(|ram|, i)
    requires i != m && d != m
    requires ram[d] >= ram[i] && Outranks(ram, m, d)
    ensures Leads(ram, steps, Lone(ram, m, 2 * |ram|, {i}))
  {
    hide *;
    steps := LateUntilTold(ram, m, d);
    steps := LeftBehind(ram, steps, m, i, d, |ram| + Dist(|ram|, m, d) - 1);
    NextIsCloser(|ram|, m, i);
    PlacesUpTo(ram, m, i);
    steps := LoneGoesOn(ram, steps, m, |ram| + Dist(|ram|, m, d), 2 * |ram|, {i});
  }

  lemma {:induction false} LeftBehind(ram: seq<int>, before: seq<Step>, m: nat, i: nat, d: nat, k: nat)
    returns (steps: seq<Step>)
    requires 2 <= |ram| && m < |ram| && StrictMax(ram, m) && i < |ram| && d < |ram| && d == Next(|ram|, i)
    requires i != m && d != m
    requires ram[d] >= ram[i] && k == |ram| + Dist(|ram|, m, d) - 1
    requires Leads(ram, before, Lone(ram, m, k, {d}))
    ensures Leads(ram, steps, Lone(ram, m, k + 1, {i}))
  {
    hide *;
    PlacesUpTo(ram, m, d);
    LateStarts(ram, m, k, {d}, i);
    steps := LeadsOn(ram, before, Lone(ram, m, k, {d}), Start(i));
    CandidateSwallows(ram, m, k, d, i);
    steps := LeadsOn(ram, steps, Joined(ram, m, k, {d} + {i}, LateMessage(ram, i, d)), Deliver(1));
    LoneDelivers(ram, m, k, {d} + {i});
    steps := LeadsOn(ram, steps, Lone(ram, m, k, {d} + {i}), Deliver(0));
    NextIsAnother(|ram|, i);
    assert {d} + {i} - {d} == {i};
  }

  lemma NextIsAnother(n: nat, i: nat)
    requires 2 <= n && i < n
    ensures Next(n, i) != i
  {
  }

  // The last pair that does not fall.
  lemma {:induction false} LastRise(ram: seq<int>, m: nat, i: nat) returns (x: nat)
    requires m < |ram| && i < |ram| && i != m && Next(|ram|, i) != m && ram[Next(|ram|, i)] >= ram[i]
    ensures x < |ram| && x != m && Next(|ram|, x) != m && ram[Next(|ram|, x)] >= ram[x]
    ensures forall y :: 0 <= y < |ram| && y != m && Next(|ram|, y) != m && Dist(|ram|, y, m) < Dist(|ram|, x, m)
                        ==> ram[Next(|ram|, y)] < ram[y]
    decreases Dist(|ram|, i, m)
  {
    x := i;
    if y :| 0 <= y < |ram| && y != m && Next(|ram|, y) != m && Dist(|ram|, y, m) < Dist(|ram|, i, m)
            && ram[Next(|ram|, y)] >= ram[y] {
      x := LastRise(ram, m, y);
    }
  }

  lemma {:induction false} RiseUnsettles(ram: seq<int>, m: nat) returns (steps: seq<Step>)
    requires 2 <= |ram| && StrictMax(ram, m) && !Falling(ram, m)
    ensures WentQuiet(ram, steps) && !Settled(ram, m, Exec(ram, steps))
  {
    var n := |ram|;
    var first :| 0 <= first < n && first != m && Next(n, first) != m && ram[Next(n, first)] >= ram[first];
    var i := LastRise(ram, m, first);
    var d := Next(n, i);
    assert Dist(n, d, m) == Dist(n, i, m) - 1;
    forall y: nat | y < n && y != m && Dist(n, y, m) < Dist(n, d, m)
      ensures ram[y] < ram[d]
    {
      FallsAfter(ram, m, d, y);
    }
    steps := LeftCandidate(ram, m, i, d);
    var end := Lone(ram, m, 2 * n, {i});
    assert end.net == [] && end.devices[i].role == Candidate;
  }

  /**
   * Starts at any time included, and messages overtaking each other: every election that goes
   * quiet has left the strict maximum leading and everybody else following exactly when RAM falls
   * strictly from device to device around the ring from the maximum on. Otherwise some election
   * leaves a device a candidate: it starts after the announcement has passed it, its message
   * overtakes the announcement, and a candidate the announcement has yet to reach swallows it.
   */
  lemma RolesSettleIffFalling(ram: seq<int>, m: nat)
    requires 2 <= |ram| && StrictMax(ram, m)
    ensures (forall steps :: WentQuiet(ram, steps) ==> Settled(ram, m, Exec(ram, steps))) <==> Falling(ram, m)
  {
    hide Settled, Exec;
    if Falling(ram, m) {
      forall steps | WentQuiet(ram, steps)
        ensures Settled(ram, m, Exec(ram, steps))
      {
        FallingSettles(ram, m, steps);
      }
    } else {
      var steps := RiseUnsettles(ram, m);
    }
  }
}
