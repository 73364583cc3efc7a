/**
 * The health monitor: probes peers, feeds the results to the membership service, its events to
 * the watchdog, and drives rebuilds. The clock is read once per call.
 */
module Monitor {
  import opened Base
  import opened Capability
  import M = Membership
  import R = MembershipRuns
  import W = Watchdog

  // One peer's answer to a ping; its profile may not have arrived yet.
  datatype Probe = Probe(id: NodeID, profile: Option<Profile>, alive: bool)

  datatype Setup = Setup(members: M.Config, dog: W.Config, canReform: bool, local: Option<Profile>)

  // `rebuilding` says that a rebuild task has been launched and has not reported yet.
  datatype Mon = Mon(members: M.Members, dog: W.Dog, rebuilding: bool, health: W.Health)

  const NoTeardown := "teardown unavailable"

  // ----- the handlers as functions -----

  function Published(c: Setup, s: Mon, now: real): M.Effect {
    if c.local.Some? then M.Appeared(c.members, s.members, c.local.value, now)
    else M.Effect(s.members, [])
  }

  function Probed(c: Setup, s: Mon, p: Probe, now: real): M.Effect {
    if !p.alive then M.Effect(M.Failed(s.members, p.id), [])
    else
      var e := if p.profile.Some? then M.Appeared(c.members, s.members, p.profile.value, now)
               else M.Effect(s.members, []);
      M.Effect(M.Succeeded(c.members, e.after, p.id, now), e.events)
  }

  function Refreshed(c: Setup, s: Mon, now: real): Mon {
    var (dog, health) := W.Evaluated(c.dog, s.dog, now);
    if !health.BeingRebuilt? || s.rebuilding then s.(dog := dog, health := health)
    else if !c.canReform then
      var gone := W.Unavailable(dog, NoTeardown);
      s.(dog := W.Evaluated(c.dog, gone, now).0, health := W.Evaluated(c.dog, gone, now).1)
    else s.(dog := dog, health := health, rebuilding := true)
  }

  // Events reach the watchdog, and then the health is refreshed.
  function Told(c: Setup, s: Mon, e: M.Effect, now: real): Mon {
    Refreshed(c, s.(members := e.after, dog := W.Consumed(s.dog, e.events, now)), now)
  }

  function GenerationBegun(c: Setup, s: Mon, now: real): (Mon, bool) {
    var (dog, admitted) := W.Begun(c.dog, s.dog, now);
    var (dog', health) := W.Evaluated(c.dog, dog, now);
    (s.(dog := dog', health := health), admitted)
  }

  function RebuildReported(c: Setup, s: Mon, failure: Option<string>, now: real): Mon {
    if !s.rebuilding then s
    else
      var dog := if failure.Some? then W.RebuildMissed(c.dog, s.dog, failure.value, now)
                 else W.Rebuilt(s.dog, now);
      var (dog', health) := W.Evaluated(c.dog, dog, now);
      Mon(s.members, dog', false, health)
  }

  class RingHealthMonitor {
    const setup: Setup
    const membership: M.MembershipService
    const watchdog: W.RingWatchdog
    var health: W.Health
    var rebuilding: bool

    ghost predicate Valid()
      reads this
    {
      membership.config == setup.members && watchdog.config == setup.dog
    }

    ghost function View(): Mon
      reads this, membership, watchdog
    {
      Mon(membership.View(), watchdog.View(), rebuilding, health)
    }

    constructor (setup: Setup, now: real)
      ensures Valid() && fresh(membership) && fresh(watchdog)
      ensures View() == Start(now) && this.setup == setup
    {
      this.setup := setup;
      membership := new M.MembershipService(setup.members, 0, now);
      watchdog := new W.RingWatchdog(setup.dog, now);
      health := W.Healthy;
      rebuilding := false;
    }

    method PublishLocalProfile(now: real)
      requires Valid()
      modifies membership
      ensures View() == old(View()).(members := Published(setup, old(View()), now).after)
    {
      if setup.local.Some? {
        var _ := membership.NodeAppeared(setup.local.value, now);
      }
    }

    method ProbeOne(p: Probe, now: real)
      requires Valid()
      modifies membership
      ensures View() == old(View()).(members := Probed(setup, old(View()), p, now).after)
    {
      if p.alive {
        if p.profile.Some? {
          var _ := membership.NodeAppeared(p.profile.value, now);
        }
        membership.HeartbeatSucceeded(p.id, now);
      } else {
        membership.HeartbeatFailed(p.id);
      }
    }

    method StartReformationIfNeeded(now: real)
      requires Valid()
      modifies this, watchdog
      ensures Valid()
      ensures
        var s := old(View());
        var gone := W.Unavailable(s.dog, NoTeardown);
        View() == if s.rebuilding then s
                  else if setup.canReform then s.(rebuilding := true)
                  else s.(dog := W.Evaluated(setup.dog, gone, now).0,
                          health := W.Evaluated(setup.dog, gone, now).1)
    {
      if rebuilding {
        return;
      }
      if !setup.canReform {
        watchdog.ReformationUnavailable(NoTeardown);
        health := watchdog.Evaluate(now);
        return;
      }
      rebuilding := true;
    }

    method RefreshHealth(now: real)
      requires Valid()
      modifies this, watchdog
      ensures Valid() && View() == Refreshed(setup, old(View()), now)
    {
      health := watchdog.Evaluate(now);
      if health.BeingRebuilt? {
        StartReformationIfNeeded(now);
      }
    }

    // A whole round of probing, when nothing else happens between its pings.
    method ProbePeers(peers: seq<Probe>, now: real)
      requires Valid()
      modifies this, membership, watchdog
      ensures Valid() && View() == Round(setup, old(View()), peers, now)
    {
      PublishLocalProfile(now);
      ghost var s := View();
      assert peers[..0] == [];
      for i := 0 to |peers|
        invariant Valid() && View() == AllProbed(setup, s, peers[..i], now)
      {
        assert peers[..i + 1][..i] == peers[..i];
        ProbeOne(peers[i], now);
      }
      assert peers[..|peers|] == peers;
      var events := membership.Tick(now);
      watchdog.Consume(events, now);
      RefreshHealth(now);
    }

    method PeerAnnouncedDrain(id: NodeID, now: real)
      requires Valid()
      modifies this, membership, watchdog
      ensures Valid()
      ensures View() == Told(setup, old(View()), M.AnnouncedDrain(old(View()).members, id, now), now)
    {
      var events := membership.NodeAnnouncedDrain(id, now);
      watchdog.Consume(events, now);
      RefreshHealth(now);
    }

    method BeginGeneration(now: real) returns (admitted: bool)
      requires Valid()
      modifies this, watchdog
      ensures Valid() && (View(), admitted) == GenerationBegun(setup, old(View()), now)
    {
      admitted := watchdog.BeginGeneration(now);
      health := watchdog.Evaluate(now);
    }

    // The rebuild task reports; `failure` is None when the ring was rebuilt.
    method RebuildFinished(failure: Option<string>, now: real)
      requires Valid() && rebuilding
      modifies this, watchdog
      ensures Valid() && View() == RebuildReported(setup, old(View()), failure, now)
    {
      if failure.Some? {
        watchdog.ReformationFailed(failure.value, now);
      } else {
        watchdog.ReformationSucceeded(now);
      }
      rebuilding := false;
      health := watchdog.Evaluate(now);
    }
  }

  function AllProbed(c: Setup, s: Mon, peers: seq<Probe>, now: real): Mon {
    if peers == [] then s
    else
      var before := AllProbed(c, s, peers[..|peers| - 1], now);
      before.(members := Probed(c, before, peers[|peers| - 1], now).after)
  }

  function Round(c: Setup, s: Mon, peers: seq<Probe>, now: real): Mon {
    var probed := AllProbed(c, s.(members := Published(c, s, now).after), peers, now);
    Told(c, probed, M.Ticked(c.members, probed.members, now), now)
  }

  // ----- runs, in which anything may happen between two pings of a round -----

  datatype Op =
    | Publish
    | Ping(probe: Probe)
    | CloseRound
    | PeerDrains(id: NodeID)
    | Begin
    | Token
    | Refresh
    | Report(failure: Option<string>)

  datatype Call = Call(op: Op, now: real)

  // What an observer notes: membership events, admitted generations and completed rebuilds.
  datatype Note = Emitted(event: M.Event) | Admitted | Restored

  // `launched` counts the rebuilds launched since the watchdog last left Running.
  datatype World = World(mon: Mon, log: seq<Note>, launched: nat)

  function Start(now: real): Mon {
    Mon(M.Fresh(0, now), W.Started(now), false, W.Healthy)
  }

  function Notes(events: seq<M.Event>): seq<Note> {
    seq(|events|, k requires 0 <= k < |events| => Emitted(events[k]))
  }

  function Do(c: Setup, s: Mon, call: Call): (Mon, seq<Note>) {
    match call.op
    case Publish =>
      var e := Published(c, s, call.now);
      (s.(members := e.after), Notes(e.events))
    case Ping(p) =>
      var e := Probed(c, s, p, call.now);
      (s.(members := e.after), Notes(e.events))
    case CloseRound =>
      var e := M.Ticked(c.members, s.members, call.now);
      (Told(c, s, e, call.now), Notes(e.events))
    case PeerDrains(id) =>
      var e := M.AnnouncedDrain(s.members, id, call.now);
      (Told(c, s, e, call.now), Notes(e.events))
    case Begin =>
      var (s', admitted) := GenerationBegun(c, s, call.now);
      (s', if admitted then [Admitted] else [])
    case Token => (s.(dog := W.Progressed(s.dog, call.now)), [])
    case Refresh => (Refreshed(c, s, call.now), [])
    case Report(failure) =>
      (RebuildReported(c, s, failure, call.now),
       if s.rebuilding && failure.None? && s.dog.phase.Reforming? then [Restored] else [])
  }

  function Launched(before: Mon, after: Mon, n: nat): nat {
    if after.dog.phase.Running? then 0
    else if !before.rebuilding && after.rebuilding then n + 1
    else n
  }

  function Exec(c: Setup, start: real, calls: seq<Call>): World {
    if calls == [] then World(Start(start), [], 0)
    else
      var w := Exec(c, start, calls[..|calls| - 1]);
      var (mon, notes) := Do(c, w.mon, calls[|calls| - 1]);
      World(mon, w.log + notes, Launched(w.mon, mon, w.launched))
  }

  lemma {:induction false} ExecStep(c: Setup, start: real, calls: seq<Call>)
    requires calls != []
    ensures
      var w := Exec(c, start, calls[..|calls| - 1]);
      var (mon, notes) := Do(c, w.mon, calls[|calls| - 1]);
      Exec(c, start, calls) == World(mon, w.log + notes, Launched(w.mon, mon, w.launched))
  {
    hide Do, Launched;
  }

  // ----- the watchdog names the first loss -----

  // A node that announced its drain or was evicted as drained has departed, any other evicted one is
  // unreachable.
  function NoteLoss(n: Note): Option<W.Loss> {
    match n
    case Emitted(Leaving(id)) => Some(W.Departed(id))
    case Emitted(Evicted(id, why)) => if why.Drained? then Some(W.Departed(id)) else Some(W.Unreachable(id))
    case _ => None
  }

  // The first loss noted since the last admitted generation or completed rebuild.
  function FirstLoss(log: seq<Note>): Option<W.Loss> {
    if log == [] then None
    else
      var before, last := FirstLoss(log[..|log| - 1]), log[|log| - 1];
      if !last.Emitted? then None
      else if before.Some? then before
      else NoteLoss(last)
  }

  // The loss the watchdog is waiting on, rebuilding for, or has given up on.
  function Diagnosis(dog: W.Dog): Option<W.Loss> {
    match dog.phase
    case Running => if dog.pending.Some? then Some(dog.pending.value.reason) else None
    case Reforming(reason, _) => Some(reason)
    case Terminal(reason, _) => Some(reason)
  }

  lemma {:induction false} ConsumedNotesLoss(dog: W.Dog, log: seq<Note>, events: seq<M.Event>, now: real)
    requires Diagnosis(dog) == FirstLoss(log)
    ensures Diagnosis(W.Consumed(dog, events, now)) == FirstLoss(log + Notes(events))
  {
    W.ConsumedOnlyPends(dog, events, now);
    if events == [] {
      assert log + Notes(events) == log;
    } else {
      var front := events[..|events| - 1];
      ConsumedNotesLoss(dog, log, front, now);
      W.ConsumedOnlyPends(dog, front, now);
      var all := log + Notes(events);
      assert all[..|all| - 1] == log + Notes(front);
      assert all[|all| - 1] == Emitted(events[|events| - 1]);
    }
  }

  lemma RefreshedKeepsDiagnosis(c: Setup, s: Mon, now: real)
    ensures Diagnosis(Refreshed(c, s, now).dog) == Diagnosis(s.dog)
  {
  }

  // Joins are noted but are no losses.
  lemma {:induction false} JoinsAreNoLoss(log: seq<Note>, events: seq<M.Event>)
    requires forall k :: 0 <= k < |events| ==> W.LossOf(events[k]).None?
    ensures FirstLoss(log + Notes(events)) == FirstLoss(log)
  {
    if events == [] {
      assert log + Notes(events) == log;
    } else {
      var all := log + Notes(events);
      assert all[..|all| - 1] == log + Notes(events[..|events| - 1]);
      JoinsAreNoLoss(log, events[..|events| - 1]);
    }
  }

  lemma {:induction false} DoKeepsDiagnosis(c: Setup, s: Mon, call: Call, log: seq<Note>)
    requires Diagnosis(s.dog) == FirstLoss(log)
    ensures
      var (s', notes) := Do(c, s, call);
      Diagnosis(s'.dog) == FirstLoss(log + notes)
  {
    var (s', notes) := Do(c, s, call);
    match call.op
    case Publish => JoinsAreNoLoss(log, Published(c, s, call.now).events);
    case Ping(p) => JoinsAreNoLoss(log, Probed(c, s, p, call.now).events);
    case CloseRound =>
      hide M.Ticked, Refreshed, W.Consumed, Diagnosis, Notes;
      var e := M.Ticked(c.members, s.members, call.now);
      ConsumedNotesLoss(s.dog, log, e.events, call.now);
      RefreshedKeepsDiagnosis(c, s.(members := e.after, dog := W.Consumed(s.dog, e.events, call.now)), call.now);
    case PeerDrains(id) =>
      hide M.AnnouncedDrain, Refreshed, W.Consumed, Diagnosis, Notes;
      var e := M.AnnouncedDrain(s.members, id, call.now);
      ConsumedNotesLoss(s.dog, log, e.events, call.now);
      RefreshedKeepsDiagnosis(c, s.(members := e.after, dog := W.Consumed(s.dog, e.events, call.now)), call.now);
    case Begin =>
      if notes == [] {
        assert log + notes == log;
      } else {
        assert (log + notes)[..|log + notes| - 1] == log;
      }
    case Token => assert log + notes == log;
    case Refresh =>
      RefreshedKeepsDiagnosis(c, s, call.now);
      assert log + notes == log;
    case Report(failure) =>
      if notes == [] {
        assert log + notes == log;
      } else {
        assert (log + notes)[..|log + notes| - 1] == log;
      }
  }

  /**
   * In every run the watchdog's diagnosis is the first drain or eviction the membership service
   * emitted since the last admitted generation or completed rebuild: it is kept until then, and
   * without such an event the ring is running however long the silence.
   */
  lemma {:induction false} DiagnosisIsFirstLoss(c: Setup, start: real, calls: seq<Call>)
    ensures
      var w := Exec(c, start, calls);
      && Diagnosis(w.mon.dog) == FirstLoss(w.log)
      && (FirstLoss(w.log).None? ==> w.mon.dog.phase.Running?)
  {
    if calls != [] {
      hide Do, Exec, Diagnosis;
      var before := calls[..|calls| - 1];
      DiagnosisIsFirstLoss(c, start, before);
      ExecStep(c, start, calls);
      var w := Exec(c, start, before);
      DoKeepsDiagnosis(c, w.mon, calls[|calls| - 1], w.log);
      DiagnosisOutsideRunning(Exec(c, start, calls).mon.dog);
    }
  }

  lemma DiagnosisOutsideRunning(dog: W.Dog)
    ensures Diagnosis(dog).None? ==> dog.phase.Running?
  {
  }

  lemma {:induction false} FirstLossWasNoted(log: seq<Note>)
    requires FirstLoss(log).Some?
    ensures exists k :: 0 <= k < |log| && NoteLoss(log[k]) == FirstLoss(log)
  {
    if FirstLoss(log[..|log| - 1]).Some? && log[|log| - 1].Emitted? {
      FirstLossWasNoted(log[..|log| - 1]);
      var k :| 0 <= k < |log| - 1 && NoteLoss(log[..|log| - 1][k]) == FirstLoss(log[..|log| - 1]);
      assert NoteLoss(log[k]) == FirstLoss(log);
    } else {
      assert NoteLoss(log[|log| - 1]) == FirstLoss(log);
    }
  }

  /** Whatever node the watchdog blames, the membership service did report it gone. */
  lemma {:induction false} BlamedNodeWasLost(c: Setup, start: real, calls: seq<Call>)
    requires !Exec(c, start, calls).mon.dog.phase.Running?
    ensures
      var w := Exec(c, start, calls);
      exists k :: 0 <= k < |w.log| && NoteLoss(w.log[k]) == Some(w.mon.dog.phase.reason)
  {
    hide Exec;
    DiagnosisIsFirstLoss(c, start, calls);
    FirstLossWasNoted(Exec(c, start, calls).log);
  }

  // ----- what the monitor shows -----

  // The calls after which the monitor shows a new verdict.
  predicate Shows(s: Mon, op: Op) {
    op.CloseRound? || op.PeerDrains? || op.Begin? || op.Refresh? || (op.Report? && s.rebuilding)
  }

  // When the verdict shown was last made.
  function ShownAt(c: Setup, start: real, calls: seq<Call>): Option<real> {
    if calls == [] then None
    else
      var before, last := calls[..|calls| - 1], calls[|calls| - 1];
      if Shows(Exec(c, start, before).mon, last.op) then Some(last.now) else ShownAt(c, start, before)
  }

  // Evaluating again at the same moment would answer the same and change nothing.
  ghost predicate Settled(c: Setup, s: Mon, now: real) {
    W.Evaluated(c.dog, s.dog, now) == (s.dog, s.health)
  }

  lemma DoSettles(c: Setup, s: Mon, call: Call)
    requires c.dog.timeout > 0.0 && Shows(s, call.op)
    ensures Settled(c, Do(c, s, call).0, call.now)
  {
    hide M.Ticked, M.AnnouncedDrain, W.Consumed, Notes;
  }

  lemma DoKeepsHealth(c: Setup, s: Mon, call: Call)
    requires !Shows(s, call.op)
    ensures Do(c, s, call).0.health == s.health
    ensures Do(c, s, call).0.dog == if call.op.Token? then W.Progressed(s.dog, call.now) else s.dog
  {
    hide M.Appeared, M.Succeeded, M.Failed, Notes;
  }

  /**
   * In every run what the monitor shows is the watchdog's verdict at its last evaluation: right
   * after it evaluating again would give the same, until then it is not touched, and before the
   * first it is healthy.
   */
  lemma {:induction false} HealthIsVerdict(c: Setup, start: real, calls: seq<Call>)
    requires c.dog.timeout > 0.0
    ensures
      var s := Exec(c, start, calls).mon;
      match ShownAt(c, start, calls)
      case None => s.health == W.Healthy
      case Some(at) => exists n :: 0 < n <= |calls| && calls[n - 1].now == at
                         && Settled(c, Exec(c, start, calls[..n]).mon, at)
                         && s.health == Exec(c, start, calls[..n]).mon.health
  {
    hide Do, Exec, Settled, Shows;
    if calls == [] {
      NothingShown(c, start);
    } else {
      var before, last := calls[..|calls| - 1], calls[|calls| - 1];
      HealthIsVerdict(c, start, before);
      ExecStep(c, start, calls);
      var s := Exec(c, start, before).mon;
      if Shows(s, last.op) {
        DoSettles(c, s, last);
        assert calls[..|calls|] == calls;
      } else {
        DoKeepsHealth(c, s, last);
        if ShownAt(c, start, before).Some? {
          var at := ShownAt(c, start, before).value;
          var n :| 0 < n <= |before| && before[n - 1].now == at && Settled(c, Exec(c, start, before[..n]).mon, at)
                   && s.health == Exec(c, start, before[..n]).mon.health;
          assert before[..n] == calls[..n];
        }
      }
    }
  }

  lemma NothingShown(c: Setup, start: real)
    ensures Exec(c, start, []).mon.health == W.Healthy
  {
  }

  // ----- one rebuild at a time, and few per loss -----

  ghost predicate Orderly(c: Setup, w: World) {
    var dog := w.mon.dog;
    && (dog.phase.Running? ==> !w.mon.rebuilding && w.launched == 0 && dog.attempts == 0)
    && (dog.phase.Reforming? ==>
          && 0 <= dog.attempts < c.dog.maxAttempts
          && w.launched == dog.attempts + if w.mon.rebuilding then 1 else 0)
    && w.launched <= c.dog.maxAttempts
  }

  lemma DoIsOrderly(c: Setup, w: World, call: Call)
    requires c.dog.maxAttempts >= 1 && Orderly(c, w)
    ensures
      var (mon, notes) := Do(c, w.mon, call);
      Orderly(c, World(mon, w.log + notes, Launched(w.mon, mon, w.launched)))
  {
    hide M.Ticked, M.AnnouncedDrain, W.Consumed, Notes, M.Appeared, M.Succeeded, M.Failed;
    match call.op
    case CloseRound =>
      W.ConsumedOnlyPends(w.mon.dog, M.Ticked(c.members, w.mon.members, call.now).events, call.now);
    case PeerDrains(id) =>
      W.ConsumedOnlyPends(w.mon.dog, M.AnnouncedDrain(w.mon.members, id, call.now).events, call.now);
    case _ =>
  }

  /**
   * In every run at most one rebuild is in progress, none while the ring runs, and at most
   * maxAttempts are ever launched for one loss.
   */
  lemma {:induction false} RebuildsAreOrderly(c: Setup, start: real, calls: seq<Call>)
    requires c.dog.maxAttempts >= 1
    ensures
      var w := Exec(c, start, calls);
      && (w.mon.rebuilding ==> !w.mon.dog.phase.Running?)
      && (w.mon.dog.phase.Reforming? ==>
            w.launched == w.mon.dog.attempts + if w.mon.rebuilding then 1 else 0)
      && w.launched <= c.dog.maxAttempts
      && Orderly(c, w)
  {
    if calls != [] {
      hide Do, Launched, Exec;
      var before := calls[..|calls| - 1];
      RebuildsAreOrderly(c, start, before);
      ExecStep(c, start, calls);
      DoIsOrderly(c, Exec(c, start, before), calls[|calls| - 1]);
    }
  }

  // ----- the monitor's membership is a run of the membership service -----

  function AsMember(c: Setup, call: Call): seq<M.Call> {
    match call.op
    case Publish => if c.local.Some? then [M.Call(M.Appear(c.local.value), call.now)] else []
    case Ping(p) =>
      if !p.alive then [M.Call(M.Fail(p.id), call.now)]
      else (if p.profile.Some? then [M.Call(M.Appear(p.profile.value), call.now)] else [])
           + [M.Call(M.Succeed(p.id), call.now)]
    case CloseRound => [M.Call(M.Tick, call.now)]
    case PeerDrains(id) => [M.Call(M.Drain(id), call.now)]
    case _ => []
  }

  function MemberCalls(c: Setup, calls: seq<Call>): seq<M.Call> {
    if calls == [] then []
    else MemberCalls(c, calls[..|calls| - 1]) + AsMember(c, calls[|calls| - 1])
  }

  lemma {:induction false} MemberStep(cfg: M.Config, init: M.Members, a: seq<M.Call>, b: M.Call)
    ensures M.Exec(cfg, init, a + [b]).members == M.Do(cfg, M.Exec(cfg, init, a).members, b).after
  {
    hide M.Do;
    assert (a + [b])[..|a + [b]| - 1] == a;
  }

  lemma {:induction false} MembersFollow(c: Setup, s: Mon, call: Call, init: M.Members, past: seq<M.Call>)
    requires s.members == M.Exec(c.members, init, past).members
    ensures Do(c, s, call).0.members == M.Exec(c.members, init, past + AsMember(c, call)).members
  {
    hide M.Exec, M.Ticked, M.AnnouncedDrain, W.Consumed, W.Evaluated;
    var more := AsMember(c, call);
    if more == [] {
      assert past + more == past;
    } else if |more| == 1 {
      assert more == [more[0]];
      MemberStep(c.members, init, past, more[0]);
    } else {
      assert past + more == (past + [more[0]]) + [more[1]];
      MemberStep(c.members, init, past, more[0]);
      MemberStep(c.members, init, past + [more[0]], more[1]);
    }
  }

  lemma {:induction false} NeverGeneric(c: Setup, calls: seq<Call>)
    ensures M.NoGeneric(MemberCalls(c, calls))
  {
    if calls != [] {
      NeverGeneric(c, calls[..|calls| - 1]);
    }
  }

  /** The members of every monitor run are those of the run of membership calls it makes. */
  lemma {:induction false} MonitorRunsMembership(c: Setup, start: real, calls: seq<Call>)
    ensures Exec(c, start, calls).mon.members
            == M.Exec(c.members, M.Fresh(0, start), MemberCalls(c, calls)).members
    ensures M.NoGeneric(MemberCalls(c, calls))
  {
    NeverGeneric(c, calls);
    if calls != [] {
      hide Do, Exec, M.Exec, AsMember, M.NoGeneric;
      var before := calls[..|calls| - 1];
      MonitorRunsMembership(c, start, before);
      ExecStep(c, start, calls);
      MembersFollow(c, Exec(c, start, before).mon, calls[|calls| - 1], M.Fresh(0, start), MemberCalls(c, before));
    }
  }

  // ----- and its watchdog is a run of the watchdog -----

  // An evaluation, and the report that nothing can be rebuilt when it asks for that in vain.
  function Looks(c: Setup, s: Mon, dog: W.Dog, now: real): seq<W.Call> {
    var health := W.Evaluated(c.dog, dog, now).1;
    [W.Call(W.Evaluate, now)]
    + if health.BeingRebuilt? && !s.rebuilding && !c.canReform
      then [W.Call(W.GiveUp(NoTeardown), now), W.Call(W.Evaluate, now)] else []
  }

  function Hears(c: Setup, s: Mon, events: seq<M.Event>, now: real): seq<W.Call> {
    [W.Call(W.Consume(events), now)] + Looks(c, s, W.Consumed(s.dog, events, now), now)
  }

  function AsDog(c: Setup, s: Mon, call: Call): seq<W.Call> {
    match call.op
    case CloseRound => Hears(c, s, M.Ticked(c.members, s.members, call.now).events, call.now)
    case PeerDrains(id) => Hears(c, s, M.AnnouncedDrain(s.members, id, call.now).events, call.now)
    case Refresh => Looks(c, s, s.dog, call.now)
    case Begin => [W.Call(W.Op.Begin, call.now), W.Call(W.Evaluate, call.now)]
    case Token => [W.Call(W.Progress, call.now)]
    case Report(failure) =>
      if !s.rebuilding then []
      else [W.Call(if failure.Some? then W.Fail(failure.value) else W.Op.Succeed, call.now),
            W.Call(W.Evaluate, call.now)]
    case _ => []
  }

  function DogCalls(c: Setup, start: real, calls: seq<Call>): seq<W.Call> {
    if calls == [] then []
    else
      var before := calls[..|calls| - 1];
      DogCalls(c, start, before) + AsDog(c, Exec(c, start, before).mon, calls[|calls| - 1])
  }

  function DoAll(cfg: W.Config, dog: W.Dog, calls: seq<W.Call>): W.Dog
    decreases |calls|
  {
    if calls == [] then dog else DoAll(cfg, W.Do(cfg, dog, calls[0]), calls[1..])
  }

  lemma {:induction false} DogSteps(cfg: W.Config, start: real, past: seq<W.Call>, more: seq<W.Call>)
    ensures W.Exec(cfg, start, past + more) == DoAll(cfg, W.Exec(cfg, start, past), more)
    decreases |more|
  {
    hide W.Do;
    if more == [] {
      assert past + more == past;
    } else {
      var first := past + [more[0]];
      assert first[..|first| - 1] == past && past + more == first + more[1..];
      DogSteps(cfg, start, first, more[1..]);
    }
  }

  lemma {:induction false} DoOne(cfg: W.Config, dog: W.Dog, a: W.Call, rest: seq<W.Call>)
    ensures DoAll(cfg, dog, [a] + rest) == DoAll(cfg, W.Do(cfg, dog, a), rest)
    ensures DoAll(cfg, dog, [a]) == W.Do(cfg, dog, a)
  {
    assert ([a] + rest)[1..] == rest && [a][1..] == [];
  }

  lemma DoTwo(cfg: W.Config, dog: W.Dog, a: W.Call, b: W.Call)
    ensures DoAll(cfg, dog, [a, b]) == W.Do(cfg, W.Do(cfg, dog, a), b)
  {
    assert [a] + [b] == [a, b];
    DoOne(cfg, dog, a, [b]);
    DoOne(cfg, W.Do(cfg, dog, a), b, []);
  }

  lemma DoNone(cfg: W.Config, dog: W.Dog)
    ensures DoAll(cfg, dog, []) == dog
  {
  }

  lemma LooksAre(c: Setup, s: Mon, now: real)
    ensures DoAll(c.dog, s.dog, Looks(c, s, s.dog, now)) == Refreshed(c, s, now).dog
  {
    hide W.Evaluated, W.Unavailable, DoAll;
    var look, giveUp := W.Call(W.Evaluate, now), W.Call(W.GiveUp(NoTeardown), now);
    var dog := W.Evaluated(c.dog, s.dog, now).0;
    DoOne(c.dog, s.dog, look, [giveUp, look]);
    DoOne(c.dog, dog, giveUp, [look]);
    DoOne(c.dog, W.Unavailable(dog, NoTeardown), look, []);
    assert [look] + [giveUp, look] == [look, giveUp, look] && [giveUp] + [look] == [giveUp, look];
    assert [look] + [] == [look];
  }

  lemma HearsAre(c: Setup, s: Mon, e: M.Effect, now: real)
    ensures DoAll(c.dog, s.dog, Hears(c, s, e.events, now)) == Told(c, s, e, now).dog
  {
    hide Refreshed, W.Consumed, Looks, DoAll;
    var heard := s.(members := e.after, dog := W.Consumed(s.dog, e.events, now));
    LooksAre(c, heard, now);
    SameLooks(c, s, heard, now);
    DoOne(c.dog, s.dog, W.Call(W.Consume(e.events), now), Looks(c, s, heard.dog, now));
  }

  lemma SameLooks(c: Setup, s: Mon, t: Mon, now: real)
    requires s.rebuilding == t.rebuilding
    ensures Looks(c, s, t.dog, now) == Looks(c, t, t.dog, now)
  {
  }

  lemma DogFollows(c: Setup, s: Mon, call: Call)
    ensures Do(c, s, call).0.dog == DoAll(c.dog, s.dog, AsDog(c, s, call))
  {
    hide M.Ticked, M.AnnouncedDrain, M.Appeared, Told, Hears, Looks, Refreshed, W.Evaluated, W.Begun, Notes;
    hide DoAll;
    match call.op
    case CloseRound => HearsAre(c, s, M.Ticked(c.members, s.members, call.now), call.now);
    case PeerDrains(id) => HearsAre(c, s, M.AnnouncedDrain(s.members, id, call.now), call.now);
    case Refresh => LooksAre(c, s, call.now);
    case Begin => DoTwo(c.dog, s.dog, W.Call(W.Op.Begin, call.now), W.Call(W.Evaluate, call.now));
    case Token => DoOne(c.dog, s.dog, W.Call(W.Progress, call.now), []);
    case Report(failure) =>
      DoNone(c.dog, s.dog);
      DoTwo(c.dog, s.dog, W.Call(if failure.Some? then W.Fail(failure.value) else W.Op.Succeed, call.now),
            W.Call(W.Evaluate, call.now));
    case _ => DoNone(c.dog, s.dog);
  }

  /**
   * The watchdog of every monitor run is that of the run of watchdog calls it makes, so all that
   * holds of the watchdog's runs holds of the monitor's.
   */
  lemma {:induction false} MonitorRunsWatchdog(c: Setup, start: real, calls: seq<Call>)
    ensures Exec(c, start, calls).mon.dog == W.Exec(c.dog, start, DogCalls(c, start, calls))
  {
    hide Do, Exec, W.Exec, AsDog, DoAll;
    if calls == [] {
      NoDogRun(c, start);
    } else {
      var before := calls[..|calls| - 1];
      MonitorRunsWatchdog(c, start, before);
      ExecStep(c, start, calls);
      DogFollows(c, Exec(c, start, before).mon, calls[|calls| - 1]);
      DogSteps(c.dog, start, DogCalls(c, start, before), AsDog(c, Exec(c, start, before).mon, calls[|calls| - 1]));
    }
  }

  lemma NoDogRun(c: Setup, start: real)
    ensures Exec(c, start, []).mon.dog == W.Exec(c.dog, start, [])
  {
  }

  // ----- detection -----

  function After(c: Setup, s: Mon, calls: seq<Call>): Mon {
    if calls == [] then s
    else Do(c, After(c, s, calls[..|calls| - 1]), calls[|calls| - 1]).0
  }

  predicate Evaluates(op: Op) {
    op.CloseRound? || op.PeerDrains? || op.Refresh?
  }

  predicate Silent(op: Op) {
    !op.Token? && !op.Begin?
  }

  // When the pending loss may be confirmed: `grace` after it and after the last progress.
  function Due(c: Setup, dog: W.Dog): real
    requires dog.pending.Some?
  {
    W.Later(dog.progressAt, dog.pending.value.recordedAt) + c.dog.grace
  }

  // A pending loss is left alone by silent calls that evaluate too early to confirm it.
  lemma {:induction false} PendingWaits(c: Setup, s: Mon, quiet: seq<Call>)
    requires s.dog.phase.Running? && s.dog.pending.Some? && !s.rebuilding
    requires forall k :: 0 <= k < |quiet| ==> Silent(quiet[k].op)
    requires forall k :: 0 <= k < |quiet| && Evaluates(quiet[k].op) ==> quiet[k].now < Due(c, s.dog)
    ensures After(c, s, quiet).dog == s.dog && !After(c, s, quiet).rebuilding
  {
    if quiet != [] {
      PendingWaits(c, s, quiet[..|quiet| - 1]);
      DoWaits(c, After(c, s, quiet[..|quiet| - 1]), quiet[|quiet| - 1]);
    }
  }

  lemma DoWaits(c: Setup, s: Mon, call: Call)
    requires s.dog.phase.Running? && s.dog.pending.Some? && !s.rebuilding && Silent(call.op)
    requires Evaluates(call.op) ==> call.now < Due(c, s.dog)
    ensures Do(c, s, call).0.dog == s.dog && !Do(c, s, call).0.rebuilding
  {
    hide M.Ticked, M.AnnouncedDrain, W.Consumed;
    match call.op
    case CloseRound =>
      W.ConsumedOnlyPends(s.dog, M.Ticked(c.members, s.members, call.now).events, call.now);
    case PeerDrains(id) =>
      W.ConsumedOnlyPends(s.dog, M.AnnouncedDrain(s.members, id, call.now).events, call.now);
    case _ =>
  }

  // An evaluation after the grace period starts the rebuild, or ends the ring if it cannot.
  lemma GraceEnds(c: Setup, s: Mon, call: Call)
    requires s.dog.phase.Running? && s.dog.pending.Some? && !s.rebuilding && Evaluates(call.op)
    requires call.now >= Due(c, s.dog)
    ensures
      var s' := Do(c, s, call).0;
      && s'.health == Confirmed(c, s.dog.pending.value.reason, call.now)
      && !s'.dog.phase.Running? && s'.rebuilding == c.canReform
  {
    hide M.Ticked, M.AnnouncedDrain, W.Consumed;
    match call.op
    case CloseRound =>
      W.ConsumedOnlyPends(s.dog, M.Ticked(c.members, s.members, call.now).events, call.now);
    case PeerDrains(id) =>
      W.ConsumedOnlyPends(s.dog, M.AnnouncedDrain(s.members, id, call.now).events, call.now);
    case _ =>
  }

  lemma {:induction false} LossIsRecorded(dog: W.Dog, events: seq<M.Event>, k: nat, now: real)
    requires dog.phase.Running? && dog.pending.None? && k < |events| && W.LossOf(events[k]).Some?
    ensures
      var pending := W.Consumed(dog, events, now).pending;
      pending.Some? && pending.value.recordedAt == now
      && exists j :: 0 <= j <= k && Some(pending.value.reason) == W.LossOf(events[j])
  {
    var front := events[..|events| - 1];
    W.ConsumedOnlyPends(dog, front, now);
    if k < |front| {
      LossIsRecorded(dog, front, k, now);
      var j :| 0 <= j <= k && Some(W.Consumed(dog, front, now).pending.value.reason) == W.LossOf(front[j]);
      assert events[j] == front[j];
    } else {
      FirstOfConsumed(dog, front, now);
    }
  }

  lemma {:induction false} FirstOfConsumed(dog: W.Dog, events: seq<M.Event>, now: real)
    requires dog.phase.Running? && dog.pending.None?
    ensures
      var pending := W.Consumed(dog, events, now).pending;
      pending.Some? ==> pending.value.recordedAt == now
                        && exists j :: 0 <= j < |events| && Some(pending.value.reason) == W.LossOf(events[j])
  {
    if events != [] {
      var front := events[..|events| - 1];
      W.ConsumedOnlyPends(dog, front, now);
      FirstOfConsumed(dog, front, now);
      if W.Consumed(dog, front, now).pending.Some? {
        var j :| 0 <= j < |front| && Some(W.Consumed(dog, front, now).pending.value.reason) == W.LossOf(front[j]);
        assert events[j] == front[j];
      } else {
        assert events[|events| - 1] == events[|events| - 1];
      }
    }
  }

  function Closed(c: Setup, s: Mon, now: real): Mon {
    Do(c, s, Call(CloseRound, now)).0
  }

  // What an evaluation that confirms a loss reports.
  function Confirmed(c: Setup, why: W.Loss, now: real): W.Health {
    if c.canReform then W.BeingRebuilt(why, now) else W.Lost(why, W.RebuildFailed(NoTeardown))
  }

  // A loss a closing round leaves pending is either still waiting or confirmed by that very round.
  lemma CloseSettles(c: Setup, s: Mon, now: real)
    requires s.dog.phase.Running? && !s.rebuilding
    requires W.Consumed(s.dog, M.Ticked(c.members, s.members, now).events, now).pending.Some?
    ensures
      var pending := W.Consumed(s.dog, M.Ticked(c.members, s.members, now).events, now).pending;
      var closed := Closed(c, s, now);
      && closed.dog.pending == pending
      && (closed.dog.phase.Running? ==> closed.dog == s.dog.(pending := pending) && !closed.rebuilding)
      && (!closed.dog.phase.Running? ==> closed.health == Confirmed(c, pending.value.reason, now))
      && (closed.dog.phase.Running? <==> now < Due(c, s.dog.(pending := pending)))
  {
    hide M.Ticked, W.Consumed;
    W.ConsumedOnlyPends(s.dog, M.Ticked(c.members, s.members, now).events, now);
  }

  // From the round that records a loss on: what silence makes of it.
  lemma {:induction false} SilenceConfirms(c: Setup, s: Mon, now: real, quiet: seq<Call>, last: Call)
    requires s.dog.phase.Running? && !s.rebuilding
    requires W.Consumed(s.dog, M.Ticked(c.members, s.members, now).events, now).pending.Some?
    requires ConfirmsAtLast(c, Closed(c, s, now).dog, quiet, last)
    ensures ConfirmedInTime(c, Closed(c, s, now), now, quiet, last)
  {
    hide M.Ticked, W.Consumed, Do, After;
    CloseSettles(c, s, now);
    var closed := Closed(c, s, now);
    if closed.dog.phase.Running? {
      PendingWaits(c, closed, quiet);
      GraceEnds(c, After(c, closed, quiet), last);
    }
  }

  // No token and no new generation; the last call is the first evaluation when the loss is due.
  ghost predicate ConfirmsAtLast(c: Setup, dog: W.Dog, quiet: seq<Call>, last: Call) {
    dog.pending.Some? ==>
      && (forall k :: 0 <= k < |quiet| ==> Silent(quiet[k].op))
      && (forall k :: 0 <= k < |quiet| && Evaluates(quiet[k].op) ==> quiet[k].now < Due(c, dog))
      && Evaluates(last.op) && last.now >= Due(c, dog)
  }

  // The pending loss was confirmed by the round itself, or is by the last call.
  ghost predicate ConfirmedInTime(c: Setup, closed: Mon, now: real, quiet: seq<Call>, last: Call) {
    && closed.dog.pending.Some?
    && var why := closed.dog.pending.value.reason;
       if closed.dog.phase.Running? then Do(c, After(c, closed, quiet), last).0.health == Confirmed(c, why, last.now)
       else closed.health == Confirmed(c, why, now)
  }

  /** Once a peer's probes have failed `threshold` times in a row the same round evicts it. */
  lemma {:induction false} SilentPeerIsEvicted(c: Setup, start: real, calls: seq<Call>, now: real, id: NodeID)
    requires id in M.Planning(Exec(c, start, calls).mon.members.storage)
    requires R.TrailingFailures(MemberCalls(c, calls), id) >= c.members.threshold
    ensures M.Evicted(id, M.HeartbeatLapsed)
            in M.Ticked(c.members, Exec(c, start, calls).mon.members, now).events
  {
    hide Exec, M.Exec, M.Ticked;
    MonitorRunsMembership(c, start, calls);
    R.EvictionIsExact(c.members, 0, start, MemberCalls(c, calls), now, id);
  }

  /**
   * A peer that stops answering is detected: when the round that evicts it closes, the watchdog
   * holds a loss, the one it held before or one of this round; and it is confirmed, which starts
   * a rebuild (or reports the ring lost, where it cannot be rebuilt), by that round if it is due
   * already, and otherwise, if no token and no new generation follows, by the first evaluation
   * when it is due, whatever else happens in between.
   */
  lemma {:induction false} SilentPeerIsDetected(
    c: Setup, start: real, calls: seq<Call>, now: real, id: NodeID, quiet: seq<Call>, last: Call)
    requires c.dog.maxAttempts >= 1
    requires
      var w := Exec(c, start, calls);
      && w.mon.dog.phase.Running?
      && id in M.Planning(w.mon.members.storage)
      && R.TrailingFailures(MemberCalls(c, calls), id) >= c.members.threshold
    requires ConfirmsAtLast(c, Closed(c, Exec(c, start, calls).mon, now).dog, quiet, last)
    ensures
      var s := Exec(c, start, calls).mon;
      var closed := Closed(c, s, now);
      && ConfirmedInTime(c, closed, now, quiet, last)
      && (s.dog.pending.Some? ==> closed.dog.pending == s.dog.pending)
      && (s.dog.pending.None? ==>
            && closed.dog.pending.value.recordedAt == now
            && exists e :: e in M.Ticked(c.members, s.members, now).events
                           && W.LossOf(e) == Some(closed.dog.pending.value.reason))
  {
    hide Exec, Do, After, M.Exec, M.Ticked, W.Consumed;
    var s := Exec(c, start, calls).mon;
    var events := M.Ticked(c.members, s.members, now).events;
    SilentPeerIsEvicted(c, start, calls, now, id);
    var k :| 0 <= k < |events| && events[k] == M.Evicted(id, M.HeartbeatLapsed);
    W.ConsumedOnlyPends(s.dog, events, now);
    if s.dog.pending.None? {
      LossIsRecorded(s.dog, events, k, now);
    }
    RebuildsAreOrderly(c, start, calls);
    CloseSettles(c, s, now);
    SilenceConfirms(c, s, now, quiet, last);
  }

  // ----- the monitor's own node -----

  // The call is neither about this node's heartbeat nor its drain.
  predicate LeavesAlone(op: Op, id: NodeID) {
    && (op.Ping? ==> op.probe.id != id && (op.probe.profile.Some? ==> op.probe.profile.value.nodeID != id))
    && (op.PeerDrains? ==> op.id != id)
  }

  ghost predicate Holding(c: Setup, s: Mon, id: NodeID, l: Lease) {
    && id in s.members.storage
    && s.members.storage[id].state.Plans() && s.members.storage[id].lease == Some(l)
    && s.members.storage[id].missed < c.members.threshold
  }

  lemma EpochsDoNotFall(c: Setup, s: Mon, call: Call)
    ensures Do(c, s, call).0.members.epoch >= s.members.epoch
  {
    hide M.Ticked, W.Consumed, W.Evaluated, W.Begun;
    if call.op.CloseRound? {
      R.TickKeepsKeys(c.members, s.members, call.now);
    }
  }

  lemma DoKeepsHolding(c: Setup, s: Mon, call: Call, id: NodeID, l: Lease)
    requires c.local.Some? && c.local.value.nodeID == id && c.members.threshold >= 1
    requires Holding(c, s, id, l) && LeavesAlone(call.op, id)
    requires call.op.CloseRound? ==> call.now < l.expiresAt
    requires Do(c, s, call).0.members.epoch == s.members.epoch
    ensures Holding(c, Do(c, s, call).0, id, l)
  {
    hide M.Ticked, W.Consumed, W.Evaluated, W.Begun;
    if call.op.CloseRound? {
      R.SweptRecord(c.members, s.members, call.now, id);
    }
  }

  /**
   * No probe round renews the lease of the monitor's own node: it is not among the peers that are
   * pinged, and publishing its profile again only refreshes it. So until the epoch changes it
   * keeps the lease it was given, and a round evicts it exactly when that lease has run out.
   */
  lemma {:induction false} OwnLeaseIsNeverRenewed(c: Setup, s: Mon, calls: seq<Call>, now: real, id: NodeID, l: Lease)
    requires c.local.Some? && c.local.value.nodeID == id && c.members.threshold >= 1
    requires Holding(c, s, id, l)
    requires forall k :: 0 <= k < |calls| ==> LeavesAlone(calls[k].op, id)
    requires forall k :: 0 <= k < |calls| && calls[k].op.CloseRound? ==> calls[k].now < l.expiresAt
    requires After(c, s, calls).members.epoch == s.members.epoch
    ensures Holding(c, After(c, s, calls), id, l)
    ensures M.Evicted(id, M.LeaseLapsed) in M.Ticked(c.members, After(c, s, calls).members, now).events
            <==> now >= l.expiresAt
  {
    hide Do, M.Ticked, Holding;
    if calls != [] {
      var front := calls[..|calls| - 1];
      var before := After(c, s, front);
      EpochsDoNotFall(c, before, calls[|calls| - 1]);
      EpochsRise(c, s, front);
      OwnLeaseIsNeverRenewed(c, s, front, now, id, l);
      DoKeepsHolding(c, before, calls[|calls| - 1], id, l);
    }
    HoldingEvicted(c, After(c, s, calls), now, id, l);
  }

  lemma HoldingEvicted(c: Setup, s: Mon, now: real, id: NodeID, l: Lease)
    requires Holding(c, s, id, l)
    ensures M.Evicted(id, M.LeaseLapsed) in M.Ticked(c.members, s.members, now).events <==> now >= l.expiresAt
  {
    hide M.Ticked;
    R.TickEvictsExactly(c.members, s.members, now, id, M.LeaseLapsed);
  }

  lemma {:induction false} EpochsRise(c: Setup, s: Mon, calls: seq<Call>)
    ensures After(c, s, calls).members.epoch >= s.members.epoch
  {
    if calls != [] {
      hide Do;
      EpochsRise(c, s, calls[..|calls| - 1]);
      EpochsDoNotFall(c, After(c, s, calls[..|calls| - 1]), calls[|calls| - 1]);
    }
  }

  // When a tick evicts only this node, every loss it reports is this node's.
  lemma OnlyOneIsLost(cfg: M.Config, s: M.Members, now: real, id: NodeID)
    requires id in s.storage && M.Verdict(cfg, s.storage[id], now) == Some(M.LeaseLapsed)
    requires forall x :: x in s.storage && x != id ==> M.Verdict(cfg, s.storage[x], now).None?
    ensures
      var events := M.Ticked(cfg, s, now).events;
      && M.Evicted(id, M.LeaseLapsed) in events
      && forall k :: 0 <= k < |events| && W.LossOf(events[k]).Some? ==> events[k] == M.Evicted(id, M.LeaseLapsed)
  {
    R.TickEvictsExactly(cfg, s, now, id, M.LeaseLapsed);
    LossesAreVerdicts(cfg, s, now);
    hide M.Ticked, M.Verdict;
  }

  // Every loss a tick reports is the eviction of a member with that verdict.
  lemma LossesAreVerdicts(cfg: M.Config, s: M.Members, now: real)
    ensures
      var events := M.Ticked(cfg, s, now).events;
      forall k :: 0 <= k < |events| && W.LossOf(events[k]).Some? ==>
        && events[k].Evicted? && events[k].id in s.storage
        && M.Verdict(cfg, s.storage[events[k].id], now) == Some(events[k].reason)
  {
    hide M.Ticked, M.Evictions, M.Verdict;
    var events := M.Ticked(cfg, s, now).events;
    R.TickNews(cfg, s, now);
    R.EvictionsAreQuiet(cfg, s, now);
    forall k | 0 <= k < |events| && W.LossOf(events[k]).Some?
      ensures events[k].Evicted? && events[k].id in s.storage
      ensures M.Verdict(cfg, s.storage[events[k].id], now) == Some(events[k].reason)
    {
      R.TickEvictsExactly(cfg, s, now, events[k].id, events[k].reason);
    }
  }

  // Then the watchdog's loss is this node's.
  lemma {:induction false} OwnLossIsRecorded(c: Setup, s: Mon, now: real, id: NodeID)
    requires s.dog.phase.Running? && s.dog.pending.None?
    requires id in s.members.storage && M.Verdict(c.members, s.members.storage[id], now) == Some(M.LeaseLapsed)
    requires forall x :: x in s.members.storage && x != id ==> M.Verdict(c.members, s.members.storage[x], now).None?
    ensures W.Consumed(s.dog, M.Ticked(c.members, s.members, now).events, now).pending
            == Some(W.Pending(W.Unreachable(id), now))
  {
    hide M.Ticked, W.Consumed, M.Verdict;
    OnlyOneIsLost(c.members, s.members, now, id);
    var events := M.Ticked(c.members, s.members, now).events;
    var k :| 0 <= k < |events| && events[k] == M.Evicted(id, M.LeaseLapsed);
    LossIsRecorded(s.dog, events, k, now);
  }

  /**
   * Hence a monitor whose peers are all in good standing still blames a node: its own. The first
   * round after its lease has run out records it as unreachable, and with no token and no new
   * generation the loss is confirmed when it is due.
   */
  lemma {:induction false} HealthyRingBlamesItself(
    c: Setup, s: Mon, calls: seq<Call>, now: real, id: NodeID, l: Lease, quiet: seq<Call>, last: Call)
    requires c.local.Some? && c.local.value.nodeID == id && c.members.threshold >= 1
    requires Holding(c, s, id, l)
    requires forall k :: 0 <= k < |calls| ==> LeavesAlone(calls[k].op, id)
    requires forall k :: 0 <= k < |calls| && calls[k].op.CloseRound? ==> calls[k].now < l.expiresAt
    requires After(c, s, calls).members.epoch == s.members.epoch
    requires
      var members := After(c, s, calls).members;
      forall x :: x in members.storage && x != id ==> M.Verdict(c.members, members.storage[x], now).None?
    requires
      var dog := After(c, s, calls).dog;
      dog.phase.Running? && dog.pending.None?
    requires !After(c, s, calls).rebuilding && now >= l.expiresAt
    requires ConfirmsAtLast(c, Closed(c, After(c, s, calls), now).dog, quiet, last)
    ensures
      var closed := Closed(c, After(c, s, calls), now);
      && closed.dog.pending == Some(W.Pending(W.Unreachable(id), now))
      && ConfirmedInTime(c, closed, now, quiet, last)
  {
    OwnLeaseIsNeverRenewed(c, s, calls, now, id, l);
    hide Do, After, M.Ticked, W.Consumed;
    OwnLossIsRecorded(c, After(c, s, calls), now, id);
    CloseSettles(c, After(c, s, calls), now);
    SilenceConfirms(c, After(c, s, calls), now, quiet, last);
  }
}
