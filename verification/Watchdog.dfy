/**
 * Decides when a generation has become unrecoverable. Silence alone never does it; silence after
 * a known loss starts a rebuild, and rebuilding is bounded in time and in attempts.
 */
module Watchdog {
  import opened Base
  import opened Capability
  import M = Membership

  datatype Loss = Departed(node: NodeID) | Unreachable(node: NodeID)

  datatype Cause = RebuildFailed(detail: string) | TimedOut | Exhausted(attempts: int, lastError: string)

  datatype Health =
    | Healthy
    | Stalled(since: real)
    | BeingRebuilt(why: Loss, since: real)
    | Lost(why: Loss, cause: Cause)

  datatype Config = Config(stall: real, grace: real, timeout: real, maxAttempts: int)

  datatype Phase =
    | Running
    | Reforming(reason: Loss, since: real)
    | Terminal(reason: Loss, cause: Cause)

  datatype Pending = Pending(reason: Loss, recordedAt: real)

  datatype Dog = Dog(progressAt: real, pending: Option<Pending>, phase: Phase, attempts: int)

  function Started(now: real): Dog {
    Dog(now, None, Running, 0)
  }

  function Progressed(s: Dog, now: real): Dog {
    if s.phase.Running? then s.(progressAt := now) else s
  }

  function LossRecorded(s: Dog, why: Loss, now: real): Dog {
    if s.phase.Running? && s.pending.None? then s.(pending := Some(Pending(why, now))) else s
  }

  function Rebuilt(s: Dog, now: real): Dog {
    if s.phase.Reforming? then Dog(now, None, Running, 0) else s
  }

  function Unavailable(s: Dog, detail: string): Dog {
    if s.phase.Reforming? then s.(phase := Terminal(s.phase.reason, RebuildFailed(detail))) else s
  }

  function RebuildMissed(cfg: Config, s: Dog, detail: string, now: real): Dog {
    if !s.phase.Reforming? then s
    else
      var n := s.attempts + 1;
      var phase := if n >= cfg.maxAttempts then Terminal(s.phase.reason, Exhausted(n, detail))
                   else Reforming(s.phase.reason, now);
      s.(attempts := n, phase := phase)
  }

  // The loss an event of the membership service reports, if any.
  function LossOf(e: M.Event): Option<Loss> {
    match e
    case Leaving(id) => Some(Departed(id))
    case Evicted(id, why) => Some(if why == M.Drained then Departed(id) else Unreachable(id))
    case _ => None
  }

  function Consumed(s: Dog, events: seq<M.Event>, now: real): Dog {
    if events == [] then s
    else
      var before := Consumed(s, events[..|events| - 1], now);
      var loss := LossOf(events[|events| - 1]);
      if loss.Some? then LossRecorded(before, loss.value, now) else before
  }

  function Later(a: real, b: real): real {
    if a > b then a else b
  }

  function Evaluated(cfg: Config, s: Dog, now: real): (Dog, Health) {
    match s.phase
    case Terminal(reason, cause) => (s, Lost(reason, cause))
    case Reforming(reason, since) =>
      if now - since >= cfg.timeout then (s.(phase := Terminal(reason, TimedOut)), Lost(reason, TimedOut))
      else (s, BeingRebuilt(reason, since))
    case Running =>
      if s.pending.Some? then
        var from := Later(s.progressAt, s.pending.value.recordedAt);
        if now - from >= cfg.grace
        then (s.(phase := Reforming(s.pending.value.reason, now)), BeingRebuilt(s.pending.value.reason, now))
        else (s, Stalled(s.progressAt))
      else if now - s.progressAt >= cfg.stall then (s, Stalled(s.progressAt))
      else (s, Healthy)
  }

  function Begun(cfg: Config, s: Dog, now: real): (Dog, bool) {
    var s' := Evaluated(cfg, s, now).0;
    if s'.phase.Running? then (s'.(progressAt := now, pending := None), true) else (s', false)
  }

  class RingWatchdog {
    const config: Config
    var lastProgressAt: real
    var pendingLoss: Option<Pending>
    var phase: Phase
    var reformationAttempts: int

    ghost function View(): Dog
      reads this
    {
      Dog(lastProgressAt, pendingLoss, phase, reformationAttempts)
    }

    constructor (config: Config, startedAt: real)
      ensures View() == Started(startedAt) && this.config == config
    {
      this.config := config;
      lastProgressAt, pendingLoss, phase, reformationAttempts := startedAt, None, Running, 0;
    }

    method RecordProgress(now: real)
      modifies this
      ensures View() == Progressed(old(View()), now)
    {
      if phase.Running? {
        lastProgressAt := now;
      }
    }

    method RecordLoss(reason: Loss, now: real)
      modifies this
      ensures View() == LossRecorded(old(View()), reason, now)
    {
      // Keep the first diagnosis.
      if phase.Running? && pendingLoss.None? {
        pendingLoss := Some(Pending(reason, now));
      }
    }

    method ReformationSucceeded(now: real)
      modifies this
      ensures View() == Rebuilt(old(View()), now)
    {
      if phase.Reforming? {
        phase := Running;
        pendingLoss := None;
        reformationAttempts := 0;
        lastProgressAt := now;
      }
    }

    method ReformationUnavailable(detail: string)
      modifies this
      ensures View() == Unavailable(old(View()), detail)
    {
      if phase.Reforming? {
        phase := Terminal(phase.reason, RebuildFailed(detail));
      }
    }

    method ReformationFailed(detail: string, now: real)
      modifies this
      ensures View() == RebuildMissed(config, old(View()), detail, now)
    {
      if phase.Reforming? {
        reformationAttempts := reformationAttempts + 1;
        if reformationAttempts >= config.maxAttempts {
          phase := Terminal(phase.reason, Exhausted(reformationAttempts, detail));
        } else {
          phase := Reforming(phase.reason, now);
        }
      }
    }

    method Consume(events: seq<M.Event>, now: real)
      modifies this
      ensures View() == Consumed(old(View()), events, now)
    {
      assert events[..0] == [];
      for i := 0 to |events|
        invariant View() == Consumed(old(View()), events[..i], now)
      {
        assert events[..i + 1][..i] == events[..i];
        match events[i] {
          case Leaving(id) => RecordLoss(Departed(id), now);
          case Evicted(id, why) =>
            if why == M.Drained {
              RecordLoss(Departed(id), now);
            } else {
              RecordLoss(Unreachable(id), now);
            }
          case _ =>
        }
      }
      assert events[..|events|] == events;
    }

    method Evaluate(now: real) returns (health: Health)
      modifies this
      ensures (View(), health) == Evaluated(config, old(View()), now)
    {
      match phase {
        case Terminal(reason, cause) =>
          return Lost(reason, cause);
        case Reforming(reason, since) =>
          if now - since >= config.timeout {
            phase := Terminal(reason, TimedOut);
            return Lost(reason, TimedOut);
          }
          return BeingRebuilt(reason, since);
        case Running =>
      }
      if pendingLoss.Some? {
        var pending := pendingLoss.value;
        var deadlineFrom := Later(lastProgressAt, pending.recordedAt);
        if now - deadlineFrom >= config.grace {
          phase := Reforming(pending.reason, now);
          return BeingRebuilt(pending.reason, now);
        }
        return Stalled(lastProgressAt);
      }
      if now - lastProgressAt >= config.stall {
        return Stalled(lastProgressAt);
      }
      return Healthy;
    }

    method BeginGeneration(now: real) returns (admitted: bool)
      modifies this
      ensures (View(), admitted) == Begun(config, old(View()), now)
    {
      var _ := Evaluate(now);
      if phase.Running? {
        lastProgressAt := now;
        pendingLoss := None;
        return true;
      }
      return false;
    }
  }

  // ----- runs -----

  datatype Op =
    | Progress
    | Consume(events: seq<M.Event>)
    | Succeed
    | Fail(detail: string)
    | GiveUp(detail: string)
    | Evaluate
    | Begin

  datatype Call = Call(op: Op, now: real)

  function Do(cfg: Config, s: Dog, c: Call): Dog {
    match c.op
    case Progress => Progressed(s, c.now)
    case Consume(events) => Consumed(s, events, c.now)
    case Succeed => Rebuilt(s, c.now)
    case Fail(detail) => RebuildMissed(cfg, s, detail, c.now)
    case GiveUp(detail) => Unavailable(s, detail)
    case Evaluate => Evaluated(cfg, s, c.now).0
    case Begin => Begun(cfg, s, c.now).0
  }

  function Exec(cfg: Config, start: real, calls: seq<Call>): Dog {
    if calls == [] then Started(start)
    else Do(cfg, Exec(cfg, start, calls[..|calls| - 1]), calls[|calls| - 1])
  }

  lemma {:induction false} ConsumedOnlyPends(s: Dog, events: seq<M.Event>, now: real)
    ensures
      var s' := Consumed(s, events, now);
      && s' == s.(pending := s'.pending)
      && (!s.phase.Running? || s.pending.Some? ==> s' == s)
  {
    if events != [] {
      ConsumedOnlyPends(s, events[..|events| - 1], now);
    }
  }

  /**
   * In every run: while running no attempt is counted; while rebuilding, the attempts taken are
   * below the limit (when the limit allows any), and the pending loss is the one being repaired.
   */
  lemma {:induction false} AttemptsAreBounded(cfg: Config, start: real, calls: seq<Call>)
    requires cfg.maxAttempts >= 1
    ensures
      var s := Exec(cfg, start, calls);
      && (s.phase.Running? ==> s.attempts == 0)
      && (s.phase.Reforming? ==> 0 <= s.attempts < cfg.maxAttempts)
      && (s.phase.Reforming? ==> s.pending.Some? && s.pending.value.reason == s.phase.reason)
      && (s.phase.Terminal? && s.phase.cause.Exhausted? ==>
            s.phase.cause.attempts == s.attempts == cfg.maxAttempts)
  {
    if calls != [] {
      var before, last := calls[..|calls| - 1], calls[|calls| - 1];
      AttemptsAreBounded(cfg, start, before);
      if last.op.Consume? {
        ConsumedOnlyPends(Exec(cfg, start, before), last.op.events, last.now);
      }
    }
  }

  /** Once the ring is lost nothing brings it back, and the diagnosis never changes. */
  lemma {:induction false} TerminalIsFinal(cfg: Config, start: real, calls: seq<Call>, n: nat)
    requires n <= |calls| && Exec(cfg, start, calls[..n]).phase.Terminal?
    ensures Exec(cfg, start, calls) == Exec(cfg, start, calls[..n])
    decreases |calls| - n
  {
    if n == |calls| {
      assert calls[..n] == calls;
    } else {
      assert calls[..n + 1][..n] == calls[..n];
      if calls[n].op.Consume? {
        ConsumedOnlyPends(Exec(cfg, start, calls[..n]), calls[n].op.events, calls[n].now);
      }
      TerminalIsFinal(cfg, start, calls, n + 1);
    }
  }

  // ----- how long a rebuild can last -----

  function Now(start: real, calls: seq<Call>): real {
    if calls == [] then start else calls[|calls| - 1].now
  }

  predicate Evaluates(op: Op) {
    op.Evaluate? || op.Begin?
  }

  // The last time the health was evaluated.
  function LookedAt(start: real, calls: seq<Call>): real {
    if calls == [] then start
    else if Evaluates(calls[|calls| - 1].op) then calls[|calls| - 1].now
    else LookedAt(start, calls[..|calls| - 1])
  }

  // Time does not go back, and no call comes more than `d` after the last evaluation.
  predicate Watched(start: real, calls: seq<Call>, d: real) {
    calls == []
    || (var before, last := calls[..|calls| - 1], calls[|calls| - 1];
        && Watched(start, before, d)
        && Now(start, before) <= last.now <= LookedAt(start, before) + d)
  }

  // When the current rebuild began: the call that left Running.
  function EnteredAt(cfg: Config, start: real, calls: seq<Call>): real {
    if calls == [] then start
    else
      var before := calls[..|calls| - 1];
      if Exec(cfg, start, before).phase.Reforming? then EnteredAt(cfg, start, before)
      else calls[|calls| - 1].now
  }

  function Rounds(n: int, each: real): real {
    n as real * each
  }

  lemma OneMoreRound(n: int, each: real)
    ensures Rounds(0, each) == 0.0
    ensures Rounds(n + 1, each) == Rounds(n, each) + each
  {
  }

  lemma {:induction false} RoundsGrow(m: nat, n: nat, each: real)
    requires m <= n && each >= 0.0
    ensures Rounds(m, each) <= Rounds(n, each)
  {
    if m < n {
      RoundsGrow(m, n - 1, each);
      OneMoreRound(n - 1, each);
    }
  }

  lemma {:induction false} LookedBack(start: real, calls: seq<Call>, d: real)
    requires Watched(start, calls, d)
    ensures LookedAt(start, calls) <= Now(start, calls)
  {
    if calls != [] {
      LookedBack(start, calls[..|calls| - 1], d);
    }
  }

  // Where a rebuild stands: its attempts, and the evaluations since its last restart.
  ghost predicate OnTime(cfg: Config, s: Dog, entered: real, looked: real, now: real, d: real) {
    s.phase.Reforming? ==>
      && s.attempts >= 0
      && s.phase.since <= now
      && s.phase.since <= entered + Rounds(s.attempts, cfg.timeout + d)
      && (looked <= s.phase.since || looked - s.phase.since < cfg.timeout)
  }

  lemma DoStaysOnTime(cfg: Config, s: Dog, c: Call, entered: real, looked: real, now: real, d: real)
    requires cfg.timeout >= 0.0 && d >= 0.0
    requires now <= c.now <= looked + d && looked <= now
    requires s.phase.Running? ==> s.attempts == 0
    requires OnTime(cfg, s, entered, looked, now, d)
    ensures
      OnTime(cfg, Do(cfg, s, c), if s.phase.Reforming? then entered else c.now,
             if Evaluates(c.op) then c.now else looked, c.now, d)
  {
    OneMoreRound(s.attempts, cfg.timeout + d);
    hide Rounds;
    if c.op.Consume? {
      ConsumedOnlyPends(s, c.op.events, c.now);
    }
  }

  lemma {:induction false} RunIsOnTime(cfg: Config, start: real, calls: seq<Call>, d: real)
    requires cfg.maxAttempts >= 1 && cfg.timeout >= 0.0 && d >= 0.0 && Watched(start, calls, d)
    ensures OnTime(cfg, Exec(cfg, start, calls), EnteredAt(cfg, start, calls),
                   LookedAt(start, calls), Now(start, calls), d)
  {
    if calls != [] {
      hide Do, OnTime;
      var before, last := calls[..|calls| - 1], calls[|calls| - 1];
      RunIsOnTime(cfg, start, before, d);
      AttemptsAreBounded(cfg, start, before);
      LookedBack(start, before, d);
      DoStaysOnTime(cfg, Exec(cfg, start, before), last, EnteredAt(cfg, start, before),
                    LookedAt(start, before), Now(start, before), d);
    } else {
      assert Exec(cfg, start, calls).phase.Running?;
    }
  }

  /**
   * Rebuilding is bounded: if the host evaluates at least every `d` seconds, then whatever it
   * reports and however the reports interleave, the ring is never still rebuilding more than
   * maxAttempts * (timeout + d) after it began to.
   */
  lemma {:induction false} RebuildEnds(cfg: Config, start: real, calls: seq<Call>, d: real)
    requires cfg.maxAttempts >= 1 && cfg.timeout >= 0.0 && d >= 0.0 && Watched(start, calls, d)
    requires calls != [] && Exec(cfg, start, calls).phase.Reforming?
    ensures Now(start, calls) - EnteredAt(cfg, start, calls)
            <= cfg.maxAttempts as real * (cfg.timeout + d)
  {
    hide Exec, EnteredAt, LookedAt, Now, Watched, Rounds;
    var s, each := Exec(cfg, start, calls), cfg.timeout + d;
    RunIsOnTime(cfg, start, calls, d);
    AttemptsAreBounded(cfg, start, calls);
    LookedBack(start, calls, d);
    NowAfterLook(start, calls, d);
    RoundsBound(s.attempts, cfg.maxAttempts, each);
    var now, entered, total := Now(start, calls), EnteredAt(cfg, start, calls), cfg.maxAttempts as real * each;
    assert now <= s.phase.since + each;
    assert s.phase.since <= entered + Rounds(s.attempts, each);
    assert now - entered <= total;
    assert total == cfg.maxAttempts as real * (cfg.timeout + d);
  }

  lemma RoundsBound(m: int, n: int, each: real)
    requires 0 <= m < n && each >= 0.0
    ensures Rounds(m, each) + each <= n as real * each
  {
    OneMoreRound(m, each);
    RoundsGrow(m + 1, n, each);
  }

  lemma {:induction false} NowAfterLook(start: real, calls: seq<Call>, d: real)
    requires Watched(start, calls, d) && d >= 0.0
    ensures Now(start, calls) <= LookedAt(start, calls) + d
  {
  }

  // ----- detection -----

  // Calls that bring neither a token nor a new generation.
  predicate Silent(op: Op) {
    !op.Progress? && !op.Begin?
  }

  /**
   * Once a loss is pending, with no further token or new generation the first evaluation at least
   * `grace` after it was recorded reports that the ring is being rebuilt for that very loss, no
   * matter what else is reported in between.
   */
  lemma {:induction false} PendingLossIsConfirmed(cfg: Config, s: Dog, quiet: seq<Call>, now: real)
    requires s.phase.Running? && s.pending.Some? && s.progressAt <= s.pending.value.recordedAt
    requires forall k :: 0 <= k < |quiet| ==> Silent(quiet[k].op)
    requires forall k :: 0 <= k < |quiet| && quiet[k].op.Evaluate? ==>
      quiet[k].now - s.pending.value.recordedAt < cfg.grace
    requires now - s.pending.value.recordedAt >= cfg.grace
    ensures After(cfg, s, quiet) == s
    ensures Evaluated(cfg, After(cfg, s, quiet), now).1 == BeingRebuilt(s.pending.value.reason, now)
  {
    if quiet != [] {
      PendingLossIsConfirmed(cfg, s, quiet[..|quiet| - 1], now);
      var last := quiet[|quiet| - 1];
      if last.op.Consume? {
        ConsumedOnlyPends(s, last.op.events, last.now);
      }
    }
  }

  function After(cfg: Config, s: Dog, calls: seq<Call>): Dog {
    if calls == [] then s
    else Do(cfg, After(cfg, s, calls[..|calls| - 1]), calls[|calls| - 1])
  }
}
