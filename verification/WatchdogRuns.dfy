/**
 * What a watchdog's verdict is, told from the history of its calls: when a loss is confirmed, when
 * a rebuild is given up, and what every evaluation in between answers.
 */
module WatchdogRuns {
  import opened Base
  import opened Watchdog

  // ----- the history that decides -----

  // The last sign of life while running: the start, a token, an admitted generation, a rebuilt ring.
  function LastSign(cfg: Config, start: real, calls: seq<Call>): real
    decreases |calls|, 0
  {
    if calls == [] then start
    else
      var before, last := calls[..|calls| - 1], calls[|calls| - 1];
      var s := Exec(cfg, start, before);
      if last.op.Progress? && s.phase.Running? then last.now
      else if last.op.Begin? && s.phase.Running? && !Overdue(cfg, start, before, last.now) then last.now
      else if last.op.Succeed? && s.phase.Reforming? then last.now
      else LastSign(cfg, start, before)
  }

  // A loss is pending, and neither it nor the last sign of life is less than `grace` ago.
  predicate Overdue(cfg: Config, start: real, calls: seq<Call>, now: real)
    decreases |calls|, 1
  {
    var pending := Exec(cfg, start, calls).pending;
    && pending.Some?
    && now - pending.value.recordedAt >= cfg.grace
    && now - LastSign(cfg, start, calls) >= cfg.grace
  }

  // When the rebuild in progress was begun, or begun again after a failed attempt.
  function RestartedAt(cfg: Config, start: real, calls: seq<Call>): real {
    if calls == [] then start
    else
      var before, last := calls[..|calls| - 1], calls[|calls| - 1];
      if last.op.Fail? || !Exec(cfg, start, before).phase.Reforming? then last.now
      else RestartedAt(cfg, start, before)
  }

  // The failures reported of the rebuild in progress.
  function Failures(cfg: Config, start: real, calls: seq<Call>): nat {
    if calls == [] then 0
    else
      var before, last := calls[..|calls| - 1], calls[|calls| - 1];
      if !Exec(cfg, start, before).phase.Reforming? then 0
      else Failures(cfg, start, before) + if last.op.Fail? then 1 else 0
  }

  lemma {:induction false} HistoryHolds(cfg: Config, start: real, calls: seq<Call>)
    requires cfg.maxAttempts >= 1
    ensures
      var s := Exec(cfg, start, calls);
      && (s.phase.Running? ==> s.progressAt == LastSign(cfg, start, calls))
      && (s.phase.Reforming? ==> s.phase.since == RestartedAt(cfg, start, calls))
      && (s.phase.Reforming? ==> s.attempts == Failures(cfg, start, calls))
  {
    if calls != [] {
      var before, last := calls[..|calls| - 1], calls[|calls| - 1];
      HistoryHolds(cfg, start, before);
      AttemptsAreBounded(cfg, start, before);
      if last.op.Consume? {
        ConsumedOnlyPends(Exec(cfg, start, before), last.op.events, last.now);
      }
    }
  }

  lemma OverdueIs(cfg: Config, start: real, calls: seq<Call>, now: real)
    requires cfg.maxAttempts >= 1 && Exec(cfg, start, calls).phase.Running?
    ensures
      var s := Exec(cfg, start, calls);
      Overdue(cfg, start, calls, now)
      <==> s.pending.Some? && now - Later(s.progressAt, s.pending.value.recordedAt) >= cfg.grace
  {
    HistoryHolds(cfg, start, calls);
  }

  // ----- what changes the phase -----

  // This call confirms the pending loss.
  predicate Confirms(cfg: Config, start: real, before: seq<Call>, c: Call) {
    Exec(cfg, start, before).phase.Running? && Evaluates(c.op) && Overdue(cfg, start, before, c.now)
  }

  // What this call gives the ring up for.
  function GivesUp(cfg: Config, start: real, before: seq<Call>, c: Call): Option<Cause> {
    if !Exec(cfg, start, before).phase.Reforming? then None
    else if Evaluates(c.op) && c.now - RestartedAt(cfg, start, before) >= cfg.timeout then Some(TimedOut)
    else if c.op.Fail? && Failures(cfg, start, before) + 1 >= cfg.maxAttempts
    then Some(Exhausted(cfg.maxAttempts, c.op.detail))
    else if c.op.GiveUp? then Some(RebuildFailed(c.op.detail))
    else None
  }

  /**
   * What moves the watchdog from phase to phase, for every call of every run: an evaluation that
   * finds a loss overdue, and nothing else, begins a rebuild, for that loss; a success ends one;
   * and a rebuild is given up exactly by an evaluation `timeout` after its latest restart, by the
   * failure that reaches the limit, or by a report that it cannot be done.
   */
  lemma {:induction false} PhasesChangeExactly(cfg: Config, start: real, before: seq<Call>, c: Call)
    requires cfg.maxAttempts >= 1
    ensures
      var s, s' := Exec(cfg, start, before), Do(cfg, Exec(cfg, start, before), c);
      match s.phase
      case Running =>
        if Confirms(cfg, start, before, c) then s'.phase == Reforming(s.pending.value.reason, c.now)
        else s'.phase == Running
      case Reforming(why, _) =>
        var cause := GivesUp(cfg, start, before, c);
        if cause.Some? then s'.phase == Terminal(why, cause.value)
        else if c.op.Succeed? then s'.phase == Running
        else if c.op.Fail? then s'.phase == Reforming(why, c.now)
        else s' == s
      case Terminal(_, _) => s' == s
  {
    hide Exec, LastSign, RestartedAt, Failures, Overdue;
    var s := Exec(cfg, start, before);
    HistoryHolds(cfg, start, before);
    AttemptsAreBounded(cfg, start, before);
    if s.phase.Running? {
      OverdueIs(cfg, start, before, c.now);
    }
    if c.op.Consume? {
      ConsumedOnlyPends(s, c.op.events, c.now);
    }
  }

  // ----- the answer of an evaluation -----

  /**
   * Every evaluation in every run answers: healthy while running with no loss pending and a sign
   * of life less than `stall` ago; stalled since the last sign of life, when that is longer ago or
   * a loss is pending but not overdue; being rebuilt since the latest restart, or since now when
   * it confirms an overdue loss; timed out exactly when that restart is `timeout` ago; and
   * otherwise what the ring was given up for.
   */
  lemma {:induction false} VerdictIsExact(cfg: Config, start: real, calls: seq<Call>, now: real)
    requires cfg.maxAttempts >= 1
    ensures
      var s := Exec(cfg, start, calls);
      var (s', health) := Evaluated(cfg, s, now);
      var quiet := now - LastSign(cfg, start, calls);
      && (health == Healthy <==> s.phase.Running? && s.pending.None? && quiet < cfg.stall)
      && (health.Stalled? <==> s.phase.Running? && if s.pending.Some? then !Overdue(cfg, start, calls, now)
                                                  else quiet >= cfg.stall)
      && (health.Stalled? ==> health.since == LastSign(cfg, start, calls))
      && (health.BeingRebuilt? <==>
            || (s.phase.Running? && Overdue(cfg, start, calls, now))
            || (s.phase.Reforming? && now - RestartedAt(cfg, start, calls) < cfg.timeout))
      && (health.BeingRebuilt? ==> s.pending.Some? && health.why == s.pending.value.reason)
      && (health.BeingRebuilt? ==>
            health.since == if s.phase.Running? then now else RestartedAt(cfg, start, calls))
      && (health.Lost? <==> s'.phase.Terminal?)
      && (health.Lost? ==> health == Lost(s'.phase.reason, s'.phase.cause))
      && (health.Healthy? || health.Stalled? || (health.BeingRebuilt? && !s.phase.Running?) ==> s' == s)
  {
    hide Exec, LastSign, RestartedAt, Failures, Overdue;
    HistoryHolds(cfg, start, calls);
    AttemptsAreBounded(cfg, start, calls);
    if Exec(cfg, start, calls).phase.Running? {
      OverdueIs(cfg, start, calls, now);
    }
  }

  /** A new generation is admitted exactly when the ring runs and no loss is overdue. */
  lemma {:induction false} AdmittedIff(cfg: Config, start: real, calls: seq<Call>, now: real)
    requires cfg.maxAttempts >= 1
    ensures Begun(cfg, Exec(cfg, start, calls), now).1
            <==> Exec(cfg, start, calls).phase.Running? && !Overdue(cfg, start, calls, now)
  {
    hide Exec, LastSign, Overdue;
    if Exec(cfg, start, calls).phase.Running? {
      OverdueIs(cfg, start, calls, now);
    }
  }

  // ----- over whole runs -----

  // Some call of the run gave the ring up.
  ghost predicate GivenUp(cfg: Config, start: real, calls: seq<Call>) {
    exists n :: 0 <= n < |calls| && GivesUp(cfg, start, calls[..n], calls[n]).Some?
  }

  /** A ring is lost exactly when some call of its run gave it up. */
  lemma {:induction false} LostIffGivenUp(cfg: Config, start: real, calls: seq<Call>)
    requires cfg.maxAttempts >= 1
    ensures Exec(cfg, start, calls).phase.Terminal? <==> GivenUp(cfg, start, calls)
  {
    if calls != [] {
      hide Do, GivesUp;
      var before, last := calls[..|calls| - 1], calls[|calls| - 1];
      LostIffGivenUp(cfg, start, before);
      PhasesChangeExactly(cfg, start, before, last);
      NotGivenUpIfLost(cfg, start, before, last);
      assert forall n :: 0 <= n < |before| ==> before[..n] == calls[..n] && before[n] == calls[n];
      if GivenUp(cfg, start, before) {
        var n :| 0 <= n < |before| && GivesUp(cfg, start, before[..n], before[n]).Some?;
        assert GivesUp(cfg, start, calls[..n], calls[n]).Some?;
      }
    }
  }

  lemma NotGivenUpIfLost(cfg: Config, start: real, before: seq<Call>, c: Call)
    ensures GivesUp(cfg, start, before, c).Some? ==> Exec(cfg, start, before).phase.Reforming?
  {
  }

  // Within `timeout` of the latest restart, short of the limit, and not reported impossible.
  ghost predicate GivenTime(cfg: Config, start: real, calls: seq<Call>) {
    forall n :: 0 <= n < |calls| && Exec(cfg, start, calls[..n]).phase.Reforming? ==>
      && !calls[n].op.GiveUp?
      && (Evaluates(calls[n].op) ==> calls[n].now < RestartedAt(cfg, start, calls[..n]) + cfg.timeout)
      && (calls[n].op.Fail? ==> Failures(cfg, start, calls[..n]) + 1 < cfg.maxAttempts)
  }

  /** So a rebuild keeps the whole of its time and its attempts: a ring given those is never lost. */
  lemma {:induction false} RebuildHasItsTime(cfg: Config, start: real, calls: seq<Call>)
    requires cfg.maxAttempts >= 1
    ensures GivenTime(cfg, start, calls) <==> !Exec(cfg, start, calls).phase.Terminal?
  {
    hide Exec, RestartedAt, Failures;
    LostIffGivenUp(cfg, start, calls);
    forall n | 0 <= n < |calls|
      ensures GivesUp(cfg, start, calls[..n], calls[n]).Some?
              <==> Exec(cfg, start, calls[..n]).phase.Reforming?
                   && (|| calls[n].op.GiveUp?
                       || (Evaluates(calls[n].op)
                           && calls[n].now >= RestartedAt(cfg, start, calls[..n]) + cfg.timeout)
                       || (calls[n].op.Fail? && Failures(cfg, start, calls[..n]) + 1 >= cfg.maxAttempts))
    {
    }
  }
}
