/**
 * The pipeline on channels that cannot be trusted: frames of other runs appear, and frames of this
 * one are lost, repeated, overtaken and misrouted.
 */
module PipelineNoise {
  import opened Base
  import opened Pipeline

  // ----- what becomes of any one frame -----

  /**
   * A waiting worker holds a frame exactly when it fits its budget, is of its epoch, and comes from
   * the rank before it to itself; each mismatch is its own failure, and nothing is held then.
   */
  lemma WorkerHoldsIff(c: Setup, w: Worker, r: nat, m: Msg)
    requires 0 < r < |c.layers| == |c.gigabytes| && w.held.None? && w.failure.None?
    ensures
      var w' := WorkerReceives(c, w, r, m);
      var fits, ours, routed :=
        |m.payload| <= BufferBudget(c.gigabytes[r]), m.epoch == c.epoch, m.rankFrom + 1 == r == m.rankTo;
      && w'.processed == w.processed
      && (w'.held == Some(m) <==> fits && ours && routed)
      && (w'.held.None? <==> !(fits && ours && routed))
      && (w'.failure == Some(BadFrame) <==> !fits)
      && (w'.failure == Some(EpochMismatch) <==> fits && !ours)
      && (w'.failure == Some(RankMismatch) <==> fits && ours && !routed)
      && (w'.failure.None? <==> w'.held.Some?)
  {
  }

  /**
   * The waiting frontend accepts a frame exactly when it fits its budget, is of its epoch, is the
   * token awaited, and comes from the last rank to itself; each mismatch is its own failure, and
   * then nothing is accepted.
   */
  lemma FrontAcceptsIff(c: Setup, f: Front, m: Msg)
    requires 2 <= |c.layers| == |c.gigabytes| && f.phase == Waiting
    ensures
      var f' := FrontAccepts(c, f, m);
      var fits, ours, awaited := |m.payload| <= BufferBudget(c.gigabytes[0]), m.epoch == c.epoch, m.token == f.tid;
      var routed := m.rankFrom + 1 == |c.layers| && m.rankTo == 0;
      && (f'.phase == Ready <==> fits && ours && awaited && routed)
      && (f'.phase == Ready ==>
            f'.accepted == f.accepted + [m.payload] && f'.completed == f.completed + 1 && f'.tid == f.tid + 1)
      && (f'.phase != Ready ==> f'.accepted == f.accepted && f'.completed == f.completed && f'.tid == f.tid)
      && (f'.phase == Broken(BadFrame) <==> !fits)
      && (f'.phase == Broken(EpochMismatch) <==> fits && !ours)
      && (f'.phase == Broken(TokenMismatch) <==> fits && ours && !awaited)
      && (f'.phase == Broken(RankMismatch) <==> fits && ours && awaited && !routed)
      && f'.seed == f.seed
  {
  }

  /**
   * A process sends what it computed exactly when that fits its own budget, and it then waits or counts;
   * otherwise it stops over budget, and nothing is sent.
   */
  lemma SendsIffWithinBudget(c: Setup, f: Front, w: Worker, r: nat)
    requires 0 < r < |c.layers| == |c.gigabytes| && f.phase == Ready && w.held.Some? && w.failure.None?
    ensures
      var (f', m) := FrontSends(c, f);
      var result := c.compute(f.seed, c.layers[0], f.tid, 0);
      && (m.Some? <==> |result| <= BufferBudget(c.gigabytes[0]))
      && (m.Some? ==> m.value.payload == result && f'.phase == Waiting)
      && (m.None? <==> f'.phase == Broken(OverBudget))
      && f'.accepted == f.accepted && f'.tid == f.tid
    ensures
      var (w', m) := WorkerSends(c, w, r);
      var act := w.held.value;
      var result := c.compute(act.payload, c.layers[r], act.token, r);
      && (m.Some? <==> |result| <= BufferBudget(c.gigabytes[r]))
      && (m.Some? ==> m.value.payload == result && w'.processed == w.processed + 1 && w'.failure.None?)
      && (m.None? <==> w'.failure == Some(OverBudget)) && (m.None? ==> w'.processed == w.processed)
      && w'.held.None?
  {
  }

  /**
   * A shard's buffers hold one activation for each whole gigabyte it has, but at least one and at
   * most eight.
   */
  lemma BudgetIsShare(gigabytes: real, slots: nat)
    requires 1 <= slots <= 8
    ensures BufferBudget(gigabytes) == slots * ACTIVATION_BYTES
            <==> (slots == 1 || gigabytes >= slots as real) && (slots == 8 || gigabytes < (slots + 1) as real)
  {
  }

  // ----- runs with noise -----

  // `sent` is every frame any process has put on a channel so far.
  datatype Noisy = Noisy(sys: System, sent: set<Msg>)

  datatype Move =
    | Act(step: Step)
    // Channel r now carries these frames instead.
    | Disturb(r: nat, frames: seq<Msg>)

  // Frames of other runs, and frames that were sent by this one at any time, on any channel.
  predicate Plausible(c: Setup, sent: set<Msg>, frames: seq<Msg>) {
    forall k :: 0 <= k < |frames| ==> frames[k].epoch != c.epoch || frames[k] in sent
  }

  function Emits(c: Setup, s: System, step: Step): Option<Msg>
    requires Shaped(c, s)
  {
    if !Enabled(c, s, step) then None
    else match step
         case FrontSend => FrontSends(c, s.front).1
         case WorkSend(r) => WorkerSends(c, s.workers[r], r).1
         case _ => None
  }

  function Moved(c: Setup, x: Noisy, move: Move): (x': Noisy)
    requires Shaped(c, x.sys)
    ensures Shaped(c, x'.sys)
  {
    match move
    case Act(step) =>
      var m := Emits(c, x.sys, step);
      Noisy(Apply(c, x.sys, step), x.sent + if m.Some? then {m.value} else {})
    case Disturb(r, frames) =>
      if r < |c.layers| && Plausible(c, x.sent, frames)
      then x.(sys := x.sys.(channels := x.sys.channels[r := frames])) else x
  }

  function NoisyRun(c: Setup, moves: seq<Move>): (x: Noisy)
    requires 2 <= |c.layers| == |c.gigabytes|
    ensures Shaped(c, x.sys)
  {
    if moves == [] then Noisy(Init(c), {})
    else Moved(c, NoisyRun(c, moves[..|moves| - 1]), moves[|moves| - 1])
  }

  // A frame this run sends: some token after the stages up to the rank it comes from, within that
  // rank's budget.
  predicate Genuine(c: Setup, m: Msg)
    requires |c.layers| == |c.gigabytes|
  {
    && m.rankFrom < |c.layers| && m == Sent(c, m.token, m.rankFrom)
    && |m.payload| <= BufferBudget(c.gigabytes[m.rankFrom])
  }

  ghost predicate FrontGenuine(c: Setup, f: Front)
    requires 2 <= |c.layers|
  {
    && f.tid == f.completed == |f.accepted|
    && (f.phase == Ready ==> f.seed == Seed(c, f.tid))
    && (f.phase == Waiting ==> f.seed == Seed(c, f.tid + 1))
    && (f.phase == Done ==> f.tid >= c.tokens)
    && forall t :: 0 <= t < |f.accepted| ==> f.accepted[t] == Chain(c, t, |c.layers| - 1)
  }

  ghost predicate HoldsGenuine(c: Setup, w: Worker, r: nat)
    requires |c.layers| == |c.gigabytes|
  {
    w.held.Some? ==> Genuine(c, w.held.value) && w.held.value.rankFrom + 1 == r
  }

  ghost predicate AllGenuine(c: Setup, x: Noisy) {
    && Shaped(c, x.sys)
    && FrontGenuine(c, x.sys.front)
    && (forall r :: 0 <= r < |c.layers| ==> HoldsGenuine(c, x.sys.workers[r], r))
    && (forall m :: m in x.sent ==> Genuine(c, m))
    && (forall r :: 0 <= r < |c.layers| ==> Plausible(c, x.sent, x.sys.channels[r]))
  }

  lemma FrontSendsGenuine(c: Setup, f: Front)
    requires 2 <= |c.layers| == |c.gigabytes| && FrontGenuine(c, f) && f.phase == Ready
    ensures
      var (f', m) := FrontSends(c, f);
      FrontGenuine(c, f') && (m.Some? ==> Genuine(c, m.value))
  {
  }

  lemma FrontAcceptsGenuine(c: Setup, f: Front, m: Msg)
    requires 2 <= |c.layers| == |c.gigabytes| && FrontGenuine(c, f) && f.phase == Waiting
    requires m.epoch == c.epoch ==> Genuine(c, m)
    ensures FrontGenuine(c, FrontAccepts(c, f, m))
  {
    FrontAcceptsIff(c, f, m);
    hide FrontAccepts, Seed;
  }

  lemma WorkerKeepsGenuine(c: Setup, w: Worker, r: nat, m: Msg)
    requires 0 < r < |c.layers| == |c.gigabytes| && w.held.None? && w.failure.None?
    requires m.epoch == c.epoch ==> Genuine(c, m)
    ensures HoldsGenuine(c, WorkerReceives(c, w, r, m), r)
  {
    WorkerHoldsIff(c, w, r, m);
    hide WorkerReceives;
  }

  lemma WorkerSendsGenuine(c: Setup, w: Worker, r: nat)
    requires 0 < r < |c.layers| == |c.gigabytes| && w.held.Some? && HoldsGenuine(c, w, r)
    ensures
      var (w', m) := WorkerSends(c, w, r);
      HoldsGenuine(c, w', r) && (m.Some? ==> Genuine(c, m.value))
  {
  }

  lemma MoveKeepsGenuine(c: Setup, x: Noisy, move: Move)
    requires AllGenuine(c, x)
    ensures AllGenuine(c, Moved(c, x, move))
  {
    hide FrontSends, FrontAccepts, WorkerReceives, WorkerSends, Genuine, FrontGenuine, HoldsGenuine;
    var s := x.sys;
    if move.Act? && Enabled(c, s, move.step) {
      match move.step
      case FrontSend => FrontSendsGenuine(c, s.front);
      case FrontAccept =>
        FrontAcceptsGenuine(c, s.front, s.channels[|c.layers| - 1][0]);
      case Finish => FinishGenuine(c, s.front);
      case WorkReceive(r) => WorkerKeepsGenuine(c, s.workers[r], r, s.channels[r - 1][0]);
      case WorkSend(r) => WorkerSendsGenuine(c, s.workers[r], r);
    }
  }

  lemma FinishGenuine(c: Setup, f: Front)
    requires 2 <= |c.layers| && FrontGenuine(c, f) && f.tid >= c.tokens
    ensures FrontGenuine(c, f.(phase := Done))
  {
  }

  lemma {:induction false} RunIsGenuine(c: Setup, moves: seq<Move>)
    requires 2 <= |c.layers| == |c.gigabytes|
    ensures AllGenuine(c, NoisyRun(c, moves))
  {
    if moves != [] {
      hide Moved, AllGenuine;
      RunIsGenuine(c, moves[..|moves| - 1]);
      MoveKeepsGenuine(c, NoisyRun(c, moves[..|moves| - 1]), moves[|moves| - 1]);
    }
  }

  /**
   * The pipeline fails closed. Whatever the channels do to frames, every result the frontend has
   * accepted is the composition of all stages on its token's seed, one for each token in order;
   * every frame a worker computes on was sent by the rank before it for that epoch; no process ever
   * sends more than its own budget; and "done" is reported only with all results in hand.
   */
  lemma {:induction false} NoiseIsNeverAccepted(c: Setup, moves: seq<Move>, r: nat)
    requires 2 <= |c.layers| == |c.gigabytes| && 0 < r < |c.layers|
    ensures
      var x := NoisyRun(c, moves);
      var f, w := x.sys.front, x.sys.workers[r];
      && f.tid == f.completed == |f.accepted|
      && (forall t :: 0 <= t < |f.accepted| ==> f.accepted[t] == Chain(c, t, |c.layers| - 1))
      && (w.held.Some? ==> w.held.value == Sent(c, w.held.value.token, r - 1))
      && (forall m :: m in x.sent ==>
            m.rankFrom < |c.layers| && |m.payload| <= BufferBudget(c.gigabytes[m.rankFrom]))
      && (f.phase == Done ==> f.completed >= c.tokens)
  {
    RunIsGenuine(c, moves);
    hide NoisyRun, Chain;
  }

  // ----- every token has a prompt of its own -----

  function Value(digits: string): nat {
    if digits == [] then 0
    else
      var d := digits[|digits| - 1];
      10 * Value(digits[..|digits| - 1]) + if '0' <= d <= '9' then (d - '0') as nat else 0
  }

  /** A token's number is written in full: it can be read back, so no two tokens share a prompt. */
  lemma {:induction false} DecimalRoundTrip(n: nat)
    ensures Value(Decimal(n)) == n
    ensures forall k :: 0 <= k < |Decimal(n)| ==> '0' <= Decimal(n)[k] <= '9'
  {
    OneDigit(n % 10);
    if n >= 10 {
      DecimalRoundTrip(n / 10);
      var s := Decimal(n);
      assert s[..|s| - 1] == Decimal(n / 10);
    } else {
      assert Decimal(n)[..0] == [];
    }
  }

  lemma OneDigit(d: nat)
    requires d < 10
    ensures '0' <= "0123456789"[d] <= '9' && ("0123456789"[d] - '0') as nat == d
  {
  }

  lemma TokensHaveOwnPrompts(prompt: string, a: nat, b: nat)
    requires a != b
    ensures prompt + "|tok" + Decimal(a) != prompt + "|tok" + Decimal(b)
  {
    DecimalRoundTrip(a);
    DecimalRoundTrip(b);
    var head := prompt + "|tok";
    assert (head + Decimal(a))[|head|..] == Decimal(a) && (head + Decimal(b))[|head|..] == Decimal(b);
  }
}
