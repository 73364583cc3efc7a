/**
 * The token pipeline: a frontend of rank 0 and workers of ranks 1..R-1, each a process of its
 * own, passing one activation at a time along first-in-first-out channels. Prompt seeding and
 * the per-stage compute are arbitrary functions that respect activation sizes.
 */
module Pipeline {
  import opened Base

  const ACTIVATION_BYTES := 4096

  datatype Msg = Msg(epoch: string, token: nat, rankFrom: nat, rankTo: nat, payload: seq<byte>)

  // Per-rank layer counts and memory figures, as the plan lists them in rank order.
  datatype Setup = Setup(
    epoch: string, tokens: nat, prompt: string, layers: seq<nat>, gigabytes: seq<real>,
    makePrompt: string -> seq<byte>, compute: (seq<byte>, nat, nat, nat) -> seq<byte>)

  // In-flight payloads are capped by the shard's share of memory, one to eight slots.
  function BufferBudget(gigabytes: real): (bytes: int)
    ensures ACTIVATION_BYTES <= bytes <= 8 * ACTIVATION_BYTES
  {
    var whole := gigabytes.Floor;
    var n := if whole > 8 then 8 else if whole < 1 then 1 else whole;
    n * ACTIVATION_BYTES
  }

  ghost predicate Sized(c: Setup) {
    && 2 <= |c.layers| == |c.gigabytes|
    && (forall s :: |c.makePrompt(s)| == ACTIVATION_BYTES)
    && (forall p, l, t, r :: |p| == ACTIVATION_BYTES ==> |c.compute(p, l, t, r)| == ACTIVATION_BYTES)
  }

  function Decimal(n: nat): string {
    if n < 10 then ["0123456789"[n]] else Decimal(n / 10) + ["0123456789"[n % 10]]
  }

  // The seed the frontend holds when it is about to send token t.
  function Seed(c: Setup, t: nat): seq<byte> {
    if t == 0 then c.makePrompt(c.prompt) else c.makePrompt(c.prompt + "|tok" + Decimal(t - 1))
  }

  datatype Failure =
    | OverBudget | BadFrame | EpochMismatch | TokenMismatch | RankMismatch

  datatype FrontPhase = Ready | Waiting | Done | Broken(why: Failure)

  datatype Front = Front(phase: FrontPhase, tid: nat, seed: seq<byte>, completed: nat, accepted: seq<seq<byte>>)

  datatype Worker = Worker(processed: nat, held: Option<Msg>, failure: Option<Failure>)

  // ----- the processes' steps -----

  function FrontSends(c: Setup, f: Front): (Front, Option<Msg>)
    requires 2 <= |c.layers| == |c.gigabytes|
  {
    var activation := c.compute(f.seed, c.layers[0], f.tid, 0);
    if |activation| > BufferBudget(c.gigabytes[0]) then (f.(phase := Broken(OverBudget)), None)
    else
      (f.(phase := Waiting, seed := c.makePrompt(c.prompt + "|tok" + Decimal(f.tid))),
       Some(Msg(c.epoch, f.tid, 0, 1, activation)))
  }

  function FrontAccepts(c: Setup, f: Front, m: Msg): Front
    requires 2 <= |c.layers| == |c.gigabytes|
  {
    if |m.payload| > BufferBudget(c.gigabytes[0]) then f.(phase := Broken(BadFrame))
    else if m.epoch != c.epoch then f.(phase := Broken(EpochMismatch))
    else if m.token != f.tid then f.(phase := Broken(TokenMismatch))
    else if m.rankFrom != |c.layers| - 1 || m.rankTo != 0 then f.(phase := Broken(RankMismatch))
    else Front(Ready, f.tid + 1, f.seed, f.completed + 1, f.accepted + [m.payload])
  }

  function WorkerReceives(c: Setup, w: Worker, r: nat, m: Msg): Worker
    requires 0 < r < |c.layers| == |c.gigabytes|
  {
    if |m.payload| > BufferBudget(c.gigabytes[r]) then w.(failure := Some(BadFrame))
    else if m.epoch != c.epoch then w.(failure := Some(EpochMismatch))
    else if m.rankFrom != r - 1 || m.rankTo != r then w.(failure := Some(RankMismatch))
    else w.(held := Some(m))
  }

  function Next(n: nat, r: nat): nat
    requires r < n
  {
    if r + 1 == n then 0 else r + 1
  }

  function WorkerSends(c: Setup, w: Worker, r: nat): (Worker, Option<Msg>)
    requires 0 < r < |c.layers| == |c.gigabytes| && w.held.Some?
  {
    var act := w.held.value;
    var payload := c.compute(act.payload, c.layers[r], act.token, r);
    if |payload| > BufferBudget(c.gigabytes[r]) then (Worker(w.processed, None, Some(OverBudget)), None)
    else
      (Worker(w.processed + 1, None, w.failure),
       Some(Msg(c.epoch, act.token, r, Next(|c.layers|, r), payload)))
  }

  /** The frontend's loop variables; its body is one send and one accepted result. */
  class Frontend {
    const setup: Setup
    var phase: FrontPhase
    var tid: nat
    var seed: seq<byte>
    var completed: nat
    ghost var accepted: seq<seq<byte>>

    ghost function View(): Front
      reads this
    {
      Front(phase, tid, seed, completed, accepted)
    }

    constructor (setup: Setup)
      ensures View() == Front(Ready, 0, setup.makePrompt(setup.prompt), 0, []) && this.setup == setup
    {
      this.setup := setup;
      phase, tid, seed, completed, accepted := Ready, 0, setup.makePrompt(setup.prompt), 0, [];
    }

    method Send() returns (msg: Option<Msg>)
      requires 2 <= |setup.layers| == |setup.gigabytes|
      modifies this
      ensures (View(), msg) == FrontSends(setup, old(View()))
    {
      var activation := setup.compute(seed, setup.layers[0], tid, 0);
      if |activation| > BufferBudget(setup.gigabytes[0]) {
        phase := Broken(OverBudget);
        return None;
      }
      seed := setup.makePrompt(setup.prompt + "|tok" + Decimal(tid));
      phase := Waiting;
      return Some(Msg(setup.epoch, tid, 0, 1, activation));
    }

    method Accept(m: Msg)
      requires 2 <= |setup.layers| == |setup.gigabytes|
      modifies this
      ensures View() == FrontAccepts(setup, old(View()), m)
    {
      if |m.payload| > BufferBudget(setup.gigabytes[0]) {
        phase := Broken(BadFrame);
      } else if m.epoch != setup.epoch {
        phase := Broken(EpochMismatch);
      } else if m.token != tid {
        phase := Broken(TokenMismatch);
      } else if m.rankFrom != |setup.layers| - 1 || m.rankTo != 0 {
        phase := Broken(RankMismatch);
      } else {
        completed := completed + 1;
        accepted := accepted + [m.payload];
        tid := tid + 1;
        phase := Ready;
      }
    }
  }

  /** A worker's loop variables. */
  class WorkerLoop {
    const setup: Setup
    const rank: nat
    var processed: nat
    var held: Option<Msg>
    var failure: Option<Failure>

    ghost function View(): Worker
      reads this
    {
      Worker(processed, held, failure)
    }

    constructor (setup: Setup, rank: nat)
      ensures View() == Worker(0, None, None) && this.setup == setup && this.rank == rank
    {
      this.setup, this.rank := setup, rank;
      processed, held, failure := 0, None, None;
    }

    method Receive(m: Msg)
      requires 0 < rank < |setup.layers| == |setup.gigabytes|
      modifies this
      ensures View() == WorkerReceives(setup, old(View()), rank, m)
    {
      if |m.payload| > BufferBudget(setup.gigabytes[rank]) {
        failure := Some(BadFrame);
      } else if m.epoch != setup.epoch {
        failure := Some(EpochMismatch);
      } else if m.rankFrom != rank - 1 || m.rankTo != rank {
        failure := Some(RankMismatch);
      } else {
        held := Some(m);
      }
    }

    method Send() returns (msg: Option<Msg>)
      requires 0 < rank < |setup.layers| == |setup.gigabytes| && held.Some?
      modifies this
      ensures (View(), msg) == WorkerSends(setup, old(View()), rank)
    {
      var act := held.value;
      var payload := setup.compute(act.payload, setup.layers[rank], act.token, rank);
      held := None;
      if |payload| > BufferBudget(setup.gigabytes[rank]) {
        failure := Some(OverBudget);
        return None;
      }
      processed := processed + 1;
      var dest := if rank == |setup.layers| - 1 then 0 else rank + 1;
      return Some(Msg(setup.epoch, act.token, rank, dest, payload));
    }
  }

  // ----- the whole pipeline -----

  // channels[r] leads from rank r to the next; workers[0] is not used.
  datatype System = System(front: Front, workers: seq<Worker>, channels: seq<seq<Msg>>)

  datatype Step = FrontSend | FrontAccept | Finish | WorkReceive(r: nat) | WorkSend(r: nat)

  predicate Shaped(c: Setup, s: System) {
    2 <= |c.layers| == |c.gigabytes| == |s.workers| == |s.channels|
  }

  predicate Enabled(c: Setup, s: System, step: Step)
    requires Shaped(c, s)
  {
    var n := |c.layers|;
    match step
    case FrontSend => s.front.phase == Ready && s.front.tid < c.tokens
    case FrontAccept => s.front.phase == Waiting && s.channels[n - 1] != []
    case Finish => s.front.phase == Ready && s.front.tid >= c.tokens
    case WorkReceive(r) =>
      0 < r < n && s.workers[r].failure.None? && s.workers[r].held.None?
      && s.workers[r].processed < c.tokens && s.channels[r - 1] != []
    case WorkSend(r) => 0 < r < n && s.workers[r].failure.None? && s.workers[r].held.Some?
  }

  function Put(channels: seq<seq<Msg>>, r: nat, m: Option<Msg>): seq<seq<Msg>>
    requires r < |channels|
  {
    if m.Some? then channels[r := channels[r] + [m.value]] else channels
  }

  // A step that is not enabled changes nothing.
  function Apply(c: Setup, s: System, step: Step): (s': System)
    requires Shaped(c, s)
    ensures Shaped(c, s')
  {
    if !Enabled(c, s, step) then s
    else
      var n := |c.layers|;
      match step
      case FrontSend =>
        var (f, m) := FrontSends(c, s.front);
        s.(front := f, channels := Put(s.channels, 0, m))
      case FrontAccept =>
        s.(front := FrontAccepts(c, s.front, s.channels[n - 1][0]),
           channels := s.channels[n - 1 := s.channels[n - 1][1..]])
      case Finish => s.(front := s.front.(phase := Done))
      case WorkReceive(r) =>
        s.(workers := s.workers[r := WorkerReceives(c, s.workers[r], r, s.channels[r - 1][0])],
           channels := s.channels[r - 1 := s.channels[r - 1][1..]])
      case WorkSend(r) =>
        var (w, m) := WorkerSends(c, s.workers[r], r);
        s.(workers := s.workers[r := w], channels := Put(s.channels, r, m))
  }

  function Init(c: Setup): System {
    System(Front(Ready, 0, c.makePrompt(c.prompt), 0, []),
           seq(|c.layers|, i => Worker(0, None, None)), seq(|c.layers|, i => []))
  }

  function Exec(c: Setup, steps: seq<Step>): (s: System)
    requires 2 <= |c.layers| == |c.gigabytes|
    ensures Shaped(c, s)
  {
    if steps == [] then Init(c)
    else Apply(c, Exec(c, steps[..|steps| - 1]), steps[|steps| - 1])
  }

  // ----- where the one token in flight is -----

  // Token t after the stages 0..r.
  function Chain(c: Setup, t: nat, r: nat): seq<byte>
    requires r < |c.layers|
  {
    c.compute(if r == 0 then Seed(c, t) else Chain(c, t, r - 1), c.layers[r], t, r)
  }

  datatype Place = AtFront | InChannel(r: nat) | AtWorker(r: nat)

  function Sent(c: Setup, t: nat, r: nat): Msg
    requires r < |c.layers|
  {
    Msg(c.epoch, t, r, Next(|c.layers|, r), Chain(c, t, r))
  }

  // How many workers, counted from rank 1, have passed the token on.
  function Passed(p: Place): nat {
    match p
    case AtFront => 0
    case InChannel(r) => r
    case AtWorker(r) => if r == 0 then 0 else r - 1
  }

  ghost predicate FrontOk(c: Setup, f: Front, p: Place) {
    && f.tid == f.completed == |f.accepted| <= c.tokens
    && f.seed == Seed(c, if f.phase == Waiting then f.tid + 1 else f.tid)
    && (f.phase == Waiting <==> p != AtFront)
    && (f.phase == Waiting ==> f.tid < c.tokens)
    && (f.phase == Done ==> f.tid == c.tokens)
    && !f.phase.Broken?
    && (2 <= |c.layers| ==> forall t :: 0 <= t < |f.accepted| ==> f.accepted[t] == Chain(c, t, |c.layers| - 1))
  }

  ghost predicate WorkerOk(c: Setup, s: System, p: Place, r: nat)
    requires Shaped(c, s) && 0 < r < |c.layers|
  {
    s.workers[r] == Worker(s.front.completed + if r <= Passed(p) then 1 else 0,
                           if p == AtWorker(r) then Some(Sent(c, s.front.tid, r - 1)) else None, None)
  }

  ghost predicate ChannelOk(c: Setup, s: System, p: Place, r: nat)
    requires Shaped(c, s) && r < |c.layers|
  {
    s.channels[r] == if p == InChannel(r) then [Sent(c, s.front.tid, r)] else []
  }

  ghost predicate At(c: Setup, s: System, p: Place) {
    && Shaped(c, s)
    && (p.InChannel? ==> p.r < |c.layers|)
    && (p.AtWorker? ==> 0 < p.r < |c.layers|)
    && FrontOk(c, s.front, p)
    && (forall r :: 0 < r < |c.layers| ==> WorkerOk(c, s, p, r))
    && (forall r :: 0 <= r < |c.layers| ==> ChannelOk(c, s, p, r))
  }

  // The only step that can be taken, and where it takes the token.
  function Move(c: Setup, s: System, p: Place): Step {
    match p
    case AtFront => if s.front.tid < c.tokens then FrontSend else Finish
    case InChannel(r) => if r + 1 == |c.layers| then FrontAccept else WorkReceive(r + 1)
    case AtWorker(r) => WorkSend(r)
  }

  function Moved(c: Setup, s: System, p: Place): Place {
    match p
    case AtFront => if s.front.tid < c.tokens then InChannel(0) else AtFront
    case InChannel(r) => if r + 1 == |c.layers| then AtFront else AtWorker(r + 1)
    case AtWorker(r) => InChannel(r)
  }

  lemma {:induction false} ChainSize(c: Setup, t: nat, r: nat)
    requires Sized(c) && r < |c.layers|
    ensures |Chain(c, t, r)| == ACTIVATION_BYTES
  {
    if r > 0 {
      ChainSize(c, t, r - 1);
    }
  }

  // Nothing else can act.
  lemma OnlyMove(c: Setup, s: System, p: Place, step: Step)
    requires Sized(c) && At(c, s, p) && Enabled(c, s, step)
    ensures step == Move(c, s, p)
  {
    hide Sent;
    match step
    case FrontAccept => assert ChannelOk(c, s, p, |c.layers| - 1);
    case WorkReceive(r) => assert ChannelOk(c, s, p, r - 1);
    case WorkSend(r) => assert WorkerOk(c, s, p, r);
    case _ =>
  }

  lemma MoveEnabled(c: Setup, s: System, p: Place)
    requires Sized(c) && At(c, s, p) && s.front.phase != Done
    ensures Enabled(c, s, Move(c, s, p))
  {
    hide Sent;
    match p
    case AtFront =>
    case InChannel(r) =>
      assert ChannelOk(c, s, p, r);
      if r + 1 < |c.layers| {
        assert WorkerOk(c, s, p, r + 1);
      }
    case AtWorker(r) => assert WorkerOk(c, s, p, r);
  }

  lemma SendMoves(c: Setup, s: System)
    requires Sized(c) && At(c, s, AtFront) && Enabled(c, s, FrontSend)
    ensures At(c, Apply(c, s, FrontSend), InChannel(0))
  {
    var s', t := Apply(c, s, FrontSend), s.front.tid;
    ChainSize(c, t, 0);
    hide Sized;
    assert s.front.seed == Seed(c, t);
    assert FrontSends(c, s.front).1 == Some(Sent(c, t, 0));
    assert s'.channels == s.channels[0 := s.channels[0] + [Sent(c, t, 0)]];
    hide Sent, Chain;
    forall r | 0 < r < |c.layers|
      ensures WorkerOk(c, s', InChannel(0), r)
    {
      assert WorkerOk(c, s, AtFront, r);
    }
    forall r | 0 <= r < |c.layers|
      ensures ChannelOk(c, s', InChannel(0), r)
    {
      assert ChannelOk(c, s, AtFront, r);
    }
  }

  lemma AcceptMoves(c: Setup, s: System)
    requires Sized(c) && At(c, s, InChannel(|c.layers| - 1))
    ensures At(c, Apply(c, s, FrontAccept), AtFront)
  {
    var n := |c.layers|;
    var p, s', t := InChannel(n - 1), Apply(c, s, FrontAccept), s.front.tid;
    ChainSize(c, t, n - 1);
    hide Sized;
    assert ChannelOk(c, s, p, n - 1);
    assert s.channels[n - 1][0] == Sent(c, t, n - 1);
    assert s'.front == Front(Ready, t + 1, s.front.seed, s.front.completed + 1,
                             s.front.accepted + [Chain(c, t, n - 1)]);
    hide Sent, Chain, Seed;
    forall r | 0 < r < n
      ensures WorkerOk(c, s', AtFront, r)
    {
      assert WorkerOk(c, s, p, r);
    }
    forall r | 0 <= r < n
      ensures ChannelOk(c, s', AtFront, r)
    {
      assert ChannelOk(c, s, p, r);
    }
  }

  lemma ReceiveMoves(c: Setup, s: System, r: nat)
    requires Sized(c) && 0 < r < |c.layers| && At(c, s, InChannel(r - 1))
    ensures At(c, Apply(c, s, WorkReceive(r)), AtWorker(r))
  {
    var p, s', t := InChannel(r - 1), Apply(c, s, WorkReceive(r)), s.front.tid;
    ChainSize(c, t, r - 1);
    hide Sized;
    assert ChannelOk(c, s, p, r - 1) && WorkerOk(c, s, p, r);
    assert s.channels[r - 1][0] == Sent(c, t, r - 1);
    assert s'.workers[r] == Worker(s.workers[r].processed, Some(Sent(c, t, r - 1)), None);
    hide Sent, Chain, Seed;
    forall q | 0 < q < |c.layers|
      ensures WorkerOk(c, s', AtWorker(r), q)
    {
      assert WorkerOk(c, s, p, q);
    }
    forall q | 0 <= q < |c.layers|
      ensures ChannelOk(c, s', AtWorker(r), q)
    {
      assert ChannelOk(c, s, p, q);
    }
  }

  lemma WorkMoves(c: Setup, s: System, r: nat)
    requires Sized(c) && 0 < r < |c.layers| && At(c, s, AtWorker(r))
    ensures At(c, Apply(c, s, WorkSend(r)), InChannel(r))
  {
    var p, s', t := AtWorker(r), Apply(c, s, WorkSend(r)), s.front.tid;
    ChainSize(c, t, r);
    hide Sized;
    assert WorkerOk(c, s, p, r) && ChannelOk(c, s, p, r);
    assert WorkerSends(c, s.workers[r], r).1 == Some(Sent(c, t, r));
    assert s'.channels == s.channels[r := s.channels[r] + [Sent(c, t, r)]];
    hide Sent, Chain;
    forall q | 0 < q < |c.layers|
      ensures WorkerOk(c, s', InChannel(r), q)
    {
      assert WorkerOk(c, s, p, q);
    }
    forall q | 0 <= q < |c.layers|
      ensures ChannelOk(c, s', InChannel(r), q)
    {
      assert ChannelOk(c, s, p, q);
    }
  }

  lemma FinishStays(c: Setup, s: System)
    requires Sized(c) && At(c, s, AtFront) && Enabled(c, s, Finish)
    ensures At(c, Apply(c, s, Finish), AtFront)
  {
    var s' := Apply(c, s, Finish);
    hide Sized;
    hide Sent, Chain, Seed;
    forall r | 0 < r < |c.layers|
      ensures WorkerOk(c, s', AtFront, r)
    {
      assert WorkerOk(c, s, AtFront, r);
    }
    forall r | 0 <= r < |c.layers|
      ensures ChannelOk(c, s', AtFront, r)
    {
      assert ChannelOk(c, s, AtFront, r);
    }
  }

  lemma MoveMoves(c: Setup, s: System, p: Place)
    requires Sized(c) && At(c, s, p) && s.front.phase != Done
    ensures At(c, Apply(c, s, Move(c, s, p)), Moved(c, s, p))
  {
    MoveEnabled(c, s, p);
    hide Sized, At, Apply;
    match p
    case AtFront => if s.front.tid < c.tokens { SendMoves(c, s); } else { FinishStays(c, s); }
    case InChannel(r) => if r + 1 == |c.layers| { AcceptMoves(c, s); } else { ReceiveMoves(c, s, r + 1); }
    case AtWorker(r) =>
      AtWorkerRank(c, s, r);
      WorkMoves(c, s, r);
  }

  lemma AtWorkerRank(c: Setup, s: System, r: nat)
    requires At(c, s, AtWorker(r))
    ensures 0 < r < |c.layers|
  {
  }

  // How many steps have been taken when the token is at a place.
  function StepsTaken(c: Setup, s: System, p: Place): nat {
    2 * |c.layers| * s.front.completed
    + (match p case AtFront => 0 case InChannel(r) => 2 * r + 1 case AtWorker(r) => 2 * r)
    + if s.front.phase == Done then 1 else 0
  }

  function Effective(c: Setup, steps: seq<Step>): nat
    requires 2 <= |c.layers| == |c.gigabytes|
  {
    if steps == [] then 0
    else
      var before := steps[..|steps| - 1];
      Effective(c, before) + if Enabled(c, Exec(c, before), steps[|steps| - 1]) then 1 else 0
  }

  lemma StepCounts(c: Setup, s: System, p: Place)
    requires Sized(c) && At(c, s, p) && s.front.phase != Done
    ensures StepsTaken(c, Apply(c, s, Move(c, s, p)), Moved(c, s, p)) == StepsTaken(c, s, p) + 1
  {
    MoveCompletes(c, s, p);
    if p.AtWorker? {
      AtWorkerRank(c, s, p.r);
    }
    hide Apply, Move, At, Sized;
    OneMore(2 * |c.layers|, s.front.completed);
  }

  lemma OneMore(each: nat, done: nat)
    ensures each * (done + 1) == each * done + each
  {
  }

  lemma MoveCompletes(c: Setup, s: System, p: Place)
    requires Sized(c) && At(c, s, p) && s.front.phase != Done
    ensures
      var s' := Apply(c, s, Move(c, s, p));
      && s'.front.completed == s.front.completed + (if p == InChannel(|c.layers| - 1) then 1 else 0)
      && (s'.front.phase == Done <==> p == AtFront && s.front.tid >= c.tokens)
  {
    MoveEnabled(c, s, p);
    MoveMoves(c, s, p);
    hide Sized, Chain;
  }

  lemma {:induction false} RunIsAt(c: Setup, steps: seq<Step>) returns (p: Place)
    requires Sized(c)
    ensures At(c, Exec(c, steps), p)
    ensures Effective(c, steps) == StepsTaken(c, Exec(c, steps), p)
  {
    if steps == [] {
      p := AtFront;
      var s := Init(c);
      assert forall r :: 0 < r < |c.layers| ==> WorkerOk(c, s, AtFront, r);
      assert forall r :: 0 <= r < |c.layers| ==> ChannelOk(c, s, AtFront, r);
    } else {
      hide Sized, At, Apply, Enabled, StepsTaken;
      var before, last := steps[..|steps| - 1], steps[|steps| - 1];
      p := RunIsAt(c, before);
      var s := Exec(c, before);
      if Enabled(c, s, last) {
        OnlyMove(c, s, p, last);
        NotDone(c, s, p, last);
        MoveMoves(c, s, p);
        StepCounts(c, s, p);
        p := Moved(c, s, p);
      } else {
        NotEnabled(c, s, last);
      }
    }
  }

  lemma NotEnabled(c: Setup, s: System, step: Step)
    requires Shaped(c, s) && !Enabled(c, s, step)
    ensures Apply(c, s, step) == s
  {
  }

  lemma NotDone(c: Setup, s: System, p: Place, step: Step)
    requires Sized(c) && At(c, s, p) && Enabled(c, s, step)
    ensures s.front.phase != Done
  {
    hide Sent;
    match step
    case WorkReceive(r) => assert ChannelOk(c, s, p, r - 1);
    case WorkSend(r) => assert WorkerOk(c, s, p, r);
    case _ =>
  }

  /**
   * In every interleaving of a run without losses or timeouts: no error branch is reached; the
   * workers' counts fall along the ring and lie between the completed tokens and one more; every
   * result accepted for a token is the composition of all stages on its seed; and "done" means
   * every worker processed every token.
   */
  lemma {:induction false} PipelineIsCorrect(c: Setup, steps: seq<Step>, r: nat)
    requires Sized(c) && 0 < r < |c.layers|
    ensures
      var s := Exec(c, steps);
      && !s.front.phase.Broken? && s.workers[r].failure.None?
      && s.front.completed <= s.workers[r].processed <= s.front.completed + 1
      && (r + 1 < |c.layers| ==> s.workers[r + 1].processed <= s.workers[r].processed)
      && |s.front.accepted| == s.front.completed <= c.tokens
      && (forall t :: 0 <= t < s.front.completed ==> s.front.accepted[t] == Chain(c, t, |c.layers| - 1))
      && (s.front.phase == Done ==> s.front.completed == s.workers[r].processed == c.tokens)
  {
    var p := RunIsAt(c, steps);
    hide Exec, At, Chain, Sized;
    FrontFacts(c, Exec(c, steps), p);
    WorkerFacts(c, Exec(c, steps), p, r);
  }

  lemma {:induction false} FrontFacts(c: Setup, s: System, p: Place)
    requires At(c, s, p)
    ensures |s.front.accepted| == s.front.completed <= c.tokens && !s.front.phase.Broken?
    ensures forall t :: 0 <= t < s.front.completed ==> s.front.accepted[t] == Chain(c, t, |c.layers| - 1)
    ensures s.front.phase == Done ==> s.front.completed == c.tokens && p == AtFront
  {
    hide Chain, WorkerOk, ChannelOk;
  }

  lemma WorkerFacts(c: Setup, s: System, p: Place, r: nat)
    requires At(c, s, p) && 0 < r < |c.layers|
    ensures s.workers[r].failure.None?
    ensures s.front.completed <= s.workers[r].processed <= s.front.completed + 1
    ensures r + 1 < |c.layers| ==> s.workers[r + 1].processed <= s.workers[r].processed
    ensures p == AtFront ==> s.workers[r].processed == s.front.completed
  {
    hide Sent, FrontOk, ChannelOk;
    assert WorkerOk(c, s, p, r);
    if r + 1 < |c.layers| {
      assert WorkerOk(c, s, p, r + 1);
    }
  }

  function InFlight(s: System): nat {
    Messages(s.channels) + Holding(s.workers)
  }

  function Messages(channels: seq<seq<Msg>>): nat {
    if channels == [] then 0 else Messages(channels[..|channels| - 1]) + |channels[|channels| - 1]|
  }

  function Holding(workers: seq<Worker>): nat {
    if workers == [] then 0
    else Holding(workers[..|workers| - 1]) + if workers[|workers| - 1].held.Some? then 1 else 0
  }

  lemma {:induction false} MessagesAt(c: Setup, s: System, p: Place, n: nat)
    requires At(c, s, p) && n <= |c.layers|
    ensures Messages(s.channels[..n]) == if p.InChannel? && p.r < n then 1 else 0
  {
    hide Sent;
    if n > 0 {
      MessagesAt(c, s, p, n - 1);
      assert s.channels[..n][..n - 1] == s.channels[..n - 1];
      assert ChannelOk(c, s, p, n - 1);
    }
  }

  lemma {:induction false} HoldingAt(c: Setup, s: System, p: Place, n: nat)
    requires At(c, s, p) && 0 < n <= |c.layers| && s.workers[0].held.None?
    ensures Holding(s.workers[..n]) == if p.AtWorker? && p.r < n then 1 else 0
  {
    hide Sent;
    assert s.workers[..n][..n - 1] == s.workers[..n - 1];
    if n > 1 {
      HoldingAt(c, s, p, n - 1);
      assert WorkerOk(c, s, p, n - 1);
    } else {
      assert Holding(s.workers[..0]) == 0;
    }
  }

  lemma {:induction false} NobodyAtZero(c: Setup, steps: seq<Step>)
    requires 2 <= |c.layers| == |c.gigabytes|
    ensures Exec(c, steps).workers[0] == Worker(0, None, None)
  {
    if steps != [] {
      NobodyAtZero(c, steps[..|steps| - 1]);
      hide FrontSends, FrontAccepts, WorkerReceives, WorkerSends;
    }
  }

  /** At most one token is ever in flight, and none when the frontend is not waiting for one. */
  lemma {:induction false} OneTokenInFlight(c: Setup, steps: seq<Step>)
    requires Sized(c)
    ensures InFlight(Exec(c, steps)) == if Exec(c, steps).front.phase == Waiting then 1 else 0
  {
    var p := RunIsAt(c, steps);
    hide Exec, Sized, WorkerOk, ChannelOk;
    var s := Exec(c, steps);
    NobodyAtZero(c, steps);
    MessagesAt(c, s, p, |c.layers|);
    HoldingAt(c, s, p, |c.layers|);
    assert s.channels[..|c.layers|] == s.channels && s.workers[..|c.layers|] == s.workers;
  }

  /**
   * The pipeline never gets stuck and takes 2R steps a token: until "done" exactly one step is
   * enabled, and a run is done exactly when it has taken 2R * tokens + 1 steps.
   */
  lemma {:induction false} PipelineProgresses(c: Setup, steps: seq<Step>)
    requires Sized(c)
    ensures
      var s := Exec(c, steps);
      && (s.front.phase != Done ==> exists step :: Enabled(c, s, step))
      && (forall a, b :: Enabled(c, s, a) && Enabled(c, s, b) ==> a == b)
      && (s.front.phase == Done <==> Effective(c, steps) == 2 * |c.layers| * c.tokens + 1)
  {
    var p := RunIsAt(c, steps);
    hide Exec, Enabled, Effective;
    var s := Exec(c, steps);
    if s.front.phase != Done {
      MoveEnabled(c, s, p);
    }
    forall a, b | Enabled(c, s, a) && Enabled(c, s, b)
      ensures a == b
    {
      OnlyMove(c, s, p, a);
      OnlyMove(c, s, p, b);
    }
    StepsBelow(2 * |c.layers|, s.front.completed, c.tokens);
  }

  lemma StepsBelow(each: nat, done: nat, all: nat)
    requires done <= all
    ensures each * done <= each * all
    ensures done < all ==> each * done + each <= each * all
  {
    if done < all {
      assert each * (done + 1) <= each * all;
    }
  }
}
