/**
 * What a model computes when its layers are split over a ring. A value is a batch of rows, a
 * layer any function of a batch; the ranks run their wrapped layers concurrently, in any
 * interleaving, over first-in-first-out channels and one collective gather.
 */
module RingForward {
  import opened Base

  // ----- wrapping a rank's layers -----

  datatype Wrapped<!T> =
    | Plain(f: seq<T> -> seq<T>)
    | First(f: seq<T> -> seq<T>, r: int)
    | Last(f: seq<T> -> seq<T>, r: int, s: int)

  function Clamp(lo: int, x: int, hi: int): int {
    if x < lo then lo else if x > hi then hi else x
  }

  function AllPlain<T>(layers: seq<seq<T> -> seq<T>>): seq<Wrapped<T>> {
    seq(|layers|, i requires 0 <= i < |layers| => Plain(layers[i]))
  }

  // A layer range that is empty leaves the model as it was.
  function Parallel<T>(layers: seq<seq<T> -> seq<T>>, start: int, end: int, r: int, s: int): seq<Wrapped<T>> {
    var lo := Clamp(0, start, |layers|);
    var hi := Clamp(lo, end, |layers|);
    var subset := layers[lo..hi];
    var n := |subset|;
    if n == 0 then AllPlain(layers)
    else AllPlain(subset)[0 := First(subset[0], r)][n - 1 := Last(subset[n - 1], r, s)]
  }

  method PipelineAutoParallel<T>(layers: seq<seq<T> -> seq<T>>, start: int, end: int, r: int, s: int)
    returns (newLayers: seq<Wrapped<T>>)
    ensures newLayers == Parallel(layers, start, end, r, s)
  {
    if |layers| == 0 {
      return [];
    }
    var safeStart := if start < 0 then 0 else if start > |layers| then |layers| else start;
    var safeEnd := if end > |layers| then |layers| else end;
    if safeEnd < safeStart {
      safeEnd := safeStart;
    }
    var subset := layers[safeStart..safeEnd];
    if |subset| == 0 {
      return AllPlain(layers);
    }
    newLayers := AllPlain(subset);
    newLayers := newLayers[0 := First(subset[0], r)];
    // With a single layer this overwrites the wrapper that receives.
    newLayers := newLayers[|newLayers| - 1 := Last(subset[|subset| - 1], r, s)];
  }

  // ----- what calling the wrapped layers does -----

  datatype Action<!T> = Recv | Apply(f: seq<T> -> seq<T>) | Send | Post | Collect

  function Actions<T>(w: Wrapped<T>): seq<Action<T>> {
    match w
    case Plain(f) => [Apply(f)]
    case First(f, r) => (if r != 0 then [Recv] else []) + [Apply(f)]
    case Last(f, r, s) => [Apply(f)] + (if r != s - 1 then [Send] else []) + [Post, Collect]
  }

  function Program<T>(ws: seq<Wrapped<T>>): seq<Action<T>> {
    if ws == [] then [] else Program(ws[..|ws| - 1]) + Actions(ws[|ws| - 1])
  }

  function Applies<T>(layers: seq<seq<T> -> seq<T>>): seq<Action<T>> {
    seq(|layers|, i requires 0 <= i < |layers| => Apply(layers[i]))
  }

  // Only a shard of two or more layers keeps the wrapper that receives.
  predicate Receives(r: nat, n: nat) {
    r > 0 && n >= 2
  }

  function Sequence<T>(layers: seq<seq<T> -> seq<T>>, r: nat, s: nat): seq<Action<T>> {
    (if Receives(r, |layers|) then [Recv] else [])
    + Applies(layers)
    + (if r != s - 1 then [Send] else [])
    + [Post, Collect]
  }

  lemma {:induction false} ProgramSnoc<T>(ws: seq<Wrapped<T>>, w: Wrapped<T>)
    ensures Program(ws + [w]) == Program(ws) + Actions(w)
  {
    assert (ws + [w])[..|ws + [w]| - 1] == ws;
  }

  lemma {:induction false} ProgramOfPlain<T>(layers: seq<seq<T> -> seq<T>>)
    ensures Program(AllPlain(layers)) == Applies(layers)
  {
    if layers != [] {
      var n := |layers| - 1;
      ProgramOfPlain(layers[..n]);
      assert AllPlain(layers) == AllPlain(layers[..n]) + [Plain(layers[n])];
      ProgramSnoc(AllPlain(layers[..n]), Plain(layers[n]));
      assert Applies(layers) == Applies(layers[..n]) + [Apply(layers[n])];
    }
  }

  lemma {:induction false} ProgramOfFirst<T>(layers: seq<seq<T> -> seq<T>>, r: nat)
    requires layers != []
    ensures Program(AllPlain(layers)[0 := First(layers[0], r)])
            == (if r != 0 then [Recv] else []) + Applies(layers)
  {
    hide Program;
    var n := |layers| - 1;
    if n == 0 {
      assert AllPlain(layers)[0 := First(layers[0], r)] == [] + [First(layers[0], r)];
      ProgramSnoc([], First(layers[0], r));
      ProgramOfNone<T>();
      assert Applies(layers) == [Apply(layers[0])];
    } else {
      var head := AllPlain(layers[..n])[0 := First(layers[0], r)];
      ProgramOfFirst(layers[..n], r);
      assert AllPlain(layers)[0 := First(layers[0], r)] == head + [Plain(layers[n])];
      ProgramSnoc(head, Plain(layers[n]));
      AppliesSnoc(layers);
    }
  }

  lemma ProgramOfNone<T>()
    ensures Program<T>([]) == []
  {
  }

  lemma AppliesSnoc<T>(layers: seq<seq<T> -> seq<T>>)
    requires layers != []
    ensures Applies(layers) == Applies(layers[..|layers| - 1]) + [Apply(layers[|layers| - 1])]
  {
  }

  lemma ParallelShape<T>(layers: seq<seq<T> -> seq<T>>, start: nat, end: nat, r: nat, s: nat)
    requires start < end <= |layers|
    ensures |AllPlain(layers[start..end][..end - start - 1])| == end - start - 1
    ensures
      var subset, ws := layers[start..end], Parallel(layers, start, end, r, s);
      var n := |subset| - 1;
      ws == (if n == 0 then [] else AllPlain(subset[..n])[0 := First(subset[0], r)])
            + [Last(subset[n], r, s)]
  {
  }

  /** The wrapped shard of a rank receives, applies its layers, sends on, and gathers. */
  lemma WrappedProgram<T>(layers: seq<seq<T> -> seq<T>>, start: nat, end: nat, r: nat, s: nat)
    requires start < end <= |layers| && r < s
    ensures Program(Parallel(layers, start, end, r, s)) == Sequence(layers[start..end], r, s)
  {
    hide Program, Parallel, Applies, AllPlain;
    var subset := layers[start..end];
    var n := |subset| - 1;
    ParallelShape(layers, start, end, r, s);
    AppliesSnoc(subset);
    var front := if n == 0 then [] else AllPlain(subset[..n])[0 := First(subset[0], r)];
    ProgramSnoc(front, Last(subset[n], r, s));
    if n == 0 {
      ProgramOfNone<T>();
      NoApplies(subset[..0]);
    } else {
      ProgramOfFirst(subset[..n], r);
    }
  }

  lemma NoApplies<T>(layers: seq<seq<T> -> seq<T>>)
    requires layers == []
    ensures Applies(layers) == []
  {
  }

  // ----- the ring -----

  datatype Rank<T> = Rank(pc: nat, value: seq<T>)

  // channels[r] carries what rank r sent and rank r + 1 has not received.
  datatype Ring<T> = Ring(ranks: seq<Rank<T>>, channels: seq<seq<seq<T>>>, posted: seq<Option<seq<T>>>)

  predicate Shaped<T>(progs: seq<seq<Action<T>>>, s: Ring<T>) {
    |s.ranks| == |s.channels| == |s.posted| == |progs|
  }

  predicate AllPosted<T>(posted: seq<Option<seq<T>>>) {
    forall i :: 0 <= i < |posted| ==> posted[i].Some?
  }

  // All contributions one after another, in rank order.
  function Gathered<T>(posted: seq<Option<seq<T>>>): seq<T> {
    if posted == [] then []
    else
      var last := posted[|posted| - 1];
      Gathered(posted[..|posted| - 1]) + if last.Some? then last.value else []
  }

  function LastRows<T>(all: seq<T>, n: nat): seq<T> {
    if n <= |all| then all[|all| - n..] else all
  }

  predicate Enabled<T>(progs: seq<seq<Action<T>>>, s: Ring<T>, r: nat)
    requires Shaped(progs, s) && r < |progs|
  {
    var pc := s.ranks[r].pc;
    pc < |progs[r]| &&
    match progs[r][pc]
    case Recv => r > 0 && s.channels[r - 1] != []
    case Collect => AllPosted(s.posted)
    case _ => true
  }

  // A rank that cannot act, or does not exist, leaves the ring as it is.
  function Step<T>(progs: seq<seq<Action<T>>>, s: Ring<T>, r: nat): (s': Ring<T>)
    requires Shaped(progs, s)
    ensures Shaped(progs, s')
  {
    if r >= |progs| || !Enabled(progs, s, r) then s
    else
      var Rank(pc, v) := s.ranks[r];
      match progs[r][pc]
      case Recv =>
        Ring(s.ranks[r := Rank(pc + 1, s.channels[r - 1][0])],
             s.channels[r - 1 := s.channels[r - 1][1..]], s.posted)
      case Apply(f) => s.(ranks := s.ranks[r := Rank(pc + 1, f(v))])
      case Send => s.(ranks := s.ranks[r := Rank(pc + 1, v)], channels := s.channels[r := s.channels[r] + [v]])
      case Post => s.(ranks := s.ranks[r := Rank(pc + 1, v)], posted := s.posted[r := Some(v)])
      case Collect => s.(ranks := s.ranks[r := Rank(pc + 1, LastRows(Gathered(s.posted), |v|))])
  }

  // Every rank is called with the same input.
  function Begin<T>(n: nat, x: seq<T>): Ring<T> {
    Ring(seq(n, i => Rank(0, x)), seq(n, i => []), seq(n, i => None))
  }

  function Run<T>(progs: seq<seq<Action<T>>>, x: seq<T>, schedule: seq<nat>): (s: Ring<T>)
    ensures Shaped(progs, s)
  {
    if schedule == [] then Begin(|progs|, x)
    else Step(progs, Run(progs, x, schedule[..|schedule| - 1]), schedule[|schedule| - 1])
  }

  predicate Finished<T>(progs: seq<seq<Action<T>>>, s: Ring<T>, r: nat)
    requires Shaped(progs, s) && r < |progs|
  {
    s.ranks[r].pc == |progs[r]|
  }

  // ----- what it computes -----

  function Fold<T>(layers: seq<seq<T> -> seq<T>>, x: seq<T>): seq<T> {
    if layers == [] then x else layers[|layers| - 1](Fold(layers[..|layers| - 1], x))
  }

  ghost predicate KeepsBatch<T(!new)>(layers: seq<seq<T> -> seq<T>>) {
    forall i, x :: 0 <= i < |layers| ==> |layers[i](x)| == |x|
  }

  // shards[r] are the layers of rank r.
  function Programs<T>(shards: seq<seq<seq<T> -> seq<T>>>): (progs: seq<seq<Action<T>>>)
    ensures |progs| == |shards|
  {
    seq(|shards|, r requires 0 <= r < |shards| => Sequence(shards[r], r, |shards|))
  }

  function Input<T>(shards: seq<seq<seq<T> -> seq<T>>>, x: seq<T>, r: nat): seq<T>
    requires r < |shards|
    decreases r, 0
  {
    if Receives(r, |shards[r]|) then Output(shards, x, r - 1) else x
  }

  // What rank r holds after its layers.
  function Output<T>(shards: seq<seq<seq<T> -> seq<T>>>, x: seq<T>, r: nat): seq<T>
    requires r < |shards|
    decreases r, 1
  {
    Fold(shards[r], Input(shards, x, r))
  }

  // The step at which a rank's layers begin, and the step at which it posts.
  function Lead<T>(shards: seq<seq<seq<T> -> seq<T>>>, r: nat): nat
    requires r < |shards|
  {
    if Receives(r, |shards[r]|) then 1 else 0
  }

  function PostAt<T>(shards: seq<seq<seq<T> -> seq<T>>>, r: nat): nat
    requires r < |shards|
  {
    Lead(shards, r) + |shards[r]| + if r != |shards| - 1 then 1 else 0
  }

  // The value rank r holds before its step `pc`.
  function Held<T>(shards: seq<seq<seq<T> -> seq<T>>>, x: seq<T>, r: nat, pc: nat): seq<T>
    requires r < |shards|
  {
    var lead := Lead(shards, r);
    if pc < lead then x
    else if pc <= lead + |shards[r]| then Fold(shards[r][..pc - lead], Input(shards, x, r))
    else if pc < PostAt(shards, r) + 2 then Output(shards, x, r)
    else Output(shards, x, |shards| - 1)
  }

  predicate Sent<T>(shards: seq<seq<seq<T> -> seq<T>>>, s: Ring<T>, r: nat)
    requires r < |shards| == |s.ranks|
  {
    r != |shards| - 1 && s.ranks[r].pc > Lead(shards, r) + |shards[r]|
  }

  predicate Got<T>(shards: seq<seq<seq<T> -> seq<T>>>, s: Ring<T>, r: nat)
    requires r < |shards| == |s.ranks|
  {
    Receives(r, |shards[r]|) && s.ranks[r].pc >= 1
  }

  ghost predicate RankOk<T>(shards: seq<seq<seq<T> -> seq<T>>>, x: seq<T>, s: Ring<T>, r: nat)
    requires Shaped(Programs(shards), s) && r < |shards|
  {
    && s.ranks[r].pc <= PostAt(shards, r) + 2
    && s.ranks[r].value == Held(shards, x, r, s.ranks[r].pc)
    && s.posted[r] == (if s.ranks[r].pc > PostAt(shards, r) then Some(Output(shards, x, r)) else None)
    && (s.ranks[r].pc == PostAt(shards, r) + 2 ==> AllPosted(s.posted))
  }

  ghost predicate ChannelOk<T>(shards: seq<seq<seq<T> -> seq<T>>>, x: seq<T>, s: Ring<T>, r: nat)
    requires Shaped(Programs(shards), s) && r < |shards|
  {
    && s.channels[r] == (if Sent(shards, s, r) && !(r + 1 < |shards| && Got(shards, s, r + 1))
                         then [Output(shards, x, r)] else [])
    && (r + 1 < |shards| && Got(shards, s, r + 1) ==> Sent(shards, s, r))
  }

  ghost predicate Ok<T>(shards: seq<seq<seq<T> -> seq<T>>>, x: seq<T>, s: Ring<T>)
    requires Shaped(Programs(shards), s)
  {
    forall r :: 0 <= r < |shards| ==> RankOk(shards, x, s, r) && ChannelOk(shards, x, s, r)
  }

  ghost predicate Valid<T(!new)>(shards: seq<seq<seq<T> -> seq<T>>>) {
    shards != [] && forall r :: 0 <= r < |shards| ==> shards[r] != [] && KeepsBatch(shards[r])
  }

  lemma ActionAt<T>(shards: seq<seq<seq<T> -> seq<T>>>, r: nat, pc: nat)
    requires r < |shards| && pc < PostAt(shards, r) + 2
    ensures |Programs(shards)[r]| == PostAt(shards, r) + 2
    ensures
      var lead, n := Lead(shards, r), |shards[r]|;
      var a := Programs(shards)[r][pc];
      && (pc < lead ==> a == Recv)
      && (lead <= pc < lead + n ==> a == Apply(shards[r][pc - lead]))
      && (lead + n <= pc < PostAt(shards, r) ==> a == Send)
      && (pc == PostAt(shards, r) ==> a == Post)
      && (pc == PostAt(shards, r) + 1 ==> a == Collect)
  {
  }

  lemma {:induction false} FoldOne<T>(layers: seq<seq<T> -> seq<T>>, k: nat, x: seq<T>)
    requires k < |layers|
    ensures Fold(layers[..k + 1], x) == layers[k](Fold(layers[..k], x))
  {
    assert layers[..k + 1][..k] == layers[..k];
  }

  lemma {:induction false} FoldKeepsBatch<T(!new)>(layers: seq<seq<T> -> seq<T>>, x: seq<T>)
    requires KeepsBatch(layers)
    ensures |Fold(layers, x)| == |x|
  {
    if layers != [] {
      FoldKeepsBatch(layers[..|layers| - 1], x);
    }
  }

  lemma {:induction false} OutputKeepsBatch<T(!new)>(shards: seq<seq<seq<T> -> seq<T>>>, x: seq<T>, r: nat)
    requires Valid(shards) && r < |shards|
    ensures |Output(shards, x, r)| == |x|
  {
    if Receives(r, |shards[r]|) {
      OutputKeepsBatch(shards, x, r - 1);
    }
    FoldKeepsBatch(shards[r], Input(shards, x, r));
  }

  lemma GatheredEnds<T>(posted: seq<Option<seq<T>>>, n: nat)
    requires posted != [] && posted[|posted| - 1].Some? && |posted[|posted| - 1].value| == n
    ensures LastRows(Gathered(posted), n) == posted[|posted| - 1].value
  {
  }

  // The rank that acts holds what it should, and contributes its output when it posts.
  lemma StepRank<T(!new)>(shards: seq<seq<seq<T> -> seq<T>>>, x: seq<T>, s: Ring<T>, r: nat)
    requires Valid(shards) && Shaped(Programs(shards), s) && Ok(shards, x, s)
    requires r < |shards| && Enabled(Programs(shards), s, r)
    ensures RankOk(shards, x, Step(Programs(shards), s, r), r)
  {
    NotYetDone(shards, x, s, r);
    hide Programs, Sequence, Output, Input, Gathered, Held, PostAt, Lead;
    var pc := s.ranks[r].pc;
    ActionAt(shards, r, pc);
    HeldNext(shards, x, r, pc);
    ProgramsLength(shards);
    match Programs(shards)[r][pc]
    case Recv =>
      RecvRank(shards, x, s, r);
    case Collect =>
      CollectRank(shards, x, s, r);
    case _ =>
  }

  lemma NotYetDone<T(!new)>(shards: seq<seq<seq<T> -> seq<T>>>, x: seq<T>, s: Ring<T>, r: nat)
    requires Valid(shards) && Shaped(Programs(shards), s) && Ok(shards, x, s)
    requires r < |shards| && Enabled(Programs(shards), s, r)
    ensures RankOk(shards, x, s, r) && s.ranks[r].pc < PostAt(shards, r) + 2
  {
    ActionAt(shards, r, 0);
    hide Programs;
    assert RankOk(shards, x, s, r);
  }

  // How the value a rank should hold changes over its step `pc`.
  lemma HeldNext<T>(shards: seq<seq<seq<T> -> seq<T>>>, x: seq<T>, r: nat, pc: nat)
    requires r < |shards| && pc < PostAt(shards, r) + 2
    ensures
      var lead, n := Lead(shards, r), |shards[r]|;
      var now, next := Held(shards, x, r, pc), Held(shards, x, r, pc + 1);
      && (lead <= pc < lead + n ==> next == shards[r][pc - lead](now))
      && (lead + n <= pc <= PostAt(shards, r) ==> next == now == Output(shards, x, r))
      && (pc == PostAt(shards, r) + 1 ==> next == Output(shards, x, |shards| - 1))
  {
    var lead, n := Lead(shards, r), |shards[r]|;
    hide Output, Input;
    OutputIs(shards, x, r);
    assert shards[r][..n] == shards[r];
    if lead <= pc < lead + n {
      FoldOne(shards[r], pc - lead, Input(shards, x, r));
    }
  }

  lemma {:induction false} OutputIs<T>(shards: seq<seq<seq<T> -> seq<T>>>, x: seq<T>, r: nat)
    requires r < |shards|
    ensures Output(shards, x, r) == Fold(shards[r], Input(shards, x, r))
  {
  }

  lemma {:induction false} RecvRank<T(!new)>(shards: seq<seq<seq<T> -> seq<T>>>, x: seq<T>, s: Ring<T>, r: nat)
    requires Valid(shards) && Shaped(Programs(shards), s) && Ok(shards, x, s)
    requires r < |shards| && s.ranks[r].pc == 0 && Receives(r, |shards[r]|)
    requires s.channels[r - 1] != []
    ensures s.channels[r - 1] == [Output(shards, x, r - 1)]
    ensures Held(shards, x, r, 1) == Output(shards, x, r - 1)
  {
    assert ChannelOk(shards, x, s, r - 1);
    assert shards[r][..0] == [];
  }

  lemma {:induction false} CollectRank<T(!new)>(shards: seq<seq<seq<T> -> seq<T>>>, x: seq<T>, s: Ring<T>, r: nat)
    requires Valid(shards) && Shaped(Programs(shards), s) && Ok(shards, x, s)
    requires r < |shards| && s.ranks[r].pc == PostAt(shards, r) + 1 && AllPosted(s.posted)
    ensures LastRows(Gathered(s.posted), |s.ranks[r].value|) == Output(shards, x, |shards| - 1)
  {
    var last := |shards| - 1;
    assert RankOk(shards, x, s, r) && RankOk(shards, x, s, last);
    assert shards[r][..|shards[r]|] == shards[r];
    OutputKeepsBatch(shards, x, r);
    OutputKeepsBatch(shards, x, last);
    hide Output, Gathered;
    GatheredEnds(s.posted, |x|);
  }

  lemma StepOthers<T(!new)>(shards: seq<seq<seq<T> -> seq<T>>>, x: seq<T>, s: Ring<T>, r: nat, q: nat)
    requires Valid(shards) && Shaped(Programs(shards), s) && Ok(shards, x, s)
    requires r < |shards| && q < |shards| && q != r && Enabled(Programs(shards), s, r)
    ensures RankOk(shards, x, Step(Programs(shards), s, r), q)
  {
    hide Programs, Sequence, Held, Output, Gathered;
    ProgramsLength(shards);
    assert RankOk(shards, x, s, q);
  }

  // What the channel out of rank q carries depends on ranks q and q + 1 only.
  lemma StepChannels<T(!new)>(shards: seq<seq<seq<T> -> seq<T>>>, x: seq<T>, s: Ring<T>, r: nat, q: nat)
    requires Valid(shards) && Shaped(Programs(shards), s) && Ok(shards, x, s)
    requires r < |shards| && q < |shards| && Enabled(Programs(shards), s, r)
    ensures ChannelOk(shards, x, Step(Programs(shards), s, r), q)
  {
    NotYetDone(shards, x, s, r);
    hide Programs, Sequence, Output, Gathered, Held, Input;
    var pc := s.ranks[r].pc;
    ActionAt(shards, r, pc);
    ProgramsLength(shards);
    assert ChannelOk(shards, x, s, q);
    if q == r {
      SendStep(shards, x, s, r);
    } else if q + 1 == r {
      assert ChannelOk(shards, x, s, r);
    }
  }

  lemma SendStep<T(!new)>(shards: seq<seq<seq<T> -> seq<T>>>, x: seq<T>, s: Ring<T>, r: nat)
    requires Valid(shards) && Shaped(Programs(shards), s) && Ok(shards, x, s)
    requires r < |shards| && Enabled(Programs(shards), s, r)
    ensures ChannelOk(shards, x, Step(Programs(shards), s, r), r)
  {
    NotYetDone(shards, x, s, r);
    hide Programs, Sequence, Output, Gathered, Held, Input;
    var pc := s.ranks[r].pc;
    ActionAt(shards, r, pc);
    HeldNext(shards, x, r, pc);
    ProgramsLength(shards);
    assert ChannelOk(shards, x, s, r);
  }

  lemma StepKeepsOk<T(!new)>(shards: seq<seq<seq<T> -> seq<T>>>, x: seq<T>, s: Ring<T>, r: nat)
    requires Valid(shards) && Shaped(Programs(shards), s) && Ok(shards, x, s)
    ensures Ok(shards, x, Step(Programs(shards), s, r))
  {
    hide Programs, RankOk, ChannelOk;
    ProgramsLength(shards);
    if r < |shards| && Enabled(Programs(shards), s, r) {
      StepRank(shards, x, s, r);
      forall q | 0 <= q < |shards|
        ensures RankOk(shards, x, Step(Programs(shards), s, r), q)
        ensures ChannelOk(shards, x, Step(Programs(shards), s, r), q)
      {
        if q != r {
          StepOthers(shards, x, s, r, q);
        }
        StepChannels(shards, x, s, r, q);
      }
    }
  }

  lemma ProgramsLength<T>(shards: seq<seq<seq<T> -> seq<T>>>)
    ensures |Programs(shards)| == |shards|
  {
  }

  lemma {:induction false} RunIsOk<T(!new)>(shards: seq<seq<seq<T> -> seq<T>>>, x: seq<T>, schedule: seq<nat>)
    requires Valid(shards)
    ensures Ok(shards, x, Run(Programs(shards), x, schedule))
  {
    if schedule != [] {
      hide Ok, Step, Programs;
      RunIsOk(shards, x, schedule[..|schedule| - 1]);
      StepKeepsOk(shards, x, Run(Programs(shards), x, schedule[..|schedule| - 1]), schedule[|schedule| - 1]);
    } else {
      forall r | 0 <= r < |shards|
        ensures RankOk(shards, x, Begin(|shards|, x), r)
      {
        assert shards[r][..0] == [];
      }
    }
  }

  lemma FinishedAt<T(!new)>(shards: seq<seq<seq<T> -> seq<T>>>, s: Ring<T>, r: nat)
    requires Valid(shards) && Shaped(Programs(shards), s) && r < |shards|
    ensures Finished(Programs(shards), s, r) <==> s.ranks[r].pc == PostAt(shards, r) + 2
  {
    ActionAt(shards, r, 0);
  }

  /** However the ranks interleave, every rank that finishes returns the last rank's output. */
  lemma {:induction false} RanksAgree<T(!new)>(
    shards: seq<seq<seq<T> -> seq<T>>>, x: seq<T>, schedule: seq<nat>, r: nat)
    requires Valid(shards) && r < |shards|
    requires Finished(Programs(shards), Run(Programs(shards), x, schedule), r)
    ensures Run(Programs(shards), x, schedule).ranks[r].value == Output(shards, x, |shards| - 1)
  {
    hide Programs, Run, Output;
    var s := Run(Programs(shards), x, schedule);
    RunIsOk(shards, x, schedule);
    FinishedAt(shards, s, r);
    assert RankOk(shards, x, s, r);
  }

  // A rank that has not posted and is not waiting to receive can act.
  lemma CanAct<T(!new)>(shards: seq<seq<seq<T> -> seq<T>>>, x: seq<T>, s: Ring<T>, r: nat)
    requires Valid(shards) && Shaped(Programs(shards), s) && Ok(shards, x, s) && r < |shards|
    requires s.ranks[r].pc <= PostAt(shards, r)
    requires s.ranks[r].pc < Lead(shards, r) ==> s.posted[r - 1].Some?
    ensures Enabled(Programs(shards), s, r)
  {
    ActionAt(shards, r, s.ranks[r].pc);
    hide Programs;
    if s.ranks[r].pc < Lead(shards, r) {
      assert RankOk(shards, x, s, r - 1) && ChannelOk(shards, x, s, r - 1);
    }
  }

  /** The ring never deadlocks: until every rank has finished, some rank can act. */
  lemma {:induction false} RingProgresses<T(!new)>(shards: seq<seq<seq<T> -> seq<T>>>, x: seq<T>, schedule: seq<nat>)
    requires Valid(shards)
    requires exists r :: 0 <= r < |shards| && !Finished(Programs(shards), Run(Programs(shards), x, schedule), r)
    ensures exists r :: 0 <= r < |shards| && Enabled(Programs(shards), Run(Programs(shards), x, schedule), r)
  {
    hide Programs, Run;
    ProgramsLength(shards);
    var s := Run(Programs(shards), x, schedule);
    RunIsOk(shards, x, schedule);
    var r :| 0 <= r < |shards| && !Finished(Programs(shards), s, r);
    var q := FirstUnposted(shards, s);
    if q < |shards| {
      assert RankOk(shards, x, s, q);
      CanAct(shards, x, s, q);
    } else {
      assert RankOk(shards, x, s, r);
      FinishedAt(shards, s, r);
      ActionAt(shards, r, s.ranks[r].pc);
      assert AllPosted(s.posted);
      assert Enabled(Programs(shards), s, r);
    }
  }

  lemma FirstUnposted<T(!new)>(shards: seq<seq<seq<T> -> seq<T>>>, s: Ring<T>) returns (q: nat)
    requires Shaped(Programs(shards), s)
    ensures q <= |shards| && forall i :: 0 <= i < q ==> s.posted[i].Some?
    ensures q < |shards| ==> s.posted[q].None?
  {
    q := 0;
    while q < |shards| && s.posted[q].Some?
      invariant q <= |shards| && forall i :: 0 <= i < q ==> s.posted[i].Some?
    {
      q := q + 1;
    }
  }

  // ----- every run can be completed -----

  ghost predicate InPrograms<T>(progs: seq<seq<Action<T>>>, s: Ring<T>)
    requires Shaped(progs, s)
  {
    forall r :: 0 <= r < |progs| ==> s.ranks[r].pc <= |progs[r]|
  }

  // The actions still to be taken.
  function Remaining<T>(progs: seq<seq<Action<T>>>, s: Ring<T>): int
    requires Shaped(progs, s)
  {
    Sum(seq(|progs|, r requires 0 <= r < |progs| => |progs[r]| - s.ranks[r].pc))
  }

  lemma StepSpends<T>(progs: seq<seq<Action<T>>>, s: Ring<T>, r: nat)
    requires Shaped(progs, s) && InPrograms(progs, s) && r < |progs| && Enabled(progs, s, r)
    ensures InPrograms(progs, Step(progs, s, r))
    ensures 0 <= Remaining(progs, Step(progs, s, r)) < Remaining(progs, s)
  {
    var s' := Step(progs, s, r);
    StepAdvances(progs, s, r);
    hide Sum, Step, Enabled;
    var was := seq(|progs|, q requires 0 <= q < |progs| => |progs[q]| - s.ranks[q].pc);
    var now := seq(|progs|, q requires 0 <= q < |progs| => |progs[q]| - s'.ranks[q].pc);
    assert now == was[r := was[r] - 1];
    SumUpdate(was, r, was[r] - 1);
    SumNonNegative(now);
  }

  lemma StepAdvances<T>(progs: seq<seq<Action<T>>>, s: Ring<T>, r: nat)
    requires Shaped(progs, s) && r < |progs| && Enabled(progs, s, r)
    ensures
      var s' := Step(progs, s, r);
      && s.ranks[r].pc < |progs[r]| && s'.ranks[r].pc == s.ranks[r].pc + 1
      && forall q :: 0 <= q < |progs| && q != r ==> s'.ranks[q] == s.ranks[q]
  {
  }

  lemma {:induction false} RunInPrograms<T>(progs: seq<seq<Action<T>>>, x: seq<T>, schedule: seq<nat>)
    ensures InPrograms(progs, Run(progs, x, schedule))
  {
    hide Step, Enabled;
    if schedule != [] {
      var s, r := Run(progs, x, schedule[..|schedule| - 1]), schedule[|schedule| - 1];
      RunInPrograms(progs, x, schedule[..|schedule| - 1]);
      if r < |progs| && Enabled(progs, s, r) {
        StepSpends(progs, s, r);
      } else {
        StepStays(progs, s, r);
      }
    }
  }

  lemma StepStays<T>(progs: seq<seq<Action<T>>>, s: Ring<T>, r: nat)
    requires Shaped(progs, s) && (r >= |progs| || !Enabled(progs, s, r))
    ensures Step(progs, s, r) == s
  {
  }

  // Every run can be continued until no rank can act.
  lemma {:induction false} RunsDry<T>(progs: seq<seq<Action<T>>>, x: seq<T>, schedule: seq<nat>)
    returns (more: seq<nat>)
    ensures schedule <= more
    ensures forall r :: 0 <= r < |progs| ==> !Enabled(progs, Run(progs, x, more), r)
    decreases Remaining(progs, Run(progs, x, schedule))
  {
    hide Enabled, Step, Remaining;
    var s := Run(progs, x, schedule);
    if r :| 0 <= r < |progs| && Enabled(progs, s, r) {
      RunInPrograms(progs, x, schedule);
      StepSpends(progs, s, r);
      assert (schedule + [r])[..|schedule|] == schedule;
      more := RunsDry(progs, x, schedule + [r]);
    } else {
      more := schedule;
    }
  }

  lemma RunsToTheEnd<T(!new)>(shards: seq<seq<seq<T> -> seq<T>>>, x: seq<T>) returns (schedule: seq<nat>)
    requires Valid(shards)
    ensures forall r :: 0 <= r < |shards| ==> Finished(Programs(shards), Run(Programs(shards), x, schedule), r)
  {
    hide Valid, Run, Programs, Enabled, Finished;
    ProgramsLength(shards);
    schedule := RunsDry(Programs(shards), x, []);
    var s := Run(Programs(shards), x, schedule);
    if exists r :: 0 <= r < |shards| && !Finished(Programs(shards), s, r) {
      RingProgresses(shards, x, schedule);
      assert false;
    }
  }

  // ----- the split computes what the whole model computes -----

  function Concat<A>(s: seq<seq<A>>): seq<A> {
    if s == [] then [] else Concat(s[..|s| - 1]) + s[|s| - 1]
  }

  lemma {:induction false} FoldConcat<T>(a: seq<seq<T> -> seq<T>>, b: seq<seq<T> -> seq<T>>, x: seq<T>)
    ensures Fold(a + b, x) == Fold(b, Fold(a, x))
  {
    if b == [] {
      assert a + b == a;
    } else {
      assert (a + b)[..|a + b| - 1] == a + b[..|b| - 1];
      FoldConcat(a, b[..|b| - 1], x);
    }
  }

  lemma {:induction false} OutputIsFold<T(!new)>(shards: seq<seq<seq<T> -> seq<T>>>, x: seq<T>, r: nat)
    requires r < |shards| && forall q :: 0 < q <= r ==> |shards[q]| >= 2
    ensures Output(shards, x, r) == Fold(Concat(shards[..r + 1]), x)
  {
    assert shards[..r + 1][..r] == shards[..r];
    FoldConcat(Concat(shards[..r]), shards[r], x);
    if r > 0 {
      OutputIsFold(shards, x, r - 1);
    } else {
      assert Concat(shards[..0]) == [];
    }
  }

  /**
   * When every rank but the first holds two or more layers, the wrapped shards return on every
   * rank what the unsplit model returns: the fold of all its layers in order.
   */
  lemma {:induction false} SplitComputesTheModel<T(!new)>(
    shards: seq<seq<seq<T> -> seq<T>>>, x: seq<T>, schedule: seq<nat>, r: nat)
    requires Valid(shards) && r < |shards|
    requires forall q :: 0 < q < |shards| ==> |shards[q]| >= 2
    requires Finished(Programs(shards), Run(Programs(shards), x, schedule), r)
    ensures Run(Programs(shards), x, schedule).ranks[r].value == Fold(Concat(shards), x)
  {
    RanksAgree(shards, x, schedule, r);
    OutputIsFold(shards, x, |shards| - 1);
    assert shards[..|shards|] == shards;
  }

  // ----- and exactly then -----

  const AddOne: seq<int> -> seq<int> := v => seq(|v|, i requires 0 <= i < |v| => v[i] + 1)

  function Ones(sizes: seq<nat>): seq<seq<seq<int> -> seq<int>>> {
    seq(|sizes|, r requires 0 <= r < |sizes| => seq(sizes[r], i => AddOne))
  }

  lemma {:induction false} FoldOnes(n: nat, v: int)
    ensures Fold(seq(n, i => AddOne), [v]) == [v + n]
  {
    if n > 0 {
      assert seq(n, i => AddOne)[..n - 1] == seq(n - 1, i => AddOne);
      FoldOnes(n - 1, v);
      assert AddOne([v + n - 1]) == [v + n];
    }
  }

  function Layers(sizes: seq<nat>): nat {
    if sizes == [] then 0 else Layers(sizes[..|sizes| - 1]) + sizes[|sizes| - 1]
  }

  lemma {:induction false} ConcatOnes(sizes: seq<nat>)
    ensures Concat(Ones(sizes)) == seq(Layers(sizes), i => AddOne)
  {
    if sizes != [] {
      ConcatOnes(sizes[..|sizes| - 1]);
      assert Ones(sizes)[..|sizes| - 1] == Ones(sizes[..|sizes| - 1]);
    }
  }

  // A one-layer rank above 0 forgets what the ranks before it computed.
  lemma {:induction false} OnesOutput(sizes: seq<nat>, r: nat)
    requires r < |sizes| && forall q :: 0 <= q < |sizes| ==> sizes[q] > 0
    ensures |Output(Ones(sizes), [0], r)| == 1
    ensures Output(Ones(sizes), [0], r)[0] <= Layers(sizes[..r + 1])
    ensures (exists q :: 0 < q <= r && sizes[q] == 1) ==>
              Output(Ones(sizes), [0], r)[0] < Layers(sizes[..r + 1])
  {
    var shards := Ones(sizes);
    assert sizes[..r + 1][..r] == sizes[..r];
    if r > 0 {
      OnesOutput(sizes, r - 1);
      LayersPositive(sizes, r);
    } else {
      assert Layers(sizes[..0]) == 0;
    }
    FoldOnes(sizes[r], Input(shards, [0], r)[0]);
    assert Input(shards, [0], r) == [Input(shards, [0], r)[0]];
  }

  lemma {:induction false} LayersPositive(sizes: seq<nat>, r: nat)
    requires 0 < r <= |sizes| && forall q :: 0 <= q < |sizes| ==> sizes[q] > 0
    ensures Layers(sizes[..r]) > 0
  {
    assert sizes[..r][..r - 1] == sizes[..r - 1];
  }

  // A rank that finishes returns the fold of all the layers.
  ghost predicate Returns<T>(shards: seq<seq<seq<T> -> seq<T>>>, x: seq<T>, schedule: seq<nat>, r: nat)
    requires r < |shards|
  {
    var s := Run(Programs(shards), x, schedule);
    Finished(Programs(shards), s, r) ==> s.ranks[r].value == Fold(Concat(shards), x)
  }

  // With these shard sizes the wrapped ring computes the unsplit model, whatever the layers, the
  // input and the interleaving, on every rank.
  ghost predicate Faithful(sizes: seq<nat>) {
    forall shards: seq<seq<seq<int> -> seq<int>>>, x, schedule, r: nat ::
      Valid(shards) && r < |shards| == |sizes| && (forall q :: 0 <= q < |sizes| ==> |shards[q]| == sizes[q])
      ==> Returns(shards, x, schedule, r)
  }

  /**
   * A split is faithful to every model exactly when no rank above 0 holds a single layer: the
   * wrapper that receives is then overwritten, and the rank computes on the raw input.
   */
  lemma FaithfulIffNoSingletons(sizes: seq<nat>)
    requires sizes != [] && forall r :: 0 <= r < |sizes| ==> sizes[r] > 0
    ensures Faithful(sizes) <==> forall r :: 0 < r < |sizes| ==> sizes[r] >= 2
  {
    hide Output, Concat, Fold, Valid, Run, Programs;
    if exists r :: 0 < r < |sizes| && sizes[r] < 2 {
      var r :| 0 < r < |sizes| && sizes[r] < 2;
      SingletonForgets(sizes, r);
    } else {
      forall shards: seq<seq<seq<int> -> seq<int>>>, x, schedule, r: nat |
        Valid(shards) && r < |shards| == |sizes| && forall q :: 0 <= q < |sizes| ==> |shards[q]| == sizes[q]
        ensures Returns(shards, x, schedule, r)
      {
        if Finished(Programs(shards), Run(Programs(shards), x, schedule), r) {
          SplitComputesTheModel(shards, x, schedule, r);
        }
      }
    }
  }

  // A run to the end in which the sum of all layers comes out too small on every rank.
  lemma OnesFallShort(sizes: seq<nat>, r: nat) returns (schedule: seq<nat>)
    requires 0 < r < |sizes| && sizes[r] == 1 && forall q :: 0 <= q < |sizes| ==> sizes[q] > 0
    ensures Valid(Ones(sizes))
    ensures
      forall q :: 0 <= q < |sizes| ==>
        var s := Run(Programs(Ones(sizes)), [0], schedule);
        && Finished(Programs(Ones(sizes)), s, q)
        && s.ranks[q].value != Fold(Concat(Ones(sizes)), [0])
  {
    hide Output, Concat, Fold, Valid, Run, Programs, Ones;
    var n, shards := |sizes| - 1, Ones(sizes);
    OnesAreValid(sizes);
    assert sizes[..n + 1] == sizes;
    OnesOutput(sizes, n);
    ConcatOnes(sizes);
    FoldOnes(Layers(sizes), 0);
    schedule := RunsToTheEnd(shards, [0]);
    forall q | 0 <= q < |sizes|
      ensures
        var s := Run(Programs(shards), [0], schedule);
        Finished(Programs(shards), s, q) && s.ranks[q].value != Fold(Concat(shards), [0])
    {
      RanksAgree(shards, [0], schedule, q);
    }
  }

  lemma SingletonForgets(sizes: seq<nat>, r: nat)
    requires 0 < r < |sizes| && sizes[r] == 1 && forall q :: 0 <= q < |sizes| ==> sizes[q] > 0
    ensures !Faithful(sizes)
  {
    hide Output, Concat, Fold, Valid, Run, Programs, Ones;
    var schedule := OnesFallShort(sizes, r);
    OnesAreValid(sizes);
    assert !Returns(Ones(sizes), [0], schedule, 0);
  }

  lemma OnesAreValid(sizes: seq<nat>)
    requires sizes != [] && forall r :: 0 <= r < |sizes| ==> sizes[r] > 0
    ensures Valid(Ones(sizes))
    ensures |Ones(sizes)| == |sizes| && forall r :: 0 <= r < |sizes| ==> |Ones(sizes)[r]| == sizes[r]
  {
    forall r | 0 <= r < |sizes|
      ensures Ones(sizes)[r] != [] && KeepsBatch(Ones(sizes)[r])
    {
      assert |Ones(sizes)[r]| == sizes[r];
    }
  }
}
