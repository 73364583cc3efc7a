/** When a ring of wrapped shards gets stuck: what ranges without layers do to the other ranks. */
module RingStalls {
  import opened Base
  import opened RingForward

  // The layers a rank is told to hold; nothing keeps the two ends in order or inside the list.
  datatype Cut = Cut(start: int, end: int)

  function Low(cut: Cut, n: nat): (lo: nat)
    ensures lo <= n
  {
    Clamp(0, cut.start, n)
  }

  function High(cut: Cut, n: nat): (hi: nat)
    ensures Low(cut, n) <= hi <= n
  {
    Clamp(Low(cut, n), cut.end, n)
  }

  // Nothing of the range lies inside a model of n layers.
  predicate IsEmpty(cut: Cut, n: nat) {
    Low(cut, n) == High(cut, n)
  }

  // A range is empty inside a model when it ends where it starts or before, or lies outside.
  lemma EmptyWhen(cut: Cut, n: nat)
    ensures IsEmpty(cut, n) <==> n == 0 || cut.end <= cut.start || cut.start >= n || cut.end <= 0
  {
  }

  // What each rank runs when it wraps the layers of its range.
  function RangePrograms<T>(layers: seq<seq<T> -> seq<T>>, cuts: seq<Cut>): (progs: seq<seq<Action<T>>>)
    ensures |progs| == |cuts|
  {
    seq(|cuts|, i requires 0 <= i < |cuts| => Program(Parallel(layers, cuts[i].start, cuts[i].end, i, |cuts|)))
  }

  ghost function Slices<T>(layers: seq<seq<T> -> seq<T>>, cuts: seq<Cut>): (shards: seq<seq<seq<T> -> seq<T>>>)
    ensures |shards| == |cuts|
  {
    seq(|cuts|, i requires 0 <= i < |cuts| => layers[Low(cuts[i], |layers|)..High(cuts[i], |layers|)])
  }

  lemma ParallelClamps<T>(layers: seq<seq<T> -> seq<T>>, cut: Cut, r: int, s: int)
    ensures Parallel(layers, cut.start, cut.end, r, s)
            == Parallel(layers, Low(cut, |layers|), High(cut, |layers|), r, s)
  {
  }

  lemma RangeProgram<T>(layers: seq<seq<T> -> seq<T>>, cuts: seq<Cut>, i: nat)
    requires i < |cuts| && !IsEmpty(cuts[i], |layers|)
    ensures RangePrograms(layers, cuts)[i] == Sequence(Slices(layers, cuts)[i], i, |cuts|)
  {
    hide Parallel, Program, Sequence;
    ParallelClamps(layers, cuts[i], i, |cuts|);
    WrappedProgram(layers, Low(cuts[i], |layers|), High(cuts[i], |layers|), i, |cuts|);
  }

  lemma AllWrapped<T>(layers: seq<seq<T> -> seq<T>>, cuts: seq<Cut>)
    requires forall i :: 0 <= i < |cuts| ==> !IsEmpty(cuts[i], |layers|)
    ensures RangePrograms(layers, cuts) == Programs(Slices(layers, cuts))
  {
    hide RangePrograms, Sequence, IsEmpty;
    forall i | 0 <= i < |cuts|
      ensures RangePrograms(layers, cuts)[i] == Sequence(Slices(layers, cuts)[i], i, |cuts|)
    {
      RangeProgram(layers, cuts, i);
    }
  }

  lemma SlicesAreValid<T(!new)>(layers: seq<seq<T> -> seq<T>>, cuts: seq<Cut>)
    requires KeepsBatch(layers) && cuts != []
    requires forall i :: 0 <= i < |cuts| ==> !IsEmpty(cuts[i], |layers|)
    ensures Valid(Slices(layers, cuts))
  {
    hide Low, High;
  }

  // ----- a rank left without layers -----

  predicate OnlyApplies<T>(prog: seq<Action<T>>) {
    forall k :: 0 <= k < |prog| ==> prog[k].Apply?
  }

  lemma {:induction false} SilentRank<T>(progs: seq<seq<Action<T>>>, x: seq<T>, schedule: seq<nat>, q: nat)
    requires q < |progs| && OnlyApplies(progs[q])
    ensures Run(progs, x, schedule).posted[q].None?
  {
    if schedule != [] {
      SilentRank(progs, x, schedule[..|schedule| - 1], q);
    }
  }

  lemma EmptyOnlyApplies<T>(layers: seq<seq<T> -> seq<T>>, cut: Cut, r: int, s: int)
    requires IsEmpty(cut, |layers|)
    ensures OnlyApplies(Program(Parallel(layers, cut.start, cut.end, r, s)))
  {
    ProgramOfPlain(layers);
  }

  /**
   * A rank whose range has no layer of the model, wherever it starts and ends, keeps the whole
   * model unwrapped and joins no collective, so no other rank ever gets past its gather.
   */
  lemma {:induction false} EmptyShardStallsTheRing<T>(
    progs: seq<seq<Action<T>>>, layers: seq<seq<T> -> seq<T>>, cut: Cut, x: seq<T>, schedule: seq<nat>, q: nat,
    r: nat)
    requires q < |progs| && r < |progs| && IsEmpty(cut, |layers|)
    requires progs[q] == Program(Parallel(layers, cut.start, cut.end, q, |progs|))
    requires progs[r] != [] && progs[r][|progs[r]| - 1].Collect?
    ensures !Finished(progs, Run(progs, x, schedule), r)
    decreases |schedule|
  {
    EmptyOnlyApplies(layers, cut, q, |progs|);
    hide Parallel, Program, IsEmpty;
    if schedule != [] {
      var front := schedule[..|schedule| - 1];
      EmptyShardStallsTheRing(progs, layers, cut, x, front, q, r);
      SilentRank(progs, x, front, q);
      StalledStep(progs, Run(progs, x, front), schedule[|schedule| - 1], q, r);
    }
  }

  lemma StalledStep<T>(progs: seq<seq<Action<T>>>, s: Ring<T>, k: nat, q: nat, r: nat)
    requires Shaped(progs, s) && q < |progs| && r < |progs| && s.posted[q].None?
    requires progs[r] != [] && progs[r][|progs[r]| - 1].Collect?
    requires !Finished(progs, s, r)
    ensures !Finished(progs, Step(progs, s, k), r)
  {
  }

  lemma {:induction false} LonerFolds<T>(
    progs: seq<seq<Action<T>>>, layers: seq<seq<T> -> seq<T>>, x: seq<T>, schedule: seq<nat>, q: nat)
    requires q < |progs| && progs[q] == Applies(layers)
    ensures
      var s := Run(progs, x, schedule);
      s.ranks[q].pc <= |layers| && s.ranks[q].value == Fold(layers[..s.ranks[q].pc], x)
  {
    if schedule == [] {
      assert layers[..0] == [];
    } else {
      var before := Run(progs, x, schedule[..|schedule| - 1]);
      LonerFolds(progs, layers, x, schedule[..|schedule| - 1], q);
      hide Run, Fold;
      LonerSteps(progs, layers, x, before, schedule[|schedule| - 1], q);
      RunSnoc(progs, x, schedule);
    }
  }

  lemma {:induction false} RunSnoc<T>(progs: seq<seq<Action<T>>>, x: seq<T>, schedule: seq<nat>)
    requires schedule != []
    ensures Run(progs, x, schedule)
            == Step(progs, Run(progs, x, schedule[..|schedule| - 1]), schedule[|schedule| - 1])
  {
  }

  lemma LonerSteps<T>(
    progs: seq<seq<Action<T>>>, layers: seq<seq<T> -> seq<T>>, x: seq<T>, s: Ring<T>, k: nat, q: nat)
    requires Shaped(progs, s) && q < |progs| && progs[q] == Applies(layers)
    requires s.ranks[q].pc <= |layers| && s.ranks[q].value == Fold(layers[..s.ranks[q].pc], x)
    ensures
      var s' := Step(progs, s, k);
      s'.ranks[q].pc <= |layers| && s'.ranks[q].value == Fold(layers[..s'.ranks[q].pc], x)
  {
    var pc := s.ranks[q].pc;
    if k == q && pc < |layers| {
      assert layers[..pc + 1][..pc] == layers[..pc];
    }
  }

  /** Such a rank runs the whole model on its own: if it finishes it holds what the model computes. */
  lemma {:induction false} EmptyShardRunsTheModel<T>(
    progs: seq<seq<Action<T>>>, layers: seq<seq<T> -> seq<T>>, cut: Cut, x: seq<T>, schedule: seq<nat>, q: nat)
    requires q < |progs| && IsEmpty(cut, |layers|)
    requires progs[q] == Program(Parallel(layers, cut.start, cut.end, q, |progs|))
    ensures Finished(progs, Run(progs, x, schedule), q) ==>
              Run(progs, x, schedule).ranks[q].value == Fold(layers, x)
  {
    ProgramOfPlain(layers);
    assert progs[q] == Applies(layers);
    LonerFolds(progs, layers, x, schedule, q);
    assert layers[..|layers|] == layers;
  }

  // ----- exactly when a ring can get stuck -----

  // Until every rank has finished, some rank can act.
  ghost predicate Live<T>(progs: seq<seq<Action<T>>>, s: Ring<T>)
    requires Shaped(progs, s)
  {
    (exists r :: 0 <= r < |progs| && !Finished(progs, s, r)) ==> exists r :: 0 <= r < |progs| && Enabled(progs, s, r)
  }

  ghost predicate NeverStalls<T>(progs: seq<seq<Action<T>>>, x: seq<T>) {
    forall schedule :: Live(progs, Run(progs, x, schedule))
  }

  ghost predicate NoneEmpty(cuts: seq<Cut>, n: nat) {
    forall i :: 0 <= i < |cuts| ==> !IsEmpty(cuts[i], n)
  }

  ghost predicate AllEmpty(cuts: seq<Cut>, n: nat) {
    forall i :: 0 <= i < |cuts| ==> IsEmpty(cuts[i], n)
  }

  lemma WholeRangesProgress<T(!new)>(layers: seq<seq<T> -> seq<T>>, cuts: seq<Cut>, x: seq<T>)
    requires KeepsBatch(layers) && cuts != [] && NoneEmpty(cuts, |layers|)
    ensures NeverStalls(RangePrograms(layers, cuts), x)
  {
    AllWrapped(layers, cuts);
    SlicesAreValid(layers, cuts);
    hide Run, Programs, RangePrograms, Slices, Valid, Finished, Enabled;
    var shards := Slices(layers, cuts);
    forall schedule
      ensures Live(Programs(shards), Run(Programs(shards), x, schedule))
    {
      if exists r :: 0 <= r < |shards| && !Finished(Programs(shards), Run(Programs(shards), x, schedule), r) {
        RingProgresses(shards, x, schedule);
      }
    }
  }

  // Ranks that all keep the whole model run it on their own.
  lemma LonersProgress<T(!new)>(layers: seq<seq<T> -> seq<T>>, cuts: seq<Cut>, x: seq<T>)
    requires AllEmpty(cuts, |layers|)
    ensures NeverStalls(RangePrograms(layers, cuts), x)
  {
    var progs := RangePrograms(layers, cuts);
    hide Run, IsEmpty;
    forall schedule
      ensures Live(progs, Run(progs, x, schedule))
    {
      RunInPrograms(progs, x, schedule);
      if r :| 0 <= r < |progs| && !Finished(progs, Run(progs, x, schedule), r) {
        EmptyOnlyApplies(layers, cuts[r], r, |cuts|);
        LonerCanAct(progs, Run(progs, x, schedule), r);
      }
    }
  }

  lemma LonerCanAct<T>(progs: seq<seq<Action<T>>>, s: Ring<T>, r: nat)
    requires Shaped(progs, s) && InPrograms(progs, s) && r < |progs|
    requires OnlyApplies(progs[r]) && !Finished(progs, s, r)
    ensures Enabled(progs, s, r)
  {
  }

  lemma SequenceCollects<T>(layers: seq<seq<T> -> seq<T>>, r: nat, s: nat)
    ensures var p := Sequence(layers, r, s); p != [] && p[|p| - 1].Collect?
  {
  }

  lemma MixedRangesStall<T(!new)>(layers: seq<seq<T> -> seq<T>>, cuts: seq<Cut>, x: seq<T>, q: nat, r: nat)
    requires q < |cuts| && r < |cuts| && IsEmpty(cuts[q], |layers|) && !IsEmpty(cuts[r], |layers|)
    ensures !NeverStalls(RangePrograms(layers, cuts), x)
  {
    var progs := RangePrograms(layers, cuts);
    RangeProgram(layers, cuts, r);
    SequenceCollects(Slices(layers, cuts)[r], r, |cuts|);
    var schedule := RunsDry(progs, x, []);
    EmptyShardStallsTheRing(progs, layers, cuts[q], x, schedule, q, r);
    hide Run, RangePrograms, Slices, Enabled, Finished;
    assert !Live(progs, Run(progs, x, schedule));
  }

  /**
   * A ring that wraps any ranges, in or out of order, inside the model or not, never gets stuck
   * exactly when every range has layers; or when none has, and each rank runs the model alone.
   */
  lemma NeverStallsIff<T(!new)>(layers: seq<seq<T> -> seq<T>>, cuts: seq<Cut>, x: seq<T>)
    requires KeepsBatch(layers)
    ensures NeverStalls(RangePrograms(layers, cuts), x)
            <==> NoneEmpty(cuts, |layers|) || AllEmpty(cuts, |layers|)
  {
    hide NeverStalls, RangePrograms, KeepsBatch;
    if AllEmpty(cuts, |layers|) {
      LonersProgress(layers, cuts, x);
    } else if NoneEmpty(cuts, |layers|) {
      WholeRangesProgress(layers, cuts, x);
    } else {
      var q :| 0 <= q < |cuts| && IsEmpty(cuts[q], |layers|);
      var r :| 0 <= r < |cuts| && !IsEmpty(cuts[r], |layers|);
      MixedRangesStall(layers, cuts, x, q, r);
    }
  }
}
