/** The planned ranges, the wrapped layers and the ring together. */
module SplitMeaning {
  import opened Base
  import opened RingForward
  import opened RingStalls
  import Capability
  import Placement
  import AppShards
  import Planner

  // Non-empty adjacent ranges that cover exactly 0..n.
  ghost predicate Covers(cuts: seq<Cut>, n: int) {
    && cuts != [] && cuts[0].start == 0 && cuts[|cuts| - 1].end == n
    && (forall i :: 0 <= i < |cuts| ==> cuts[i].start < cuts[i].end)
    && (forall i :: 0 <= i < |cuts| - 1 ==> cuts[i].end == cuts[i + 1].start)
  }

  lemma {:induction false} CutsStayInside(cuts: seq<Cut>, n: int, i: nat)
    requires Covers(cuts, n) && i < |cuts|
    ensures 0 <= cuts[i].start < cuts[i].end <= n
    decreases |cuts| - i
  {
    CutsStartInside(cuts, n, i);
    if i + 1 < |cuts| {
      CutsStayInside(cuts, n, i + 1);
    }
  }

  lemma {:induction false} CutsStartInside(cuts: seq<Cut>, n: int, i: nat)
    requires Covers(cuts, n) && i < |cuts|
    ensures 0 <= cuts[i].start
  {
    if i > 0 {
      CutsStartInside(cuts, n, i - 1);
      assert cuts[i - 1].end == cuts[i].start;
    }
  }

  lemma CoversInside(cuts: seq<Cut>, n: nat)
    requires Covers(cuts, n)
    ensures NoneEmpty(cuts, n)
    ensures forall i :: 0 <= i < |cuts| ==> Low(cuts[i], n) == cuts[i].start && High(cuts[i], n) == cuts[i].end
  {
    forall i | 0 <= i < |cuts|
      ensures Low(cuts[i], n) == cuts[i].start < cuts[i].end == High(cuts[i], n)
    {
      CutsStayInside(cuts, n, i);
    }
  }

  lemma {:induction false} SlicesConcat<T>(layers: seq<seq<T> -> seq<T>>, cuts: seq<Cut>, k: nat)
    requires Covers(cuts, |layers|) && 0 < k <= |cuts|
    ensures Low(cuts[k - 1], |layers|) == cuts[k - 1].start && High(cuts[k - 1], |layers|) == cuts[k - 1].end
    ensures Concat(Slices(layers, cuts)[..k]) == layers[..cuts[k - 1].end]
  {
    hide Low, High;
    var shards := Slices(layers, cuts);
    CoversInside(cuts, |layers|);
    assert shards[..k][..k - 1] == shards[..k - 1];
    if k > 1 {
      SlicesConcat(layers, cuts, k - 1);
      assert cuts[k - 2].end == cuts[k - 1].start;
    } else {
      assert Concat(shards[..0]) == [];
    }
  }

  /**
   * Any cover of a model's layers by ranges of which all but the first hold two or more layers
   * makes the wrapped ring return, on every rank and in every interleaving, what the whole model
   * computes.
   */
  lemma {:induction false} CoverComputesTheModel<T(!new)>(
    layers: seq<seq<T> -> seq<T>>, cuts: seq<Cut>, x: seq<T>, schedule: seq<nat>, r: nat)
    requires KeepsBatch(layers) && Covers(cuts, |layers|) && r < |cuts|
    requires forall i :: 0 < i < |cuts| ==> cuts[i].end - cuts[i].start >= 2
    requires Finished(RangePrograms(layers, cuts), Run(RangePrograms(layers, cuts), x, schedule), r)
    ensures Run(RangePrograms(layers, cuts), x, schedule).ranks[r].value == Fold(layers, x)
  {
    hide Programs, RangePrograms, Run, Fold, Concat, Valid, KeepsBatch;
    CoversInside(cuts, |layers|);
    var shards := Slices(layers, cuts);
    AllWrapped(layers, cuts);
    SlicesAreValid(layers, cuts);
    SlicesConcat(layers, cuts, |cuts|);
    assert shards[..|cuts|] == shards && layers[..|layers|] == layers;
    hide Covers, Low, High;
    SplitComputesTheModel(shards, x, schedule, r);
  }

  ghost function PlanCuts(plan: Placement.ShardPlan): seq<Cut> {
    seq(|plan.assignments|, i requires 0 <= i < |plan.assignments| =>
      Cut(plan.assignments[i].startLayer, plan.assignments[i].endLayer))
  }

  /** The planner's ranges are such a cover. */
  lemma PlansCover(
    policy: Placement.Policy, model: Placement.ModelSpec, members: seq<Capability.PlannedMember>, epoch: nat,
    now: real, estimate: real)
    requires Placement.PlanOf(policy, model, members, epoch, now, estimate).Ok?
    ensures Covers(PlanCuts(Placement.PlanOf(policy, model, members, epoch, now, estimate).value), model.layerCount)
  {
    hide Placement.PlanOf, Placement.EligibleMembers;
    Placement.PlanIsSound(policy, model, members, epoch, now, estimate);
  }

  ghost function MetaCuts(metas: seq<AppShards.ShardMeta>): seq<Cut> {
    seq(|metas|, i requires 0 <= i < |metas| => Cut(metas[i].startLayer, metas[i].endLayer))
  }

  // ----- the app's own ranges -----

  function Share(nLayers: nat, rams: seq<Option<nat>>, i: nat): int
    requires AppShards.UsableRAM(rams) > 0 && i < |rams|
  {
    AppShards.Shares(nLayers, rams, AppShards.UsableRAM(rams))[i]
  }

  // The layers that are left for the last rank, which the shares before may have overdrawn.
  function Remainder(nLayers: nat, rams: seq<Option<nat>>): int
    requires AppShards.UsableRAM(rams) > 0 && rams != []
  {
    nLayers - Sum(AppShards.Shares(nLayers, rams, AppShards.UsableRAM(rams))[..|rams| - 1])
  }

  ghost function AppCuts(nLayers: nat, rams: seq<Option<nat>>): (cuts: seq<Cut>)
    requires AppShards.UsableRAM(rams) > 0
    ensures |cuts| == |rams|
  {
    MetaCuts(AppShards.Metas(nLayers, rams))
  }

  lemma AppCutSizes(nLayers: nat, rams: seq<Option<nat>>, i: nat)
    requires AppShards.UsableRAM(rams) > 0 && i < |rams|
    ensures Share(nLayers, rams, i) >= 0
    ensures
      var cut := AppCuts(nLayers, rams)[i];
      cut.end - cut.start == if i < |rams| - 1 then Share(nLayers, rams, i) else Remainder(nLayers, rams)
    ensures i == |rams| - 1 ==> AppCuts(nLayers, rams)[i].end == nLayers
  {
    hide Sum, AppShards.UsableRAM;
    AppShards.SharesNonnegative(nLayers, rams, AppShards.UsableRAM(rams));
  }

  /** The app's ranges are such a cover exactly when every share and the last remainder has a layer. */
  lemma {:induction false} MetasCoverIff(nLayers: nat, rams: seq<Option<nat>>)
    requires rams != [] && AppShards.UsableRAM(rams) > 0
    ensures Covers(AppCuts(nLayers, rams), nLayers)
            <==> (forall i :: 0 <= i < |rams| - 1 ==> Share(nLayers, rams, i) >= 1) && Remainder(nLayers, rams) >= 1
  {
    AppShards.TilesIff(nLayers, rams);
    AppShards.LastMeta(nLayers, rams);
    hide AppShards.MetaOf, Share, Remainder;
    var cuts := AppCuts(nLayers, rams);
    forall i | 0 <= i < |rams|
      ensures cuts[i].start < cuts[i].end <==>
              (if i < |rams| - 1 then Share(nLayers, rams, i) >= 1 else Remainder(nLayers, rams) >= 1)
    {
      AppCutSizes(nLayers, rams, i);
    }
    RemainderTiles(nLayers, rams);
  }

  lemma {:induction false} RemainderTiles(nLayers: nat, rams: seq<Option<nat>>)
    requires rams != [] && AppShards.UsableRAM(rams) > 0
    ensures AppShards.Tiles(AppShards.Metas(nLayers, rams), nLayers) <==> Remainder(nLayers, rams) >= 0
  {
    hide AppShards.MetaOf, AppShards.Shares, Sum;
    AppShards.TilesIff(nLayers, rams);
  }

  // Rank 0 gets at least one layer, every later rank at least two.
  predicate Generous(nLayers: nat, rams: seq<Option<nat>>)
    requires AppShards.UsableRAM(rams) > 0 && |rams| >= 2
  {
    && Share(nLayers, rams, 0) >= 1
    && (forall i :: 0 < i < |rams| - 1 ==> Share(nLayers, rams, i) >= 2)
    && Remainder(nLayers, rams) >= 2
  }

  // Every model of this many layers, wrapped by these ranges, runs to the end on every rank and
  // returns there what the whole model computes, on every input and in every interleaving.
  ghost predicate Computes(nLayers: nat, cuts: seq<Cut>) {
    forall layers: seq<seq<int> -> seq<int>>, x :: |layers| == nLayers && KeepsBatch(layers) ==>
      ComputesHere(layers, cuts, x)
  }

  ghost predicate ComputesHere<T>(layers: seq<seq<T> -> seq<T>>, cuts: seq<Cut>, x: seq<T>) {
    && NeverStalls(RangePrograms(layers, cuts), x)
    && forall schedule, r: nat :: r < |cuts| ==> ReturnsHere(layers, cuts, x, schedule, r)
  }

  ghost predicate ReturnsHere<T>(
    layers: seq<seq<T> -> seq<T>>, cuts: seq<Cut>, x: seq<T>, schedule: seq<nat>, r: nat)
    requires r < |cuts|
  {
    var progs := RangePrograms(layers, cuts);
    Finished(progs, Run(progs, x, schedule), r) ==> Run(progs, x, schedule).ranks[r].value == Fold(layers, x)
  }

  lemma GoodCoverComputes<T(!new)>(layers: seq<seq<T> -> seq<T>>, cuts: seq<Cut>, x: seq<T>)
    requires KeepsBatch(layers) && Covers(cuts, |layers|)
    requires forall i :: 0 < i < |cuts| ==> cuts[i].end - cuts[i].start >= 2
    ensures ComputesHere(layers, cuts, x)
  {
    hide Run, RangePrograms, Fold, KeepsBatch, Covers, NeverStalls, Finished;
    CoversInside(cuts, |layers|);
    NeverStallsIff(layers, cuts, x);
    forall schedule, r: nat | r < |cuts|
      ensures ReturnsHere(layers, cuts, x, schedule, r)
    {
      if Finished(RangePrograms(layers, cuts), Run(RangePrograms(layers, cuts), x, schedule), r) {
        CoverComputesTheModel(layers, cuts, x, schedule, r);
      }
    }
  }

  // A model without layers is left alone everywhere, and returns its input.
  lemma NoLayersCompute<T(!new)>(layers: seq<seq<T> -> seq<T>>, cuts: seq<Cut>, x: seq<T>)
    requires layers == []
    ensures ComputesHere(layers, cuts, x)
  {
    NeverStallsIff(layers, cuts, x);
    assert AllEmpty(cuts, 0);
    var progs := RangePrograms(layers, cuts);
    forall schedule, r: nat | r < |cuts|
      ensures ReturnsHere(layers, cuts, x, schedule, r)
    {
      NothingToRun(layers, cuts[r], r, |cuts|);
      IdleRank(progs, x, schedule, r);
    }
  }

  lemma NothingToRun<T>(layers: seq<seq<T> -> seq<T>>, cut: Cut, r: int, s: int)
    requires layers == []
    ensures Program(Parallel(layers, cut.start, cut.end, r, s)) == []
  {
  }

  lemma {:induction false} IdleRank<T>(progs: seq<seq<Action<T>>>, x: seq<T>, schedule: seq<nat>, r: nat)
    requires r < |progs| && progs[r] == []
    ensures Run(progs, x, schedule).ranks[r].value == x
  {
    if schedule != [] {
      IdleRank(progs, x, schedule[..|schedule| - 1], r);
    }
  }

  // The model that counts its layers shows whatever goes wrong.
  function Counter(n: nat): seq<seq<int> -> seq<int>> {
    seq(n, i => AddOne)
  }

  function Sizes(cuts: seq<Cut>): seq<nat>
    requires forall i :: 0 <= i < |cuts| ==> cuts[i].start < cuts[i].end
  {
    seq(|cuts|, i requires 0 <= i < |cuts| => cuts[i].end - cuts[i].start)
  }

  lemma {:induction false} CounterSlices(cuts: seq<Cut>, n: nat)
    requires Covers(cuts, n)
    ensures Slices(Counter(n), cuts) == Ones(Sizes(cuts))
    ensures Concat(Ones(Sizes(cuts))) == Counter(n)
  {
    hide Concat, Low, High;
    CoversInside(cuts, n);
    forall i | 0 <= i < |cuts|
      ensures Slices(Counter(n), cuts)[i] == Ones(Sizes(cuts))[i]
    {
      var size := Sizes(cuts)[i];
      assert |Slices(Counter(n), cuts)[i]| == size;
      assert forall k :: 0 <= k < size ==> Slices(Counter(n), cuts)[i][k] == Ones(Sizes(cuts))[i][k];
    }
    assert Slices(Counter(n), cuts) == Ones(Sizes(cuts));
    SlicesConcat(Counter(n), cuts, |cuts|);
    assert Slices(Counter(n), cuts)[..|cuts|] == Slices(Counter(n), cuts) && Counter(n)[..n] == Counter(n);
  }

  // A cover with a single layer on a rank above 0 loses count.
  lemma {:induction false} ThinCoverFails(cuts: seq<Cut>, n: nat, r: nat)
    requires Covers(cuts, n) && 0 < r < |cuts| && cuts[r].end - cuts[r].start == 1
    ensures !ComputesHere(Counter(n), cuts, [0])
  {
    var sizes := Sizes(cuts);
    var schedule := OnesFallShort(sizes, r);
    CounterSlices(cuts, n);
    CoversInside(cuts, n);
    AllWrapped(Counter(n), cuts);
    assert |sizes| == |cuts| && Programs(Ones(sizes)) == RangePrograms(Counter(n), cuts);
    hide Run, Programs, RangePrograms, Fold, Concat, Ones, Slices, Sizes, Counter, Finished;
    var s := Run(Programs(Ones(sizes)), [0], schedule);
    assert Finished(Programs(Ones(sizes)), s, 0) && s.ranks[0].value != Fold(Counter(n), [0]);
    assert !ReturnsHere(Counter(n), cuts, [0], schedule, 0);
  }

  lemma CounterKeepsBatch(n: nat)
    ensures |Counter(n)| == n && KeepsBatch(Counter(n))
  {
  }

  // If no rank but the last is given a layer, the last is given them all.
  lemma {:induction false} EmptySharesSum(nLayers: nat, rams: seq<Option<nat>>, k: nat)
    requires AppShards.UsableRAM(rams) > 0 && k < |rams|
    requires forall i :: 0 <= i < k ==> Share(nLayers, rams, i) == 0
    ensures Sum(AppShards.Shares(nLayers, rams, AppShards.UsableRAM(rams))[..k]) == 0
  {
    hide Sum, AppShards.UsableRAM;
    var shares := AppShards.Shares(nLayers, rams, AppShards.UsableRAM(rams));
    Planner.SumOfNone(shares);
    if k > 0 {
      EmptySharesSum(nLayers, rams, k - 1);
      assert Share(nLayers, rams, k - 1) == shares[k - 1];
      Planner.SumSnoc(shares, k - 1);
    }
  }

  // Some rank always gets layers of a model that has any.
  lemma {:induction false} SomebodyGetsLayers(nLayers: nat, rams: seq<Option<nat>>)
    requires rams != [] && AppShards.UsableRAM(rams) > 0 && nLayers > 0
    ensures !AllEmpty(AppCuts(nLayers, rams), nLayers)
  {
    hide Sum, AppShards.UsableRAM, AppShards.MetaOf, AppShards.Shares;
    var cuts, n := AppCuts(nLayers, rams), |rams| - 1;
    if AllEmpty(cuts, nLayers) {
      NothingBefore(nLayers, rams, n);
      EmptySharesSum(nLayers, rams, n);
      AppCutSizes(nLayers, rams, n);
      EmptyWhen(cuts[n], nLayers);
      assert false;
    }
  }

  lemma {:induction false} NothingBefore(nLayers: nat, rams: seq<Option<nat>>, k: nat)
    requires rams != [] && AppShards.UsableRAM(rams) > 0 && nLayers > 0 && k < |rams|
    requires AllEmpty(AppCuts(nLayers, rams), nLayers)
    ensures forall i :: 0 <= i < k ==> Share(nLayers, rams, i) == 0
  {
    hide Sum, AppShards.UsableRAM, AppShards.Shares, Share;
    if k > 0 {
      NothingBefore(nLayers, rams, k - 1);
      EmptySharesSum(nLayers, rams, k - 1);
      StartsAtSum(nLayers, rams, k - 1);
      AppCutSizes(nLayers, rams, k - 1);
      assert IsEmpty(AppCuts(nLayers, rams)[k - 1], nLayers);
      EmptyWhen(AppCuts(nLayers, rams)[k - 1], nLayers);
      hide IsEmpty, AppCuts;
      assert Share(nLayers, rams, k - 1) == 0;
    }
  }

  lemma StartsAtSum(nLayers: nat, rams: seq<Option<nat>>, i: nat)
    requires AppShards.UsableRAM(rams) > 0 && i < |rams|
    ensures AppCuts(nLayers, rams)[i].start
            == Sum(AppShards.Shares(nLayers, rams, AppShards.UsableRAM(rams))[..i])
  {
  }

  // When every range of the app has layers of the model, together they cover it.
  lemma {:induction false} NoneEmptyCovers(nLayers: nat, rams: seq<Option<nat>>)
    requires rams != [] && AppShards.UsableRAM(rams) > 0
    requires NoneEmpty(AppCuts(nLayers, rams), nLayers)
    ensures Covers(AppCuts(nLayers, rams), nLayers)
  {
    hide AppShards.UsableRAM, AppShards.MetaOf, AppShards.Shares, Share, Remainder, Covers;
    MetasCoverIff(nLayers, rams);
    var last := |rams| - 1;
    AppCutSizes(nLayers, rams, last);
    assert !IsEmpty(AppCuts(nLayers, rams)[last], nLayers);
    EmptyWhen(AppCuts(nLayers, rams)[last], nLayers);
    forall i | 0 <= i < last
      ensures Share(nLayers, rams, i) >= 1
    {
      AppCutSizes(nLayers, rams, i);
      assert !IsEmpty(AppCuts(nLayers, rams)[i], nLayers);
      EmptyWhen(AppCuts(nLayers, rams)[i], nLayers);
    }
  }

  lemma {:induction false} GenerousComputes(nLayers: nat, rams: seq<Option<nat>>)
    requires rams != [] && AppShards.UsableRAM(rams) > 0 && nLayers > 0
    requires |rams| >= 2 ==> Generous(nLayers, rams)
    ensures Computes(nLayers, AppCuts(nLayers, rams))
  {
    hide AppShards.UsableRAM, AppShards.MetaOf, AppShards.Shares, Share, Covers, ComputesHere;
    var cuts := AppCuts(nLayers, rams);
    if |rams| == 1 {
      EmptySharesSum(nLayers, rams, 0);
    }
    MetasCoverIff(nLayers, rams);
    forall i | 0 < i < |cuts|
      ensures cuts[i].end - cuts[i].start >= 2
    {
      AppCutSizes(nLayers, rams, i);
    }
    forall layers: seq<seq<int> -> seq<int>>, x | |layers| == nLayers && KeepsBatch(layers)
      ensures ComputesHere(layers, cuts, x)
    {
      GoodCoverComputes(layers, cuts, x);
    }
  }

  lemma {:induction false} MeanFails(nLayers: nat, rams: seq<Option<nat>>)
    requires |rams| >= 2 && AppShards.UsableRAM(rams) > 0 && nLayers > 0 && !Generous(nLayers, rams)
    ensures !Computes(nLayers, AppCuts(nLayers, rams))
  {
    hide AppShards.UsableRAM, AppShards.MetaOf, AppShards.Shares, Share, Remainder, Counter, NeverStalls;
    hide RangePrograms, Run, Fold;
    var cuts := AppCuts(nLayers, rams);
    CounterKeepsBatch(nLayers);
    SomebodyGetsLayers(nLayers, rams);
    NeverStallsIff(Counter(nLayers), cuts, [0]);
    if NoneEmpty(cuts, nLayers) {
      NoneEmptyCovers(nLayers, rams);
      var r := ThinRank(nLayers, rams);
      ThinCoverFails(cuts, nLayers, r);
    }
    assert !ComputesHere(Counter(nLayers), cuts, [0]);
  }

  lemma {:induction false} ThinRank(nLayers: nat, rams: seq<Option<nat>>) returns (r: nat)
    requires |rams| >= 2 && AppShards.UsableRAM(rams) > 0 && !Generous(nLayers, rams)
    requires Covers(AppCuts(nLayers, rams), nLayers)
    ensures 0 < r < |rams| && AppCuts(nLayers, rams)[r].end - AppCuts(nLayers, rams)[r].start == 1
  {
    hide AppShards.UsableRAM, AppShards.MetaOf, AppShards.Shares, Share, Remainder, AppCuts, Covers;
    MetasCoverIff(nLayers, rams);
    r := |rams| - 1;
    if Remainder(nLayers, rams) >= 2 {
      r :| 0 < r < |rams| - 1 && Share(nLayers, rams, r) < 2;
    }
    AppCutSizes(nLayers, rams, r);
  }

  /**
   * What the app's own assignment is worth, on the layer count and the memories alone, known or
   * not: wrapped and run, its ranges compute every model exactly when there is nothing to split,
   * because the model has no layers or the ring one device, or when rank 0's share is at least
   * one layer, every middle share at least two and the last rank's remainder at least two.
   */
  lemma {:induction false} AppSplitComputesIff(nLayers: nat, rams: seq<Option<nat>>)
    requires rams != [] && AppShards.UsableRAM(rams) > 0
    ensures Computes(nLayers, AppCuts(nLayers, rams))
            <==> nLayers == 0 || |rams| == 1 || Generous(nLayers, rams)
  {
    hide AppShards.UsableRAM, AppCuts, Generous, ComputesHere;
    if nLayers == 0 {
      forall layers: seq<seq<int> -> seq<int>>, x | |layers| == nLayers && KeepsBatch(layers)
        ensures ComputesHere(layers, AppCuts(nLayers, rams), x)
      {
        NoLayersCompute(layers, AppCuts(nLayers, rams), x);
      }
    } else if |rams| == 1 || Generous(nLayers, rams) {
      GenerousComputes(nLayers, rams);
    } else {
      MeanFails(nLayers, rams);
    }
  }

  // A device with too little memory for one layer.
  lemma SmallDeviceStarves()
    ensures
      var rams: seq<Option<nat>> := [Some(1), Some(1), Some(32)];
      && AppShards.AllKnown(rams) && AppShards.UsableRAM(rams) == 34
      && Share(4, rams, 0) == 0 && AppCuts(4, rams)[0].start == 0
  {
    hide Sum;
    var rams: seq<Option<nat>> := [Some(1), Some(1), Some(32)];
    assert rams[..2] == [Some(1), Some(1)] && rams[..2][..1] == [Some(1)] && rams[..2][..1][..0] == [];
    assert AppShards.UsableRAM([Some(1)]) == 1 && AppShards.UsableRAM([Some(1), Some(1)]) == 2;
    Planner.SumOfNone(AppShards.Shares(4, rams, 34));
  }

  /** With every profile known the app can still give a rank no layers, and its ring fails the model. */
  lemma KnownProfilesCanStarveRank()
    ensures
      var rams: seq<Option<nat>> := [Some(1), Some(1), Some(32)];
      && AppShards.AllKnown(rams) && AppShards.UsableRAM(rams) == 34
      && AppCuts(4, rams)[0] == Cut(0, 0)
      && !Computes(4, AppCuts(4, rams))
  {
    SmallDeviceStarves();
    hide Computes, Remainder, Share, AppCuts, AppShards.UsableRAM, AppShards.AllKnown;
    var rams: seq<Option<nat>> := [Some(1), Some(1), Some(32)];
    AppCutSizes(4, rams, 0);
    AppSplitComputesIff(4, rams);
  }

  /** It can also give a later rank a single layer, which forgets what the ranks before it did. */
  lemma KnownProfilesCanThinRank()
    ensures
      var rams: seq<Option<nat>> := [Some(8), Some(1)];
      && AppShards.AllKnown(rams) && AppShards.UsableRAM(rams) == 9
      && AppCuts(9, rams) == [Cut(0, 8), Cut(8, 9)]
      && !Computes(9, AppCuts(9, rams))
  {
    var rams: seq<Option<nat>> := [Some(8), Some(1)];
    assert rams[..1] == [Some(8)] && rams[..1][..0] == [];
    assert AppShards.UsableRAM([Some(8)]) == 8;
    var shares := AppShards.Shares(9, rams, 9);
    assert AppShards.UsableRAM(rams) == 9;
    hide Computes, AppShards.UsableRAM;
    assert shares[..0] == [] && shares[..1] == [8] && shares[..1][..0] == [];
    assert Sum(shares[..1]) == 8;
    AppSplitComputesIff(9, rams);
  }
}
