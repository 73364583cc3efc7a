/**
 * The Python pipeline's own planner: the one frontend becomes rank 0, the workers follow in
 * platform order, and the layers are apportioned to what each has left after its overhead.
 */
module InferPlan {
  import opened Base
  import opened Sorting
  import opened Planner

  datatype Role = FrontendRole | WorkerRole | OtherRole

  // Platforms are strings in the source; only their order matters.
  datatype InferPeer = InferPeer(platform: nat, nodeID: string, usable: real, role: Role)

  datatype InferShard = InferShard(
    rank: nat, platform: nat, nodeID: string, role: Role, startLayer: int, endLayer: int, estimated: real)

  // The model's shape: how many layers, and its weights and per-peer overhead in gigabytes.
  datatype Load = Load(layers: int, weights: real, overhead: real)

  datatype PlanError =
    | FrontendCount(found: nat)
    | OverCapacity
    | OverAggregate
    | FewerLayersThanPeers
    | OverPeer(rank: nat)

  const TOLERANCE: real := 0.000000001

  function WithRole(peers: seq<InferPeer>, role: Role): (r: seq<InferPeer>)
    ensures forall p :: p in r ==> p in peers && p.role == role
  {
    if peers == [] then []
    else WithRole(peers[..|peers| - 1], role) + if peers[|peers| - 1].role == role then [peers[|peers| - 1]] else []
  }

  predicate ByPlatform(a: InferPeer, b: InferPeer) {
    a.platform <= b.platform
  }

  lemma ByPlatformIsOrder()
    ensures Total(ByPlatform) && Transitive(ByPlatform)
  {
  }

  function Ordered(peers: seq<InferPeer>): (r: seq<InferPeer>)
    requires |WithRole(peers, FrontendRole)| == 1
    ensures r != []
  {
    ByPlatformIsOrder();
    WithRole(peers, FrontendRole) + Sort(ByPlatform, WithRole(peers, WorkerRole))
  }

  function Usable(peers: seq<InferPeer>): real {
    if peers == [] then 0.0 else Usable(peers[..|peers| - 1]) + peers[|peers| - 1].usable
  }

  function Spare(p: InferPeer, load: Load): real {
    if p.usable - load.overhead > 0.0 then p.usable - load.overhead else 0.0
  }

  function SpareTotal(peers: seq<InferPeer>, load: Load): real {
    if peers == [] then 0.0 else SpareTotal(peers[..|peers| - 1], load) + Spare(peers[|peers| - 1], load)
  }

  function Weight(p: InferPeer, load: Load): int {
    var mebibytes := (Spare(p, load) * 1024.0).Floor;
    if mebibytes > 1 then mebibytes else 1
  }

  function Weights(peers: seq<InferPeer>, load: Load): seq<int> {
    seq(|peers|, i requires 0 <= i < |peers| => Weight(peers[i], load))
  }

  function Counts(peers: seq<InferPeer>, load: Load): (r: seq<int>)
    requires 0 < |peers| <= load.layers
    ensures |r| == |peers| && Sum(r) == load.layers && forall i :: 0 <= i < |r| ==> r[i] >= 1
  {
    ApportionedIsFair(load.layers, Weights(peers, load));
    Apportioned(load.layers, Weights(peers, load))
  }

  function Estimate(load: Load, layers: int): real
    requires load.layers > 0
  {
    Times(layers, PerLayer(load)) + load.overhead
  }

  function PerLayer(load: Load): real
    requires load.layers > 0
  {
    load.weights / load.layers as real
  }

  function Times(n: int, x: real): real {
    n as real * x
  }

  function ShardAt(peers: seq<InferPeer>, load: Load, i: nat): InferShard
    requires i < |peers| <= load.layers
  {
    var counts, p := Counts(peers, load), peers[i];
    InferShard(i, p.platform, p.nodeID, p.role, Sum(counts[..i]), Sum(counts[..i]) + counts[i],
               Estimate(load, counts[i]))
  }

  predicate Fits(peers: seq<InferPeer>, load: Load, i: nat)
    requires i < |peers| <= load.layers
  {
    ShardAt(peers, load, i).estimated <= peers[i].usable + TOLERANCE
  }

  // The first shards of the plan as dealt out, before the memory check.
  method PlanShards(peers: seq<InferPeer>, load: Load) returns (r: seq<InferShard>)
    requires 0 < |peers| <= load.layers
    ensures |r| == |peers| && forall i :: 0 <= i < |r| ==> r[i] == ShardAt(peers, load, i)
  {
    hide Sum, Apportioned;
    var layers := Apportion(load.layers, Weights(peers, load));
    assert layers == Counts(peers, load);
    r := [];
    var cursor := 0;
    SumOfNone(layers);
    for rank := 0 to |peers|
      invariant |r| == rank && cursor == Sum(layers[..rank])
      invariant forall i :: 0 <= i < rank ==> r[i] == ShardAt(peers, load, i)
    {
      var p := peers[rank];
      r := r + [InferShard(rank, p.platform, p.nodeID, p.role, cursor, cursor + layers[rank],
                           Estimate(load, layers[rank]))];
      SumSnoc(layers, rank);
      cursor := cursor + layers[rank];
    }
    assert layers[..|peers|] == layers;
    // The source checks here that every layer has been dealt out.
    assert cursor == load.layers;
  }

  // One frontend, and enough spare memory in the pool.
  ghost predicate HasCapacity(peers: seq<InferPeer>, load: Load) {
    && |WithRole(peers, FrontendRole)| == 1
    && SpareTotal(Ordered(peers), load) + TOLERANCE >= load.weights
  }

  ghost predicate HasAggregate(peers: seq<InferPeer>, load: Load) {
    && HasCapacity(peers, load)
    && Usable(Ordered(peers)) + TOLERANCE >= load.weights + load.overhead
  }

  ghost predicate Accepts(peers: seq<InferPeer>, load: Load) {
    && HasAggregate(peers, load)
    && |Ordered(peers)| <= load.layers
    && forall i :: 0 <= i < |Ordered(peers)| ==> Fits(Ordered(peers), load, i)
  }

  /** The plan exists exactly when all five demands are met, and then it is rank by rank ShardAt. */
  method PlanInferShards(peers: seq<InferPeer>, load: Load) returns (r: Result<seq<InferShard>, PlanError>)
    ensures r.Ok? <==> Accepts(peers, load)
    ensures r.Ok? ==>
              && |r.value| == |Ordered(peers)|
              && forall i :: 0 <= i < |r.value| ==> r.value[i] == ShardAt(Ordered(peers), load, i)
    ensures r.Err? && r.error.FrontendCount? ==> r.error.found == |WithRole(peers, FrontendRole)| != 1
    ensures r == Err(OverCapacity) ==>
              |WithRole(peers, FrontendRole)| == 1 && SpareTotal(Ordered(peers), load) + TOLERANCE < load.weights
    ensures r == Err(OverAggregate) ==>
              HasCapacity(peers, load) && Usable(Ordered(peers)) + TOLERANCE < load.weights + load.overhead
    ensures r == Err(FewerLayersThanPeers) ==> HasAggregate(peers, load) && load.layers < |Ordered(peers)|
    ensures r.Err? && r.error.OverPeer? ==>
              HasAggregate(peers, load) &&
              r.error.rank < |Ordered(peers)| <= load.layers && !Fits(Ordered(peers), load, r.error.rank) &&
              forall i :: 0 <= i < r.error.rank ==> Fits(Ordered(peers), load, i)
  {
    hide Sort, Counts, Usable, SpareTotal, Estimate, WithRole, Ordered, Sum;
    var frontends := WithRole(peers, FrontendRole);
    if |frontends| != 1 {
      return Err(FrontendCount(|frontends|));
    }
    var ordered := Ordered(peers);
    if SpareTotal(ordered, load) + TOLERANCE < load.weights {
      return Err(OverCapacity);
    }
    if Usable(ordered) + TOLERANCE < load.weights + load.overhead {
      return Err(OverAggregate);
    }
    if load.layers < |ordered| {
      return Err(FewerLayersThanPeers);
    }
    var raw := PlanShards(ordered, load);
    var out := [];
    for i := 0 to |ordered|
      invariant out == raw[..i]
      invariant forall j :: 0 <= j < i ==> Fits(ordered, load, j)
    {
      if raw[i].estimated > ordered[i].usable + TOLERANCE {
        assert !Fits(ordered, load, i);
        return Err(OverPeer(raw[i].rank));
      }
      out := out + [raw[i]];
    }
    return Ok(out);
  }

  // ----- what an accepted plan is -----

  ghost predicate Contiguous(s: seq<InferShard>, n: int) {
    && s != []
    && s[0].startLayer == 0 && s[|s| - 1].endLayer == n
    && (forall i :: 0 <= i < |s| ==> s[i].rank == i && s[i].startLayer < s[i].endLayer)
    && (forall i :: 0 <= i < |s| - 1 ==> s[i].endLayer == s[i + 1].startLayer)
  }

  function EstimateSum(s: seq<InferShard>): real {
    if s == [] then 0.0 else EstimateSum(s[..|s| - 1]) + s[|s| - 1].estimated
  }

  ghost predicate IsPlan(s: seq<InferShard>, peers: seq<InferPeer>, load: Load)
    requires 0 < |peers| <= load.layers
  {
    |s| == |peers| && forall i :: 0 <= i < |s| ==> s[i] == ShardAt(peers, load, i)
  }

  /**
   * An accepted plan puts the frontend at rank 0 and the workers behind it in platform order,
   * covers exactly the model's layers with non-empty adjacent ranges, keeps every shard within
   * its peer's memory, and pays for all weights plus one overhead a peer. Its shards are those of
   * the frontend and all workers, each once.
   */
  lemma {:induction false} InferPlanIsSound(peers: seq<InferPeer>, load: Load, s: seq<InferShard>)
    requires Accepts(peers, load) && IsPlan(s, Ordered(peers), load)
    ensures s[0].role == FrontendRole
    ensures forall i :: 1 <= i < |s| ==> s[i].role == WorkerRole
    ensures forall i, j :: 1 <= i < j < |s| ==> s[i].platform <= s[j].platform
    ensures Contiguous(s, load.layers)
    ensures forall i :: 0 <= i < |s| ==> s[i].estimated <= Ordered(peers)[i].usable + 0.000000001
    ensures EstimateSum(s) == load.weights + Times(|s|, load.overhead)
    ensures forall i :: 0 <= i < |s| ==> IsFor(s[i], Ordered(peers)[i])
    ensures multiset(Ordered(peers)) == multiset(Working(peers))
  {
    OrderedRoles(peers);
    OrderedIsEverybody(peers);
    var ordered := Ordered(peers);
    hide Ordered, Counts, Sum, Estimate, EstimateSum;
    EachFits(ordered, load, s);
    CountsTile(ordered, load, s);
    EstimatesAll(ordered, load, s);
  }

  ghost predicate IsFor(shard: InferShard, p: InferPeer) {
    shard.platform == p.platform && shard.nodeID == p.nodeID && shard.role == p.role
  }

  // The frontends and the workers.
  function Working(peers: seq<InferPeer>): seq<InferPeer> {
    if peers == [] then []
    else
      var last := peers[|peers| - 1];
      Working(peers[..|peers| - 1]) + if last.role == OtherRole then [] else [last]
  }

  lemma {:induction false} WorkingHaveRoles(peers: seq<InferPeer>)
    ensures multiset(Working(peers)) == multiset(WithRole(peers, FrontendRole)) + multiset(WithRole(peers, WorkerRole))
  {
    if peers != [] {
      WorkingHaveRoles(peers[..|peers| - 1]);
    }
  }

  lemma OrderedIsEverybody(peers: seq<InferPeer>)
    requires |WithRole(peers, FrontendRole)| == 1
    ensures multiset(Ordered(peers)) == multiset(Working(peers))
  {
    hide WithRole, Working;
    ByPlatformIsOrder();
    WorkingHaveRoles(peers);
  }

  lemma EachFits(peers: seq<InferPeer>, load: Load, s: seq<InferShard>)
    requires 0 < |peers| <= load.layers && IsPlan(s, peers, load)
    requires forall i :: 0 <= i < |peers| ==> Fits(peers, load, i)
    ensures forall i :: 0 <= i < |s| ==> s[i].estimated <= peers[i].usable + TOLERANCE
  {
    hide ShardAt;
    forall i | 0 <= i < |s|
      ensures s[i].estimated <= peers[i].usable + TOLERANCE
    {
      assert Fits(peers, load, i);
    }
  }

  lemma {:induction false} EstimatesAll(peers: seq<InferPeer>, load: Load, s: seq<InferShard>)
    requires 0 < |peers| <= load.layers && IsPlan(s, peers, load)
    ensures EstimateSum(s) == load.weights + Times(|s|, load.overhead)
  {
    var counts := Counts(peers, load);
    hide Counts, Times, PerLayer, Sum;
    EstimatesUpTo(s, counts, PerLayer(load), load.overhead, |s|);
    assert s[..|s|] == s && counts[..|s|] == counts;
    WholeEstimate(load);
  }

  lemma {:induction false} OrderedRoles(peers: seq<InferPeer>)
    requires |WithRole(peers, FrontendRole)| == 1
    ensures
      var o := Ordered(peers);
      && o != [] && o[0].role == FrontendRole
      && (forall i :: 1 <= i < |o| ==> o[i].role == WorkerRole)
      && (forall i, j :: 1 <= i < j < |o| ==> o[i].platform <= o[j].platform)
  {
    ByPlatformIsOrder();
    var front, workers := WithRole(peers, FrontendRole), WithRole(peers, WorkerRole);
    var sorted := Sort(ByPlatform, workers);
    assert Ordered(peers) == front + sorted && front[0] in front;
    hide Sort, WithRole, Ordered;
    PermutationFacts(sorted, workers);
    assert forall x :: x in sorted ==> x.role == WorkerRole;
    FrontThenSorted(front[0], sorted);
    assert front == [front[0]];
  }

  lemma FrontThenSorted(front: InferPeer, sorted: seq<InferPeer>)
    requires SortedBy(ByPlatform, sorted)
    requires forall x :: x in sorted ==> x.role == WorkerRole
    ensures
      var o := [front] + sorted;
      && (forall i :: 1 <= i < |o| ==> o[i].role == WorkerRole)
      && (forall i, j :: 1 <= i < j < |o| ==> o[i].platform <= o[j].platform)
  {
    var o := [front] + sorted;
    forall i | 1 <= i < |o|
      ensures o[i].role == WorkerRole
    {
      assert sorted[i - 1] in sorted;
    }
    forall i, j | 1 <= i < j < |o|
      ensures o[i].platform <= o[j].platform
    {
      assert ByPlatform(sorted[i - 1], sorted[j - 1]);
    }
  }

  lemma CountsTile(peers: seq<InferPeer>, load: Load, s: seq<InferShard>)
    requires 0 < |peers| <= load.layers && IsPlan(s, peers, load)
    ensures Contiguous(s, load.layers)
  {
    var counts := Counts(peers, load);
    hide Counts, Sum, Estimate;
    SumOfNone(counts);
    forall i | 0 <= i < |s|
      ensures s[i].rank == i && s[i].startLayer == Sum(counts[..i]) && s[i].endLayer == Sum(counts[..i + 1])
      ensures s[i].startLayer < s[i].endLayer
    {
      SumSnoc(counts, i);
    }
    hide IsPlan;
    assert counts[..|s|] == counts;
  }

  lemma {:induction false} EstimatesUpTo(s: seq<InferShard>, counts: seq<int>, each: real, over: real, n: nat)
    requires n <= |s| == |counts|
    requires forall i :: 0 <= i < |s| ==> s[i].estimated == Times(counts[i], each) + over
    ensures EstimateSum(s[..n]) == Times(Sum(counts[..n]), each) + Times(n, over)
  {
    hide Sum, Times;
    if n == 0 {
      SumOfNone(counts);
      NoEstimate(each);
      NoEstimate(over);
    } else {
      EstimatesUpTo(s, counts, each, over, n - 1);
      SumSnoc(counts, n - 1);
      assert s[..n][..n - 1] == s[..n - 1];
      TimesGrows(Sum(counts[..n - 1]), counts[n - 1], each);
      TimesGrows(n - 1, 1, over);
      TimesOne(over);
    }
  }

  lemma NoEstimate(x: real)
    ensures EstimateSum([]) == 0.0 == Times(0, x)
  {
  }

  lemma TimesGrows(a: int, b: int, x: real)
    ensures Times(a + b, x) == Times(a, x) + Times(b, x)
  {
  }

  lemma TimesOne(x: real)
    ensures Times(1, x) == x
  {
  }

  lemma WholeEstimate(load: Load)
    requires load.layers > 0
    ensures Times(load.layers, PerLayer(load)) == load.weights
  {
  }

  // ----- layers for memory -----

  // The whole mebibytes a peer has left after its overhead, and at least one.
  ghost predicate IsShareOf(p: InferPeer, load: Load, mebibytes: int) {
    var left := p.usable - load.overhead;
    && mebibytes >= 1 && left * 1024.0 < (mebibytes + 1) as real
    && (mebibytes == 1 || mebibytes as real <= left * 1024.0)
  }

  lemma WeightsAreShares(peers: seq<InferPeer>, load: Load)
    ensures |Weights(peers, load)| == |peers| && Nonnegative(Weights(peers, load))
    ensures forall i :: 0 <= i < |peers| ==> IsShareOf(peers[i], load, Weights(peers, load)[i])
    ensures peers != [] ==> Sum(Weights(peers, load)) > 0
  {
    if peers != [] {
      var w := Weights(peers, load);
      SumNonNegative(w[..|w| - 1]);
    }
  }

  /**
   * What an accepted plan gives each peer for its memory, counted in whole mebibytes: at least one
   * layer and, above one, less than one more than its proportional share; its share rounded down
   * or up for all of them exactly under the condition QuotaHoldsIff states of the shares before
   * repair; and when none of those is zero, never fewer layers for strictly more memory.
   */
  lemma {:induction false} InferPlanIsProportional(peers: seq<InferPeer>, load: Load, s: seq<InferShard>)
    requires Accepts(peers, load) && IsPlan(s, Ordered(peers), load)
    ensures
      var ordered := Ordered(peers);
      exists memory: seq<int> ::
        && |memory| == |ordered| && (forall i :: 0 <= i < |memory| ==> IsShareOf(ordered[i], load, memory[i]))
        && IsProportional(s, memory, load.layers)
  {
    hide Sum, Ordered, Apportioned, Hamilton, InQuota, PairsAreFair, Weight, SpareTotal, Usable, Fits, IsShareOf;
    var ordered := Ordered(peers);
    var memory := Weights(ordered, load);
    WeightsAreShares(ordered, load);
    ApportionedIsFair(load.layers, memory);
    QuotaHoldsIff(load.layers, memory);
    WidthsAreCounts(ordered, load, s);
    if forall i :: 0 <= i < |memory| ==> Hamilton(load.layers, memory)[i] > 0 {
      forall i: nat, j: nat | i < |s| && j < |s| && memory[i] < memory[j]
        ensures Width(s[i]) <= Width(s[j])
      {
        HamiltonIsMonotone(load.layers, memory, i, j);
      }
    }
    assert IsProportional(s, memory, load.layers);
  }

  function Width(shard: InferShard): int {
    shard.endLayer - shard.startLayer
  }

  ghost predicate IsProportional(s: seq<InferShard>, memory: seq<int>, layers: int) {
    && |s| == |memory| <= layers && Nonnegative(memory) && Sum(memory) > 0
    && (forall i :: 0 <= i < |s| ==>
          Width(s[i]) >= 1 && (Width(s[i]) == 1 || (Width(s[i]) - 1) * Sum(memory) < layers * memory[i]))
    && |Hamilton(layers, memory)| == |memory| > 0
    && ((forall i :: 0 <= i < |s| ==> InQuota(layers * memory[i], Sum(memory), Width(s[i])))
        <==> PairsAreFair(layers, memory, Hamilton(layers, memory), 0))
    && ((forall i :: 0 <= i < |s| ==> Hamilton(layers, memory)[i] > 0) ==>
          forall i, j :: 0 <= i < |s| && 0 <= j < |s| && memory[i] < memory[j] ==> Width(s[i]) <= Width(s[j]))
  }

  lemma WidthsAreCounts(peers: seq<InferPeer>, load: Load, s: seq<InferShard>)
    requires 0 < |peers| <= load.layers && IsPlan(s, peers, load)
    ensures forall i :: 0 <= i < |s| ==> Width(s[i]) == Counts(peers, load)[i]
  {
    hide Counts, Estimate, Sum;
  }

  // What the first check sets aside for a peer: its overhead, or all it has if that is less.
  function Reserved(peers: seq<InferPeer>, load: Load): real {
    if peers == [] then 0.0
    else
      var u := peers[|peers| - 1].usable;
      Reserved(peers[..|peers| - 1], load) + if u < load.overhead then u else load.overhead
  }

  lemma {:induction false} UsableSplits(peers: seq<InferPeer>, load: Load)
    ensures Usable(peers) == SpareTotal(peers, load) + Reserved(peers, load)
  {
    if peers != [] {
      UsableSplits(peers[..|peers| - 1], load);
    }
  }

  lemma {:induction false} ReservedIsEnough(peers: seq<InferPeer>, load: Load)
    requires load.overhead >= 0.0 && forall p :: p in peers ==> p.usable >= 0.0
    ensures Reserved(peers, load) >= 0.0 && SpareTotal(peers, load) >= 0.0
    ensures SpareTotal(peers, load) > 0.0 ==> Reserved(peers, load) >= load.overhead
  {
    if peers != [] {
      ReservedIsEnough(peers[..|peers| - 1], load);
      assert peers[|peers| - 1] in peers;
    }
  }

  /**
   * When the second aggregate check refuses what the first let through, for any figures: exactly
   * when what the first sets aside from all peers together, with what the peers have to spare
   * beyond the weights, is less than one overhead. With non-negative memory and overhead that
   * takes a pool in which nobody has anything to spare and a model within the tolerance.
   */
  lemma {:induction false} SecondCheckRefusesIff(peers: seq<InferPeer>, load: Load)
    requires SpareTotal(peers, load) + TOLERANCE >= load.weights
    ensures Usable(peers) + TOLERANCE < load.weights + load.overhead
            <==> Reserved(peers, load) + (SpareTotal(peers, load) + TOLERANCE - load.weights) < load.overhead
    ensures
      (load.overhead >= 0.0 && forall p :: p in peers ==> p.usable >= 0.0) ==>
        Usable(peers) + TOLERANCE < load.weights + load.overhead ==>
          SpareTotal(peers, load) == 0.0 && load.weights <= TOLERANCE
  {
    UsableSplits(peers, load);
    if load.overhead >= 0.0 && forall p :: p in peers ==> p.usable >= 0.0 {
      ReservedIsEnough(peers, load);
    }
  }

  /** So for peers with non-negative memory and a model above the tolerance it never refuses. */
  lemma {:induction false} SecondCheckIsRedundant(peers: seq<InferPeer>, load: Load)
    requires load.overhead >= 0.0 && load.weights > TOLERANCE
    requires forall p :: p in peers ==> p.usable >= 0.0
    requires SpareTotal(peers, load) + TOLERANCE >= load.weights
    ensures Usable(peers) + TOLERANCE >= load.weights + load.overhead
  {
    SecondCheckRefusesIff(peers, load);
  }

  /** A peer that reports negative memory can make it refuse. */
  lemma NegativeMemoryIsRefused()
    ensures
      var peers := [InferPeer(0, "a", 100.0, FrontendRole), InferPeer(1, "b", -99.0, WorkerRole)];
      var load := Load(8, 50.0, 1.0);
      && SpareTotal(peers, load) + TOLERANCE >= load.weights
      && Usable(peers) + TOLERANCE < load.weights + load.overhead
  {
    var peers := [InferPeer(0, "a", 100.0, FrontendRole), InferPeer(1, "b", -99.0, WorkerRole)];
    assert peers[..1] == [peers[0]] && peers[..1][..0] == [];
  }
}
