/**
 * How many layers a plan gives each node, told from the nodes' usable memories alone, and exactly
 * when there is a plan and what error there is otherwise.
 */
module PlacementShares {
  import opened Base
  import opened Capability
  import opened Sorting
  import opened Planner
  import opened Placement

  // What a node has left for layers once its overhead is paid.
  function Spare(model: ModelSpec, m: PlannedMember): int {
    if m.profile.usableBytes <= model.overheadBytes then 0 else m.profile.usableBytes - model.overheadBytes
  }

  function Spares(model: ModelSpec, eligible: seq<PlannedMember>): (r: seq<int>)
    ensures |r| == |eligible| && Nonnegative(r)
  {
    seq(|eligible|, i requires 0 <= i < |eligible| => Spare(model, eligible[i]))
  }

  lemma CapacitiesAreSpares(model: ModelSpec, eligible: seq<PlannedMember>)
    ensures Capacities(model, eligible) == Spares(model, eligible)
  {
  }

  // The least whole number of bytes a layer that over all layers covers the weights.
  ghost predicate LeastPerLayer(model: ModelSpec, each: int) {
    && model.layerCount * each >= model.totalWeightBytes
    && forall less :: model.layerCount * less >= model.totalWeightBytes ==> each <= less
  }

  /** The figure the planner charges per layer is that least one, for every model of some size. */
  lemma PerLayerIsLeast(model: ModelSpec)
    requires model.layerCount > 0 && model.totalWeightBytes >= 0
    ensures LeastPerLayer(model, BytesPerLayer(model))
  {
    LayersCoverWeights(model);
    var n, w, each := model.layerCount, model.totalWeightBytes, BytesPerLayer(model);
    DivideWith(w + n - 1, n);
    assert n * (each - 1) == n * each - n;
    forall less | n * less >= w
      ensures each <= less
    {
      if less < each {
        Times(n, less, each - 1);
      }
    }
  }

  lemma Times(n: int, a: int, b: int)
    requires n >= 0 && a <= b
    ensures n * a <= n * b
  {
  }

  // ----- the layers of a plan -----

  lemma {:induction false} AssignedWidths(model: ModelSpec, eligible: seq<PlannedMember>, layers: seq<int>, n: nat)
    requires n <= |eligible| == |layers| && Assigned(model, eligible, layers, n).Ok?
    ensures
      var s := Assigned(model, eligible, layers, n).value;
      |s| == n && forall i :: 0 <= i < n ==> s[i].endLayer - s[i].startLayer == layers[i]
  {
    hide Sum, BytesFor;
    if n > 0 {
      AssignedWidths(model, eligible, layers, n - 1);
      AssignedNext(model, eligible, layers, n - 1);
    }
  }

  // Rank i's number of layers.
  function Width(plan: ShardPlan, i: nat): int
    requires i < |plan.assignments|
  {
    plan.assignments[i].endLayer - plan.assignments[i].startLayer
  }

  /** A plan's layer counts are the apportionment of the layers by spare memory. */
  lemma {:induction false} PlanWidths(
    policy: Policy, model: ModelSpec, members: seq<PlannedMember>, epoch: nat, now: real, estimate: real)
    requires PlanOf(policy, model, members, epoch, now, estimate).Ok?
    ensures
      var plan := PlanOf(policy, model, members, epoch, now, estimate).value;
      var eligible := EligibleMembers(policy, members, now, estimate);
      && |plan.assignments| == |eligible| && 0 < |eligible| <= model.layerCount
      && |Apportioned(model.layerCount, Spares(model, eligible))| == |eligible|
      && forall i :: 0 <= i < |eligible| ==>
           Width(plan, i) == Apportioned(model.layerCount, Spares(model, eligible))[i]
  {
    hide Sum, EligibleMembers, Apportioned, Assigned;
    var eligible := EligibleMembers(policy, members, now, estimate);
    CapacitiesAreSpares(model, eligible);
    AssignedWidths(model, eligible, LayerCounts(model, eligible), |eligible|);
  }

  /**
   * What a plan gives each node for its memory. Rank i gets at least one layer and, above one, less
   * than one more than its proportional share; each gets its share rounded down or up exactly under
   * the condition QuotaHoldsIff states of the shares before repair. When none of those is zero, a
   * node with strictly more spare memory never gets fewer layers, and of two nodes of which only
   * one is rounded up, that one has the larger remainder, or the smaller node ID.
   */
  lemma {:induction false} PlanIsProportional(
    policy: Policy, model: ModelSpec, members: seq<PlannedMember>, epoch: nat, now: real, estimate: real)
    requires PlanOf(policy, model, members, epoch, now, estimate).Ok?
    requires
      var eligible := EligibleMembers(policy, members, now, estimate);
      exists m :: m in eligible && m.profile.usableBytes > model.overheadBytes
    ensures
      var plan := PlanOf(policy, model, members, epoch, now, estimate).value;
      var eligible := EligibleMembers(policy, members, now, estimate);
      var n, spare := model.layerCount, Spares(model, eligible);
      var all := Sum(spare);
      && |plan.assignments| == |eligible| && all > 0 && n >= |eligible|
      && (forall i :: 0 <= i < |eligible| ==>
            Width(plan, i) >= 1 && (Width(plan, i) == 1 || (Width(plan, i) - 1) * all < n * spare[i]))
      && |Hamilton(n, spare)| == |eligible|
      && ((forall i :: 0 <= i < |eligible| ==> InQuota(n * spare[i], all, Width(plan, i)))
          <==> PairsAreFair(n, spare, Hamilton(n, spare), 0))
      && ((forall i :: 0 <= i < |eligible| ==> Hamilton(n, spare)[i] > 0) ==>
            forall i, j :: 0 <= i < |eligible| && 0 <= j < |eligible| ==>
              && (spare[i] < spare[j] ==> Width(plan, i) <= Width(plan, j))
              && RoundedByRemainder(n * spare[i], n * spare[j], all, Width(plan, i), Width(plan, j), i < j))
  {
    hide Sum, EligibleMembers, Apportioned, Hamilton, InQuota, PairsAreFair, PlanOf, RoundedByRemainder, Repairs;
    var plan := PlanOf(policy, model, members, epoch, now, estimate).value;
    var eligible := EligibleMembers(policy, members, now, estimate);
    var n, spare := model.layerCount, Spares(model, eligible);
    PlanWidths(policy, model, members, epoch, now, estimate);
    SomeSpare(model, eligible);
    ApportionedIsFair(n, spare);
    QuotaHoldsIff(n, spare);
    QuotaOfWidths(plan, n, spare);
    if forall i :: 0 <= i < |eligible| ==> Hamilton(n, spare)[i] > 0 {
      forall i: nat, j: nat | i < |eligible| && j < |eligible|
        ensures spare[i] < spare[j] ==> Width(plan, i) <= Width(plan, j)
        ensures RoundedByRemainder(n * spare[i], n * spare[j], Sum(spare), Width(plan, i), Width(plan, j), i < j)
      {
        if spare[i] < spare[j] {
          HamiltonIsMonotone(n, spare, i, j);
        }
        RoundsByRemainder(n, spare, i, j);
      }
    }
  }

  // If only the first of two entitlements is rounded up it has the larger remainder, or an equal
  // one and comes first.
  predicate RoundedByRemainder(exact: int, other: int, all: int, share: int, otherShare: int, first: bool)
    requires all > 0
  {
    share > exact / all && otherShare == other / all ==>
      exact % all > other % all || (exact % all == other % all && first)
  }

  lemma {:induction false} RoundsByRemainder(n: nat, spare: seq<int>, i: nat, j: nat)
    requires Nonnegative(spare) && Sum(spare) > 0 && i < |spare| && j < |spare|
    ensures |Hamilton(n, spare)| == |spare|
    ensures RoundedByRemainder(n * spare[i], n * spare[j], Sum(spare), Hamilton(n, spare)[i], Hamilton(n, spare)[j],
                               i < j)
  {
    hide Sum, Hamilton;
    HamiltonByRemainder(n, spare, i, j);
  }

  lemma QuotaOfWidths(plan: ShardPlan, n: nat, spare: seq<int>)
    requires spare != [] && Nonnegative(spare) && |plan.assignments| == |spare| == |Apportioned(n, spare)|
    requires forall i :: 0 <= i < |spare| ==> Width(plan, i) == Apportioned(n, spare)[i]
    ensures AllInQuota(n, spare, Apportioned(n, spare))
            <==> forall i :: 0 <= i < |spare| ==> InQuota(n * spare[i], Sum(spare), Width(plan, i))
  {
    hide Apportioned, InQuota, Sum;
  }

  lemma SomeSpare(model: ModelSpec, eligible: seq<PlannedMember>)
    requires exists m :: m in eligible && m.profile.usableBytes > model.overheadBytes
    ensures eligible != [] && Sum(Spares(model, eligible)) > 0
  {
    var m :| m in eligible && m.profile.usableBytes > model.overheadBytes;
    var k :| 0 <= k < |eligible| && eligible[k] == m;
    SumAtLeast(Spares(model, eligible), k);
  }

  lemma {:induction false} SumAtLeast(s: seq<int>, k: nat)
    requires Nonnegative(s) && k < |s|
    ensures Sum(s) >= s[k]
  {
    if k < |s| - 1 {
      SumAtLeast(s[..|s| - 1], k);
    } else {
      SumNonNegative(s[..|s| - 1]);
    }
  }

  /** When nobody has memory to spare, the layers are dealt evenly, the first nodes one more. */
  lemma {:induction false} PlanIsEven(
    policy: Policy, model: ModelSpec, members: seq<PlannedMember>, epoch: nat, now: real, estimate: real)
    requires PlanOf(policy, model, members, epoch, now, estimate).Ok?
    requires
      var eligible := EligibleMembers(policy, members, now, estimate);
      forall m :: m in eligible ==> m.profile.usableBytes <= model.overheadBytes
    ensures
      var plan := PlanOf(policy, model, members, epoch, now, estimate).value;
      var k := |EligibleMembers(policy, members, now, estimate)|;
      && |plan.assignments| == k > 0
      && forall i :: 0 <= i < k ==>
           Width(plan, i) == model.layerCount / k + if i < model.layerCount % k then 1 else 0
  {
    hide EligibleMembers, PlanOf, Sum;
    var eligible := EligibleMembers(policy, members, now, estimate);
    PlanWidths(policy, model, members, epoch, now, estimate);
    NothingSpare(Spares(model, eligible));
    AtLeastOne(model.layerCount, |eligible|);
    EvenStays(model.layerCount, |eligible|);
  }

  lemma {:induction false} NothingSpare(s: seq<int>)
    requires forall i :: 0 <= i < |s| ==> s[i] == 0
    ensures Sum(s) == 0
  {
    if s != [] {
      NothingSpare(s[..|s| - 1]);
    }
  }

  lemma {:induction false} EvenStays(n: nat, k: nat)
    requires 0 < k <= n
    ensures Repair(Even(n, k)) == Even(n, k)
  {
    AtLeastOne(n, k);
    RepairDone(Even(n, k));
  }

  // ----- exactly when there is a plan, and which error there is otherwise -----

  // Somebody is eligible, there are layers for all, and the spare memory covers the weights.
  predicate Enough(model: ModelSpec, eligible: seq<PlannedMember>) {
    0 < |eligible| <= model.layerCount && Sum(Spares(model, eligible)) >= model.totalWeightBytes
  }

  // What rank i's share of the layers takes.
  function Needs(model: ModelSpec, eligible: seq<PlannedMember>, i: nat): int
    requires i < |eligible| <= model.layerCount
  {
    ApportionedIsFair(model.layerCount, Spares(model, eligible));
    Apportioned(model.layerCount, Spares(model, eligible))[i] * BytesPerLayer(model) + model.overheadBytes
  }

  predicate FitsUpTo(model: ModelSpec, eligible: seq<PlannedMember>, n: nat)
    requires n <= |eligible| <= model.layerCount
  {
    forall i :: 0 <= i < n ==> Needs(model, eligible, i) <= eligible[i].profile.usableBytes
  }

  // Rank i's node is the first that cannot hold its share, and the error says so.
  predicate StopsAt(model: ModelSpec, eligible: seq<PlannedMember>, i: nat, error: Error)
    requires i < |eligible| <= model.layerCount
  {
    var m, needs := eligible[i].profile, Needs(model, eligible, i);
    FitsUpTo(model, eligible, i) && needs > m.usableBytes && error == CannotFit(m.nodeID, needs, m.usableBytes)
  }

  // One more rank is assigned, if it fits.
  lemma {:induction false} OneMoreFits(model: ModelSpec, eligible: seq<PlannedMember>, i: nat)
    requires i < |eligible| <= model.layerCount
    requires Assigned(model, eligible, LayerCounts(model, eligible), i).Ok?
    ensures
      var r := Assigned(model, eligible, LayerCounts(model, eligible), i + 1);
      var m, needs := eligible[i].profile, Needs(model, eligible, i);
      && (r.Ok? <==> needs <= m.usableBytes)
      && (r.Err? ==> r.error == CannotFit(m.nodeID, needs, m.usableBytes))
  {
    hide Assigned, Apportioned, BytesPerLayer, Sum;
    CapacitiesAreSpares(model, eligible);
    AssignedNext(model, eligible, LayerCounts(model, eligible), i);
  }

  lemma FitsOneMore(model: ModelSpec, eligible: seq<PlannedMember>, i: nat)
    requires i < |eligible| <= model.layerCount
    ensures FitsUpTo(model, eligible, i + 1)
            <==> FitsUpTo(model, eligible, i) && Needs(model, eligible, i) <= eligible[i].profile.usableBytes
  {
    hide Needs;
  }

  lemma {:induction false} AssignedOutcome(model: ModelSpec, eligible: seq<PlannedMember>, n: nat)
    requires n <= |eligible| && 0 < |eligible| <= model.layerCount
    ensures
      var r := Assigned(model, eligible, LayerCounts(model, eligible), n);
      && (r.Ok? <==> FitsUpTo(model, eligible, n))
      && (r.Err? ==> exists i :: 0 <= i < n && StopsAt(model, eligible, i, r.error))
  {
    if n == 0 {
      hide Needs, LayerCounts;
      AssignedNone(model, eligible, LayerCounts(model, eligible));
    } else {
      AssignedOutcome(model, eligible, n - 1);
      OneMoreOutcome(model, eligible, n - 1);
    }
  }

  lemma {:induction false} OneMoreOutcome(model: ModelSpec, eligible: seq<PlannedMember>, n: nat)
    requires n < |eligible| <= model.layerCount
    requires
      var r := Assigned(model, eligible, LayerCounts(model, eligible), n);
      && (r.Ok? <==> FitsUpTo(model, eligible, n))
      && (r.Err? ==> exists i :: 0 <= i < n && StopsAt(model, eligible, i, r.error))
    ensures
      var r := Assigned(model, eligible, LayerCounts(model, eligible), n + 1);
      && (r.Ok? <==> FitsUpTo(model, eligible, n + 1))
      && (r.Err? ==> exists i :: 0 <= i < n + 1 && StopsAt(model, eligible, i, r.error))
  {
    hide Assigned, LayerCounts, Needs, FitsUpTo;
    var counts := LayerCounts(model, eligible);
    FitsOneMore(model, eligible, n);
    if Assigned(model, eligible, counts, n).Ok? {
      OneMoreFits(model, eligible, n);
      if Assigned(model, eligible, counts, n + 1).Err? {
        assert StopsAt(model, eligible, n, Assigned(model, eligible, counts, n + 1).error);
      }
    } else {
      AssignedStops(model, eligible, counts, n, n + 1);
      var i :| 0 <= i < n && StopsAt(model, eligible, i, Assigned(model, eligible, counts, n).error);
      assert StopsAt(model, eligible, i, Assigned(model, eligible, counts, n + 1).error);
    }
  }

  /**
   * The outcome of planning, on the members' facts and memories: which of the four errors there
   * is, with its figures, and when there is none. A node that cannot hold its share is the first
   * such in node order.
   */
  lemma {:induction false} PlanFailsIff(
    policy: Policy, model: ModelSpec, members: seq<PlannedMember>, epoch: nat, now: real, estimate: real)
    ensures
      var r := PlanOf(policy, model, members, epoch, now, estimate);
      var e := EligibleMembers(policy, members, now, estimate);
      var available := Sum(Spares(model, e));
      && (r == Err(NoEligibleNodes) <==> forall m :: m in members ==> !Eligible(policy, m, now, estimate))
      && (r == Err(MoreNodesThanLayers(model.layerCount, |e|)) <==> e != [] && |e| > model.layerCount)
      && (r == Err(InsufficientMemory(model.totalWeightBytes, available))
          <==> 0 < |e| <= model.layerCount && available < model.totalWeightBytes)
      && (r.Ok? <==> Enough(model, e) && FitsUpTo(model, e, |e|))
      && (Enough(model, e) && !FitsUpTo(model, e, |e|) ==>
            r.Err? && exists i :: 0 <= i < |e| && StopsAt(model, e, i, r.error))
  {
    hide Sum, EligibleMembers, LayerCounts, Assigned, Eligible, FitsUpTo;
    EligibleFacts(policy, members, now, estimate);
    var e := EligibleMembers(policy, members, now, estimate);
    CapacitiesAreSpares(model, e);
    if e == [] {
      forall m | m in members
        ensures !Eligible(policy, m, now, estimate)
      {
        assert m !in e;
      }
    } else {
      assert e[0] in e;
      if |e| <= model.layerCount {
        AssignedOutcome(model, e, |e|);
      }
    }
  }
}
