/** Which members may hold a required stage, and the shard plan made from them. */
module Placement {
  import opened Base
  import opened Capability
  import opened Sorting
  import opened Planner

  datatype ModelSpec = ModelSpec(modelID: string, layerCount: int, totalWeightBytes: int, overheadBytes: int)

  datatype Policy = Policy(minimumTrust: Trust, requireLease: bool, excludeDuress: bool)

  datatype Assignment = Assignment(nodeID: NodeID, rank: nat, startLayer: int, endLayer: int, bytes: int)

  datatype ShardPlan = ShardPlan(epoch: nat, modelID: string, layerCount: int, assignments: seq<Assignment>)

  datatype Error =
    | NoEligibleNodes
    | MoreNodesThanLayers(layers: int, nodes: int)
    | InsufficientMemory(required: int, available: int)
    | CannotFit(node: NodeID, required: int, usable: int)

  // Integer division as Swift does it, toward zero; the divisor is positive here.
  function Quotient(a: int, b: int): int
    requires b > 0
  {
    if a >= 0 then a / b else -((-a) / b)
  }

  function BytesPerLayer(m: ModelSpec): int {
    if m.layerCount > 0 then Quotient(m.totalWeightBytes + m.layerCount - 1, m.layerCount) else 0
  }

  function BytesFor(m: ModelSpec, layers: int): int {
    layers * BytesPerLayer(m) + m.overheadBytes
  }

  /** The per-layer figure is rounded up: all layers together cover the model's weights. */
  lemma LayersCoverWeights(m: ModelSpec)
    requires m.layerCount > 0
    ensures m.layerCount * BytesPerLayer(m) >= m.totalWeightBytes
  {
    var a, d := m.totalWeightBytes + m.layerCount - 1, m.layerCount;
    if a >= 0 {
      DivideWith(a, d);
    } else {
      DivideWith(-a, d);
      assert d * (-((-a) / d)) == -(d * ((-a) / d));
    }
  }

  function Capacity(m: ModelSpec, member: PlannedMember): int {
    if member.profile.usableBytes - m.overheadBytes > 0 then member.profile.usableBytes - m.overheadBytes else 0
  }

  predicate Eligible(policy: Policy, m: PlannedMember, now: real, estimate: real) {
    && m.state.CanHostRequired()
    && m.profile.declaresRequired
    && m.profile.trust.Level() >= policy.minimumTrust.Level()
    && !(policy.excludeDuress && m.profile.power.IsUnderDuress())
    && (policy.requireLease ==>
          m.lease.Some? && m.lease.value.CanHost(DecodeAuthoritative, estimate, now))
  }

  function Filter(policy: Policy, members: seq<PlannedMember>, now: real, estimate: real): (r: seq<PlannedMember>)
    ensures forall m :: m in r <==> m in members && Eligible(policy, m, now, estimate)
  {
    if members == [] then []
    else
      var front, last := members[..|members| - 1], members[|members| - 1];
      assert members == front + [last];
      Filter(policy, front, now, estimate) + if Eligible(policy, last, now, estimate) then [last] else []
  }

  predicate ByNode(a: PlannedMember, b: PlannedMember) {
    a.profile.nodeID <= b.profile.nodeID
  }

  lemma ByNodeIsOrder()
    ensures Total(ByNode) && Transitive(ByNode)
  {
  }

  function EligibleMembers(
    policy: Policy, members: seq<PlannedMember>, now: real, estimate: real): (r: seq<PlannedMember>)
  {
    ByNodeIsOrder();
    Sort(ByNode, Filter(policy, members, now, estimate))
  }

  function Capacities(model: ModelSpec, eligible: seq<PlannedMember>): seq<int> {
    seq(|eligible|, i requires 0 <= i < |eligible| => Capacity(model, eligible[i]))
  }

  function LayerCounts(model: ModelSpec, eligible: seq<PlannedMember>): (r: seq<int>)
    requires 0 < |eligible| <= model.layerCount
    ensures |r| == |eligible| && Sum(r) == model.layerCount
    ensures forall i :: 0 <= i < |r| ==> r[i] >= 1
  {
    ApportionedIsFair(model.layerCount, Capacities(model, eligible));
    Apportioned(model.layerCount, Capacities(model, eligible))
  }

  // The first `n` ranks' assignments, or the first of those nodes that cannot hold its shard.
  function Assigned(
    model: ModelSpec, eligible: seq<PlannedMember>, layers: seq<int>, n: nat): Result<seq<Assignment>, Error>
    requires n <= |eligible| == |layers|
  {
    if n == 0 then Ok([])
    else
      var before := Assigned(model, eligible, layers, n - 1);
      if before.Err? then before
      else
        var rank := n - 1;
        var id, usable := eligible[rank].profile.nodeID, eligible[rank].profile.usableBytes;
        var cursor, bytes := Sum(layers[..rank]), BytesFor(model, layers[rank]);
        if bytes <= usable
        then Ok(before.value + [Assignment(id, rank, cursor, cursor + layers[rank], bytes)])
        else Err(CannotFit(id, bytes, usable))
  }

  function PlanOf(
    policy: Policy, model: ModelSpec, members: seq<PlannedMember>, epoch: nat, now: real,
    estimate: real): Result<ShardPlan, Error>
  {
    var eligible := EligibleMembers(policy, members, now, estimate);
    if eligible == [] then Err(NoEligibleNodes)
    else if |eligible| > model.layerCount then Err(MoreNodesThanLayers(model.layerCount, |eligible|))
    else
      var capacities := Capacities(model, eligible);
      if Sum(capacities) < model.totalWeightBytes
      then Err(InsufficientMemory(model.totalWeightBytes, Sum(capacities)))
      else
        var all := Assigned(model, eligible, LayerCounts(model, eligible), |eligible|);
        if all.Err? then Err(all.error)
        else Ok(ShardPlan(epoch, model.modelID, model.layerCount, all.value))
  }

  method Plan(policy: Policy, model: ModelSpec, members: seq<PlannedMember>, epoch: nat, now: real, estimate: real)
    returns (r: Result<ShardPlan, Error>)
    ensures r == PlanOf(policy, model, members, epoch, now, estimate)
  {
    hide Sum, EligibleMembers, Assigned, Apportioned, BytesFor;
    var eligible := EligibleMembers(policy, members, now, estimate);
    if eligible == [] {
      return Err(NoEligibleNodes);
    }
    if |eligible| > model.layerCount {
      return Err(MoreNodesThanLayers(model.layerCount, |eligible|));
    }
    var capacities := Capacities(model, eligible);
    var available := Sum(capacities);
    if available < model.totalWeightBytes {
      return Err(InsufficientMemory(model.totalWeightBytes, available));
    }
    var layerCounts := Apportion(model.layerCount, capacities);
    assert layerCounts == LayerCounts(model, eligible);
    var assignments: seq<Assignment> := [];
    var cursor := 0;
    SumOfNone(layerCounts);
    AssignedNone(model, eligible, layerCounts);
    for rank := 0 to |eligible|
      invariant cursor == Sum(layerCounts[..rank])
      invariant Assigned(model, eligible, layerCounts, rank) == Ok(assignments)
    {
      var member := eligible[rank];
      var bytes := BytesFor(model, layerCounts[rank]);
      AssignedNext(model, eligible, layerCounts, rank);
      SumSnoc(layerCounts, rank);
      if bytes > member.profile.usableBytes {
        AssignedStops(model, eligible, layerCounts, rank + 1, |eligible|);
        return Err(CannotFit(member.profile.nodeID, bytes, member.profile.usableBytes));
      }
      assignments := assignments
        + [Assignment(member.profile.nodeID, rank, cursor, cursor + layerCounts[rank], bytes)];
      cursor := cursor + layerCounts[rank];
    }
    assert layerCounts[..|eligible|] == layerCounts;
    // The source checks here that the plan covers every layer.
    assert cursor == model.layerCount;
    return Ok(ShardPlan(epoch, model.modelID, model.layerCount, assignments));
  }

  lemma {:induction false} AssignedNone(model: ModelSpec, eligible: seq<PlannedMember>, layers: seq<int>)
    requires |eligible| == |layers|
    ensures Assigned(model, eligible, layers, 0) == Ok([])
  {
  }

  lemma AssignedNext(model: ModelSpec, eligible: seq<PlannedMember>, layers: seq<int>, rank: nat)
    requires rank < |eligible| == |layers| && Assigned(model, eligible, layers, rank).Ok?
    ensures
      var m, bytes, start := eligible[rank].profile, BytesFor(model, layers[rank]), Sum(layers[..rank]);
      Assigned(model, eligible, layers, rank + 1)
      == if bytes <= m.usableBytes
         then Ok(Assigned(model, eligible, layers, rank).value
                 + [Assignment(m.nodeID, rank, start, start + layers[rank], bytes)])
         else Err(CannotFit(m.nodeID, bytes, m.usableBytes))
  {
  }

  lemma {:induction false} AssignedStops(
    model: ModelSpec, eligible: seq<PlannedMember>, layers: seq<int>, k: nat, n: nat)
    requires k <= n <= |eligible| == |layers| && Assigned(model, eligible, layers, k).Err?
    ensures Assigned(model, eligible, layers, n) == Assigned(model, eligible, layers, k)
    decreases n
  {
    if k < n {
      AssignedStops(model, eligible, layers, k, n - 1);
    }
  }

  // ----- what a plan is -----

  // Adjacent non-empty ranges in rank order that cover exactly 0..n.
  ghost predicate Tiles(s: seq<Assignment>, n: int) {
    && s != []
    && s[0].startLayer == 0 && s[|s| - 1].endLayer == n
    && (forall i :: 0 <= i < |s| ==> s[i].rank == i && s[i].startLayer < s[i].endLayer)
    && (forall i :: 0 <= i < |s| - 1 ==> s[i].endLayer == s[i + 1].startLayer)
  }

  ghost predicate Holds(model: ModelSpec, m: PlannedMember, a: Assignment) {
    && a.nodeID == m.profile.nodeID
    && a.bytes == (a.endLayer - a.startLayer) * BytesPerLayer(model) + model.overheadBytes
    && a.bytes <= m.profile.usableBytes
  }

  lemma {:induction false} AssignedTiles(model: ModelSpec, eligible: seq<PlannedMember>, layers: seq<int>, n: nat)
    requires n <= |eligible| == |layers| && Assigned(model, eligible, layers, n).Ok?
    requires forall i :: 0 <= i < |layers| ==> layers[i] >= 1
    ensures
      var s := Assigned(model, eligible, layers, n).value;
      && |s| == n
      && (n > 0 ==> Tiles(s, Sum(layers[..n])))
      && (forall i :: 0 <= i < n ==> Holds(model, eligible[i], s[i]))
  {
    if n > 0 {
      AssignedTiles(model, eligible, layers, n - 1);
      AssignedNext(model, eligible, layers, n - 1);
      SumSnoc(layers, n - 1);
      SumOfNone(layers);
    }
  }

  lemma {:induction false} EligibleFacts(policy: Policy, members: seq<PlannedMember>, now: real, estimate: real)
    ensures
      var e := EligibleMembers(policy, members, now, estimate);
      && SortedBy(ByNode, e)
      && (forall m :: m in e <==> m in members && Eligible(policy, m, now, estimate))
      && multiset(e) == multiset(Filter(policy, members, now, estimate))
  {
    ByNodeIsOrder();
    PermutationFacts(EligibleMembers(policy, members, now, estimate), Filter(policy, members, now, estimate));
  }

  /**
   * A returned plan gives the eligible members, in node order, ranks from zero and non-empty
   * adjacent ranges that cover exactly the model's layers, each within its node's usable memory;
   * together they pay for the whole model and every node's overhead.
   */
  lemma PlanIsSound(
    policy: Policy, model: ModelSpec, members: seq<PlannedMember>, epoch: nat, now: real, estimate: real)
    requires PlanOf(policy, model, members, epoch, now, estimate).Ok?
    ensures
      var plan := PlanOf(policy, model, members, epoch, now, estimate).value;
      var eligible := EligibleMembers(policy, members, now, estimate);
      && plan.epoch == epoch && plan.modelID == model.modelID
      && plan.layerCount == model.layerCount && |plan.assignments| == |eligible|
      && Tiles(plan.assignments, model.layerCount)
      && (forall i :: 0 <= i < |eligible| ==> Holds(model, eligible[i], plan.assignments[i]))
      && TotalBytes(plan.assignments) >= model.totalWeightBytes + |eligible| * model.overheadBytes
  {
    hide Sum, EligibleMembers, LayerCounts, Assigned;
    var eligible := EligibleMembers(policy, members, now, estimate);
    var layers := LayerCounts(model, eligible);
    AssignedTiles(model, eligible, layers, |eligible|);
    assert layers[..|eligible|] == layers;
    AssignedBytes(model, eligible, layers, |eligible|);
    LayersCoverWeights(model);
  }

  function TotalBytes(s: seq<Assignment>): int {
    if s == [] then 0 else TotalBytes(s[..|s| - 1]) + s[|s| - 1].bytes
  }

  lemma {:induction false} AssignedBytes(model: ModelSpec, eligible: seq<PlannedMember>, layers: seq<int>, n: nat)
    requires n <= |eligible| == |layers| && Assigned(model, eligible, layers, n).Ok?
    ensures TotalBytes(Assigned(model, eligible, layers, n).value)
            == Sum(layers[..n]) * BytesPerLayer(model) + n * model.overheadBytes
  {
    hide Sum, BytesPerLayer, TotalBytes;
    if n == 0 {
      SumOfNone(layers);
      NoBytes();
    } else {
      AssignedBytes(model, eligible, layers, n - 1);
      AssignedNext(model, eligible, layers, n - 1);
      SumSnoc(layers, n - 1);
      var before := Assigned(model, eligible, layers, n - 1).value;
      var last := Assigned(model, eligible, layers, n).value[|before|];
      BytesSnoc(before, last);
      OneShardMore(Sum(layers[..n - 1]), layers[n - 1], BytesPerLayer(model), n, model.overheadBytes);
    }
  }

  lemma NoBytes()
    ensures TotalBytes([]) == 0
  {
  }

  lemma {:induction false} BytesSnoc(s: seq<Assignment>, a: Assignment)
    ensures TotalBytes(s + [a]) == TotalBytes(s) + a.bytes
  {
    assert (s + [a])[..|s + [a]| - 1] == s;
  }

  lemma OneShardMore(sum: int, more: int, each: int, n: int, over: int)
    ensures sum * each + (n - 1) * over + (more * each + over) == (sum + more) * each + n * over
  {
  }

  // ----- the plan does not depend on the order of its input -----

  lemma {:induction false} FilterAppend(
    policy: Policy, a: seq<PlannedMember>, b: seq<PlannedMember>, now: real, estimate: real)
    ensures Filter(policy, a + b, now, estimate)
            == Filter(policy, a, now, estimate) + Filter(policy, b, now, estimate)
  {
    if b == [] {
      assert a + b == a;
    } else {
      assert (a + b)[..|a + b| - 1] == a + b[..|b| - 1];
      FilterAppend(policy, a, b[..|b| - 1], now, estimate);
    }
  }

  lemma {:induction false} FilterPermuted(
    policy: Policy, a: seq<PlannedMember>, b: seq<PlannedMember>, now: real, estimate: real)
    requires multiset(a) == multiset(b)
    ensures multiset(Filter(policy, a, now, estimate)) == multiset(Filter(policy, b, now, estimate))
  {
    hide Filter;
    if a == [] {
      assert |b| == |multiset(b)| == 0;
    } else {
      var front, last := a[..|a| - 1], a[|a| - 1];
      assert a == front + [last] + [] && front + [] == front;
      assert last in multiset(b);
      var k :| 0 <= k < |b| && b[k] == last;
      var rest := b[..k] + b[k + 1..];
      assert b == b[..k] + [last] + b[k + 1..];
      Pluck(b, k);
      assert multiset(a) == multiset{last} + multiset(front);
      DropOne(multiset(front), multiset(rest), last);
      FilterPermuted(policy, front, rest, now, estimate);
      FilterAround(policy, b[..k], last, b[k + 1..], now, estimate);
      FilterAround(policy, front, last, [], now, estimate);
    }
  }

  lemma {:induction false} FilterAround(
    policy: Policy, a: seq<PlannedMember>, x: PlannedMember, c: seq<PlannedMember>, now: real, estimate: real)
    ensures multiset(Filter(policy, a + [x] + c, now, estimate))
            == multiset(Filter(policy, a + c, now, estimate))
               + if Eligible(policy, x, now, estimate) then multiset{x} else multiset{}
  {
    hide Eligible;
    FilterAppend(policy, a + [x], c, now, estimate);
    FilterAppend(policy, a, c, now, estimate);
    assert (a + [x])[..|a + [x]| - 1] == a;
  }

  predicate DistinctNodes(members: seq<PlannedMember>) {
    forall i, j :: 0 <= i < j < |members| ==> members[i].profile.nodeID != members[j].profile.nodeID
  }

  /**
   * Every node derives the same plan, or the same error, from the same members: the order in
   * which they are listed does not matter.
   */
  lemma PlanIgnoresOrder(
    policy: Policy, model: ModelSpec, a: seq<PlannedMember>, b: seq<PlannedMember>, epoch: nat, now: real,
    estimate: real)
    requires multiset(a) == multiset(b) && DistinctNodes(a)
    ensures PlanOf(policy, model, a, epoch, now, estimate) == PlanOf(policy, model, b, epoch, now, estimate)
  {
    FilterPermuted(policy, a, b, now, estimate);
    EligibleFacts(policy, a, now, estimate);
    EligibleFacts(policy, b, now, estimate);
    hide EligibleMembers;
    var e, f := EligibleMembers(policy, a, now, estimate), EligibleMembers(policy, b, now, estimate);
    forall x, y | x in e && y in e && ByNode(x, y) && ByNode(y, x)
      ensures x == y
    {
      SameNode(a, x, y);
    }
    SortedIsUnique(ByNode, e, f);
  }

  lemma SameNode(members: seq<PlannedMember>, x: PlannedMember, y: PlannedMember)
    requires DistinctNodes(members) && x in members && y in members
    requires x.profile.nodeID == y.profile.nodeID
    ensures x == y
  {
    var i :| 0 <= i < |members| && members[i] == x;
    var j :| 0 <= j < |members| && members[j] == y;
  }
}
