/** The layer ranges the app itself assigns to the devices of a ring. */
module AppShards {
  import opened Base
  import opened Planner

  datatype ShardMeta = ShardMeta(deviceRank: nat, worldSize: nat, startLayer: int, endLayer: int, nLayers: int)

  const GIB := 1024 * 1024 * 1024

  // A device whose profile has not arrived is taken to have one GiB.
  function Memory(ram: Option<nat>): nat {
    if ram.Some? then ram.value else GIB
  }

  // The ring's usable memory counts only the profiles that have arrived.
  function UsableRAM(rams: seq<Option<nat>>): nat {
    if rams == [] then 0
    else UsableRAM(rams[..|rams| - 1])
         + var last := rams[|rams| - 1]; if last.Some? then last.value else 0
  }

  function Shares(nLayers: nat, rams: seq<Option<nat>>, total: nat): seq<int>
    requires total > 0
    ensures |Shares(nLayers, rams, total)| == |rams|
  {
    seq(|rams|, i requires 0 <= i < |rams| => nLayers * Memory(rams[i]) / total)
  }

  function MetaOf(nLayers: nat, rams: seq<Option<nat>>, total: nat, rank: nat): ShardMeta
    requires total > 0 && rank < |rams|
  {
    var shares := Shares(nLayers, rams, total);
    var start := Sum(shares[..rank]);
    ShardMeta(rank, |rams|, start, if rank < |rams| - 1 then start + shares[rank] else nLayers, nLayers)
  }

  // None is the division by zero when no device's memory is known.
  method AssignShardMetadata(nLayers: nat, rams: seq<Option<nat>>) returns (metas: Option<seq<ShardMeta>>)
    requires rams != []
    ensures metas.None? <==> UsableRAM(rams) == 0
    ensures metas.Some? ==>
      metas.value == seq(|rams|, i requires 0 <= i < |rams| => MetaOf(nLayers, rams, UsableRAM(rams), i))
  {
    hide Sum;
    var totalMemory := UsableRAM(rams);
    if totalMemory == 0 {
      return None;
    }
    var result: seq<ShardMeta> := [];
    var assignedLayers := 0;
    var size := |rams|;
    ghost var shares := Shares(nLayers, rams, totalMemory);
    SumOfNone(shares);
    for rank := 0 to size
      invariant |result| == rank && assignedLayers == Sum(shares[..rank])
      invariant forall i :: 0 <= i < rank ==> result[i] == MetaOf(nLayers, rams, totalMemory, i)
    {
      var shardLayers := nLayers * Memory(rams[rank]) / totalMemory;
      SumSnoc(shares, rank);
      result := result + [ShardMeta(rank, size, assignedLayers,
                                    if rank < size - 1 then assignedLayers + shardLayers else nLayers, nLayers)];
      assignedLayers := assignedLayers + shardLayers;
    }
    return Some(result);
  }

  // In rank order the ranges start at 0, follow each other and end at n; they may be empty.
  ghost predicate Tiles(metas: seq<ShardMeta>, n: int) {
    && metas != []
    && metas[0].startLayer == 0 && metas[|metas| - 1].endLayer == n
    && (forall i :: 0 <= i < |metas| ==> metas[i].startLayer <= metas[i].endLayer)
    && (forall i :: 0 <= i < |metas| - 1 ==> metas[i].endLayer == metas[i + 1].startLayer)
  }

  function Metas(nLayers: nat, rams: seq<Option<nat>>): seq<ShardMeta>
    requires UsableRAM(rams) > 0
  {
    seq(|rams|, i requires 0 <= i < |rams| => MetaOf(nLayers, rams, UsableRAM(rams), i))
  }

  lemma SharesNonnegative(nLayers: nat, rams: seq<Option<nat>>, total: nat)
    requires total > 0
    ensures |Shares(nLayers, rams, total)| == |rams|
    ensures forall i :: 0 <= i < |rams| ==> Shares(nLayers, rams, total)[i] >= 0
  {
    forall i | 0 <= i < |rams|
      ensures Shares(nLayers, rams, total)[i] >= 0
    {
      ProductKeepsSign(nLayers, Memory(rams[i]));
      DivideWith(nLayers * Memory(rams[i]), total);
    }
  }

  /**
   * The assignment tiles the layers exactly when the shares of all ranks but the last do not
   * already exceed them.
   */
  lemma {:induction false} TilesIff(nLayers: nat, rams: seq<Option<nat>>)
    requires rams != [] && UsableRAM(rams) > 0
    ensures Tiles(Metas(nLayers, rams), nLayers)
            <==> Sum(Shares(nLayers, rams, UsableRAM(rams))[..|rams| - 1]) <= nLayers
  {
    hide Sum, Shares;
    var shares := Shares(nLayers, rams, UsableRAM(rams));
    SharesNonnegative(nLayers, rams, UsableRAM(rams));
    SumOfNone(shares);
    forall i | 0 <= i < |rams| - 1
      ensures Metas(nLayers, rams)[i].endLayer == Metas(nLayers, rams)[i + 1].startLayer
      ensures Metas(nLayers, rams)[i].startLayer <= Metas(nLayers, rams)[i].endLayer
    {
      SumSnoc(shares, i);
    }
    hide MetaOf;
    LastMeta(nLayers, rams);
  }

  lemma {:induction false} LastMeta(nLayers: nat, rams: seq<Option<nat>>)
    requires rams != [] && UsableRAM(rams) > 0
    ensures
      var n, shares := |rams| - 1, Shares(nLayers, rams, UsableRAM(rams));
      && Metas(nLayers, rams)[n].startLayer == Sum(shares[..n])
      && Metas(nLayers, rams)[n].endLayer == nLayers
      && Metas(nLayers, rams)[0].startLayer == 0
  {
    hide Shares;
    SumOfNone(Shares(nLayers, rams, UsableRAM(rams)));
  }

  ghost predicate AllKnown(rams: seq<Option<nat>>) {
    forall i :: 0 <= i < |rams| ==> rams[i].Some?
  }

  lemma {:induction false} SharesBelow(nLayers: nat, rams: seq<Option<nat>>, total: nat)
    requires total > 0 && AllKnown(rams)
    ensures total * Sum(Shares(nLayers, rams, total)) <= nLayers * UsableRAM(rams)
  {
    if rams != [] {
      var front, w := rams[..|rams| - 1], rams[|rams| - 1].value;
      SharesBelow(nLayers, front, total);
      assert Shares(nLayers, rams, total)[..|rams| - 1] == Shares(nLayers, front, total);
      OneShareBelow(nLayers, w, total, Sum(Shares(nLayers, front, total)), UsableRAM(front));
    }
  }

  lemma OneShareBelow(n: nat, w: nat, total: nat, sum: int, known: nat)
    requires total > 0 && total * sum <= n * known
    ensures total * (sum + n * w / total) <= n * (known + w)
  {
    DivideWith(n * w, total);
    assert total * (sum + n * w / total) == total * sum + total * (n * w / total);
    assert n * (known + w) == n * known + n * w;
  }

  /** When every profile has arrived the ranges tile the layers. */
  lemma {:induction false} KnownProfilesTile(nLayers: nat, rams: seq<Option<nat>>)
    requires rams != [] && UsableRAM(rams) > 0 && AllKnown(rams)
    ensures Tiles(Metas(nLayers, rams), nLayers)
  {
    var total, n := UsableRAM(rams), |rams| - 1;
    var shares := Shares(nLayers, rams, total);
    SharesBelow(nLayers, rams, total);
    SharesNonnegative(nLayers, rams, total);
    assert shares[..n + 1] == shares;
    SumSnoc(shares, n);
    if Sum(shares) > nLayers {
      SmallerOrEqualFactor(total, nLayers, Sum(shares));
    }
    TilesIff(nLayers, rams);
  }

  /** A missing profile can break it: here the second device starts past the last layer. */
  lemma MissingProfileCanBreakTiling()
    ensures !Tiles(Metas(10, [None, Some(1)]), 10)
  {
    var rams: seq<Option<nat>> := [None, Some(1)];
    var front: seq<Option<nat>> := [None];
    assert rams[..1] == front && front[..0] == [];
    assert UsableRAM(front) == 0 && UsableRAM(rams) == 1;
    var shares := Shares(10, rams, 1);
    assert shares[..1] == [10 * GIB] && shares[..1][..0] == [];
    assert Sum(shares[..1]) == 10 * GIB;
    TilesIff(10, rams);
  }
}
