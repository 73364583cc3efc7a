/** Assigns contiguous layer ranges to nodes in proportion to their usable memory. */
module Planner {
  import opened Base
  import opened Capability
  import opened Sorting

  // ----- largest-remainder apportionment -----

  datatype Fraction = Fraction(index: nat, rem: int)

  // Larger remainder first, and the earlier index among equals.
  predicate Before(a: Fraction, b: Fraction) {
    a.rem > b.rem || (a.rem == b.rem && a.index <= b.index)
  }

  function Wholes(total: nat, weights: seq<int>, all: int): seq<int>
    requires all > 0
  {
    seq(|weights|, i requires 0 <= i < |weights| => total * weights[i] / all)
  }

  function Fractions(total: nat, weights: seq<int>, all: int): seq<Fraction>
    requires all > 0
  {
    seq(|weights|, i requires 0 <= i < |weights| => Fraction(i, total * weights[i] % all))
  }

  function Ranked(total: nat, weights: seq<int>, all: int): seq<Fraction>
    requires all > 0
  {
    BeforeIsOrder();
    Sort(Before, Fractions(total, weights, all))
  }

  lemma BeforeIsOrder()
    ensures Total(Before) && Transitive(Before)
  {
  }

  function Leftover(total: nat, weights: seq<int>): int
    requires Sum(weights) > 0
  {
    total - Sum(Wholes(total, weights, Sum(weights)))
  }

  // One more for each of the given fractions' owners.
  function Topped(s: seq<int>, top: seq<Fraction>): seq<int>
    requires forall k :: 0 <= k < |top| ==> top[k].index < |s|
  {
    seq(|s|, i requires 0 <= i < |s| => s[i] + if Owns(top, i) then 1 else 0)
  }

  predicate Owns(top: seq<Fraction>, i: nat) {
    exists k :: 0 <= k < |top| && top[k].index == i
  }

  /** Each share is its whole part, plus one for the `Leftover` largest remainders. */
  function Hamilton(total: nat, weights: seq<int>): seq<int>
    requires Nonnegative(weights) && Sum(weights) > 0
  {
    var all := Sum(weights);
    RankedFacts(total, weights, all);
    LeftoverFits(total, weights);
    Topped(Wholes(total, weights, all), Ranked(total, weights, all)[..Leftover(total, weights)])
  }

  predicate Nonnegative(s: seq<int>) {
    forall i :: 0 <= i < |s| ==> 0 <= s[i]
  }

  lemma DivideWith(a: int, d: int)
    requires d > 0
    ensures a == d * (a / d) + a % d && 0 <= a % d < d
  {
  }

  lemma QuotientGrows(a: int, b: int, d: int)
    requires 0 <= a <= b && d > 0
    ensures a / d <= b / d
    ensures a < b && a / d == b / d ==> a % d < b % d
  {
    DivideWith(a, d);
    DivideWith(b, d);
    if a / d > b / d {
      SmallerOrEqualFactor(d, b / d, a / d);
    }
  }

  lemma ProductKeepsSign(a: int, b: int)
    requires a >= 0 && b >= 0
    ensures a * b >= 0
  {
  }

  function RemSum(fs: seq<Fraction>): int {
    if fs == [] then 0 else RemSum(fs[..|fs| - 1]) + fs[|fs| - 1].rem
  }

  lemma {:induction false} RemSumAppend(a: seq<Fraction>, b: seq<Fraction>)
    ensures RemSum(a + b) == RemSum(a) + RemSum(b)
  {
    if b == [] {
      assert a + b == a;
    } else {
      assert (a + b)[..|a + b| - 1] == a + b[..|b| - 1];
      RemSumAppend(a, b[..|b| - 1]);
    }
  }

  lemma {:induction false} RemSumPermuted(a: seq<Fraction>, b: seq<Fraction>)
    requires multiset(a) == multiset(b)
    ensures RemSum(a) == RemSum(b)
  {
    if a == [] {
      assert |b| == |multiset(b)| == 0;
    } else {
      var front, last := a[..|a| - 1], a[|a| - 1];
      assert a == front + [last];
      assert last in multiset(b);
      var k :| 0 <= k < |b| && b[k] == last;
      WithoutOne(front, last, b, k);
      RemSumPermuted(front, b[..k] + b[k + 1..]);
    }
  }

  lemma {:induction false} WithoutOne(front: seq<Fraction>, last: Fraction, b: seq<Fraction>, k: nat)
    requires k < |b| && b[k] == last && multiset(front + [last]) == multiset(b)
    ensures multiset(front) == multiset(b[..k] + b[k + 1..])
    ensures RemSum(b) == RemSum(b[..k] + b[k + 1..]) + last.rem
  {
    hide RemSum;
    Pluck(b, k);
    DropOne(multiset(front), multiset(b[..k] + b[k + 1..]), last);
    RemSumPluck(b, k);
  }

  lemma {:induction false} RemSumPluck(b: seq<Fraction>, k: nat)
    requires k < |b|
    ensures RemSum(b) == RemSum(b[..k] + b[k + 1..]) + b[k].rem
  {
    hide RemSum;
    assert b == b[..k] + [b[k]] + b[k + 1..];
    RemSumAround(b[..k], b[k], b[k + 1..]);
    RemSumAppend(b[..k], b[k + 1..]);
  }

  lemma {:induction false} RemSumAround(a: seq<Fraction>, x: Fraction, c: seq<Fraction>)
    ensures RemSum(a + [x] + c) == RemSum(a) + x.rem + RemSum(c)
  {
    RemSumAppend(a + [x], c);
    assert (a + [x])[..|a + [x]| - 1] == a;
  }

  lemma {:induction false} RemSumBelow(fs: seq<Fraction>, each: int)
    requires forall k :: 0 <= k < |fs| ==> fs[k].rem <= each
    ensures RemSum(fs) <= |fs| * each
  {
    if fs != [] {
      RemSumBelow(fs[..|fs| - 1], each);
      assert |fs| * each == (|fs| - 1) * each + each;
    }
  }

  lemma {:induction false} RemSumNonnegative(fs: seq<Fraction>)
    requires forall k :: 0 <= k < |fs| ==> fs[k].rem >= 0
    ensures RemSum(fs) >= 0
  {
    if fs != [] {
      RemSumNonnegative(fs[..|fs| - 1]);
    }
  }

  // What the whole parts leave over is what the remainders add up to.
  lemma {:induction false} WholesAndRemainders(total: nat, weights: seq<int>, all: int)
    requires all > 0
    ensures all * Sum(Wholes(total, weights, all)) + RemSum(Fractions(total, weights, all))
            == total * Sum(weights)
  {
    if weights != [] {
      var n := |weights| - 1;
      var front, w := weights[..n], weights[n];
      WholesAndRemainders(total, front, all);
      assert Wholes(total, weights, all)[..n] == Wholes(total, front, all);
      assert Fractions(total, weights, all)[..n] == Fractions(total, front, all);
      OneShareMore(all, Sum(Wholes(total, front, all)), total, w, Sum(front));
    }
  }

  lemma OneShareMore(all: int, wholes: int, total: int, w: int, weights: int)
    requires all > 0
    ensures all * (wholes + total * w / all) + total * w % all - all * wholes
            == total * (weights + w) - total * weights
  {
    DivideWith(total * w, all);
    assert all * (wholes + total * w / all) == all * wholes + all * (total * w / all);
    assert total * (weights + w) == total * weights + total * w;
  }

  lemma {:induction false} LeftoverIsRemainders(total: nat, weights: seq<int>)
    requires Sum(weights) > 0
    ensures Sum(weights) * Leftover(total, weights)
            == RemSum(Fractions(total, weights, Sum(weights)))
  {
    var all := Sum(weights);
    WholesAndRemainders(total, weights, all);
    var sum := Sum(Wholes(total, weights, all));
    assert all * (total - sum) == all * total - all * sum;
  }

  lemma RankedPermutes(total: nat, weights: seq<int>, all: int)
    requires all > 0
    ensures multiset(Ranked(total, weights, all)) == multiset(Fractions(total, weights, all))
    ensures forall j, k :: 0 <= j < k < |Ranked(total, weights, all)| ==>
      Before(Ranked(total, weights, all)[j], Ranked(total, weights, all)[k])
  {
    BeforeIsOrder();
  }

  lemma RankedFacts(total: nat, weights: seq<int>, all: int)
    requires all > 0
    ensures
      var r := Ranked(total, weights, all);
      && |r| == |weights|
      && (forall k :: 0 <= k < |r| ==> r[k].index < |weights| && r[k].rem == total * weights[r[k].index] % all)
      && (forall i :: 0 <= i < |weights| ==> Owns(r, i))
      && (forall j, k :: 0 <= j < k < |r| ==> r[j].index != r[k].index)
  {
    hide Ranked;
    var fs, r := Fractions(total, weights, all), Ranked(total, weights, all);
    RankedPermutes(total, weights, all);
    PermutationFacts(fs, r);
    forall k | 0 <= k < |r|
      ensures r[k].index < |weights| && r[k].rem == total * weights[r[k].index] % all
    {
      assert r[k] in fs;
    }
    forall i | 0 <= i < |weights|
      ensures Owns(r, i)
    {
      assert fs[i] in r;
      var k :| 0 <= k < |r| && r[k] == fs[i];
    }
    forall j, k | 0 <= j < k < |r|
      ensures r[j].index != r[k].index
    {
      assert r[j] != r[k];
    }
  }

  lemma SmallerFactor(d: int, a: int, b: int)
    requires d > 0 && d * a < d * b
    ensures a < b
  {
  }

  lemma RemaindersInRange(total: nat, weights: seq<int>, all: int)
    requires all > 0
    ensures forall f :: f in Fractions(total, weights, all) ==> 0 <= f.rem <= all - 1
  {
    forall k | 0 <= k < |weights|
      ensures 0 <= Fractions(total, weights, all)[k].rem <= all - 1
    {
      DivideWith(total * weights[k], all);
    }
  }

  lemma {:induction false} LeftoverInRange(total: nat, weights: seq<int>)
    requires Sum(weights) > 0
    ensures 0 <= Leftover(total, weights) < |weights|
  {
    hide Sum, Leftover, RemSum;
    var all, n := Sum(weights), |weights|;
    var fs, left := Fractions(total, weights, all), Leftover(total, weights);
    LeftoverIsRemainders(total, weights);
    RemaindersInRange(total, weights, all);
    RemSumNonnegative(fs);
    RemSumBelow(fs, all - 1);
    NotEmpty(weights);
    assert n * (all - 1) == all * n - n;
    SmallerFactor(all, left, n);
    SmallerFactor(all, -1, left);
  }

  lemma {:induction false} NotEmpty(s: seq<int>)
    requires Sum(s) > 0
    ensures |s| > 0
  {
  }

  /** Fewer than one layer per node is left over, and those who get one had a remainder. */
  lemma {:induction false} LeftoverFits(total: nat, weights: seq<int>)
    requires Sum(weights) > 0
    ensures 0 <= Leftover(total, weights) < |weights| == |Ranked(total, weights, Sum(weights))|
    ensures forall k :: 0 <= k < Leftover(total, weights) ==>
      Ranked(total, weights, Sum(weights))[k].rem > 0
  {
    hide Ranked, Sum, Leftover;
    var all := Sum(weights);
    LeftoverInRange(total, weights);
    RankedFacts(total, weights, all);
    forall k | 0 <= k < Leftover(total, weights)
      ensures Ranked(total, weights, all)[k].rem > 0
    {
      if Ranked(total, weights, all)[k].rem <= 0 {
        TailHasNoRemainder(total, weights, k);
      }
    }
  }

  // The sum of the first k remainders and of the rest, which are no larger than the k-th.
  lemma RankedSplit(total: nat, weights: seq<int>, all: int, k: nat)
    requires all > 0 && k < |Ranked(total, weights, all)|
    ensures RemSum(Fractions(total, weights, all))
            == RemSum(Ranked(total, weights, all)[..k]) + RemSum(Ranked(total, weights, all)[k..])
    ensures forall j :: 0 <= j < |Ranked(total, weights, all)| ==>
      && Ranked(total, weights, all)[j].rem <= all - 1
      && (j >= k ==> Ranked(total, weights, all)[j].rem <= Ranked(total, weights, all)[k].rem)
  {
    hide Ranked, Fractions, RemSum;
    var fs, r := Fractions(total, weights, all), Ranked(total, weights, all);
    RankedPermutes(total, weights, all);
    RemSumPermuted(fs, r);
    assert r == r[..k] + r[k..];
    RemSumAppend(r[..k], r[k..]);
    RemaindersInRange(total, weights, all);
    PermutationFacts(fs, r);
    forall j | 0 <= j < |r|
      ensures r[j].rem <= all - 1
      ensures j >= k ==> r[j].rem <= r[k].rem
    {
      assert r[j] in fs;
      if j > k {
        assert Before(r[k], r[j]);
      }
    }
  }

  lemma {:induction false} TailHasNoRemainder(total: nat, weights: seq<int>, k: nat)
    requires Sum(weights) > 0
    requires k < |Ranked(total, weights, Sum(weights))|
    requires Ranked(total, weights, Sum(weights))[k].rem <= 0
    ensures Leftover(total, weights) <= k
  {
    hide Ranked, Sum, Leftover, RemSum, Fractions;
    var all := Sum(weights);
    var r := Ranked(total, weights, all);
    LeftoverIsRemainders(total, weights);
    RankedSplit(total, weights, all, k);
    RemSumBelow(r[..k], all - 1);
    RemSumBelow(r[k..], 0);
    assert k * (all - 1) == all * k - k;
    if Leftover(total, weights) > k {
      SmallerOrEqualFactor(all, k, Leftover(total, weights));
    }
  }

  lemma SmallerOrEqualFactor(d: int, a: int, b: int)
    requires d > 0 && a < b
    ensures d * a + d <= d * b
  {
    assert d * (a + 1) <= d * b;
  }

  lemma {:induction false} ToppedSum(s: seq<int>, top: seq<Fraction>)
    requires forall k :: 0 <= k < |top| ==> top[k].index < |s|
    requires forall j, k :: 0 <= j < k < |top| ==> top[j].index != top[k].index
    ensures Sum(Topped(s, top)) == Sum(s) + |top|
  {
    hide Sum, Topped;
    if top == [] {
      ToppedByNone(s);
    } else {
      var k := |top| - 1;
      var front, i := top[..k], top[k].index;
      ToppedSum(s, front);
      ToppedOneMore(s, top, k);
      assert top[..k + 1] == top;
      ToppedLength(s, front);
      SumUpdate(Topped(s, front), i, Topped(s, front)[i] + 1);
    }
  }

  lemma ToppedLength(s: seq<int>, top: seq<Fraction>)
    requires forall k :: 0 <= k < |top| ==> top[k].index < |s|
    ensures |Topped(s, top)| == |s|
  {
  }

  lemma ToppedByNone(s: seq<int>)
    ensures Topped(s, []) == s
  {
  }

  lemma ToppedOneMore(s: seq<int>, top: seq<Fraction>, k: nat)
    requires k < |top| && forall j :: 0 <= j < |top| ==> top[j].index < |s|
    requires forall i, j :: 0 <= i < j < |top| ==> top[i].index != top[j].index
    ensures |Topped(s, top[..k])| == |s|
    ensures
      var before := Topped(s, top[..k]);
      Topped(s, top[..k + 1]) == before[top[k].index := before[top[k].index] + 1]
  {
    forall j | 0 <= j < |s|
      ensures Owns(top[..k + 1], j) <==> Owns(top[..k], j) || j == top[k].index
    {
      OwnsOneMore(top, k, j);
    }
    assert !Owns(top[..k], top[k].index);
  }

  lemma OwnsOneMore(top: seq<Fraction>, k: nat, j: nat)
    requires k < |top|
    ensures Owns(top[..k + 1], j) <==> Owns(top[..k], j) || j == top[k].index
  {
    if Owns(top[..k], j) {
      var l :| 0 <= l < k && top[..k][l].index == j;
      assert top[..k + 1][l].index == j;
    }
    if j == top[k].index {
      assert top[..k + 1][k].index == j;
    }
  }

  /**
   * In exact arithmetic the Hamilton shares add up to the total, and each is the floor of its
   * node's exact entitlement total * w / W, or the ceiling where that is not a whole number.
   */
  lemma {:induction false} HamiltonIsQuota(total: nat, weights: seq<int>, i: nat)
    requires Nonnegative(weights) && Sum(weights) > 0 && i < |weights|
    ensures |Hamilton(total, weights)| == |weights|
    ensures
      var exact, all, share := total * weights[i], Sum(weights), Hamilton(total, weights)[i];
      share * all <= exact < (share + 1) * all || (exact < share * all && exact > (share - 1) * all)
    ensures Hamilton(total, weights)[i] >= 0
  {
    hide Ranked, Sum, Leftover;
    var all := Sum(weights);
    var left := Leftover(total, weights);
    LeftoverFits(total, weights);
    RankedFacts(total, weights, all);
    var top := Ranked(total, weights, all)[..left];
    var exact := total * weights[i];
    ProductKeepsSign(total, weights[i]);
    if Owns(top, i) {
      var k :| 0 <= k < left && top[k].index == i;
      assert Ranked(total, weights, all)[k].rem > 0;
    }
    Quota(exact, all, if Owns(top, i) then 1 else 0);
  }

  lemma Quota(exact: int, all: int, extra: int)
    requires exact >= 0 && all > 0 && (extra == 0 || (extra == 1 && exact % all > 0))
    ensures
      var share := exact / all + extra;
      && share >= 0
      && (share * all <= exact < (share + 1) * all || (exact < share * all && exact > (share - 1) * all))
  {
    DivideWith(exact, all);
    var whole := exact / all;
    assert whole * all + exact % all == exact;
    assert (whole + 1) * all == whole * all + all;
  }

  lemma {:induction false} HamiltonSums(total: nat, weights: seq<int>)
    requires Nonnegative(weights) && Sum(weights) > 0
    ensures |Hamilton(total, weights)| == |weights| && Sum(Hamilton(total, weights)) == total
  {
    hide Ranked, Topped;
    var all := Sum(weights);
    LeftoverFits(total, weights);
    RankedFacts(total, weights, all);
    var wholes := Wholes(total, weights, all);
    var top := Ranked(total, weights, all)[..Leftover(total, weights)];
    ToppedLength(wholes, top);
    ToppedSum(wholes, top);
  }

  /** A node with more memory never gets fewer layers. */
  lemma {:induction false} HamiltonIsMonotone(total: nat, weights: seq<int>, i: nat, j: nat)
    requires Nonnegative(weights) && Sum(weights) > 0 && total > 0
    requires i < |weights| && j < |weights| && weights[i] < weights[j]
    ensures |Hamilton(total, weights)| == |weights|
    ensures Hamilton(total, weights)[i] <= Hamilton(total, weights)[j]
  {
    hide Ranked, Sum, Leftover;
    var all := Sum(weights);
    var left := Leftover(total, weights);
    LeftoverFits(total, weights);
    RankedFacts(total, weights, all);
    ProductKeepsSign(total, weights[i]);
    ProductGrows(total, weights[i], weights[j]);
    QuotientGrows(total * weights[i], total * weights[j], all);
    if Owns(Ranked(total, weights, all)[..left], i) && total * weights[i] / all == total * weights[j] / all {
      LargerRemainderFirst(total, weights, all, left, i, j);
    }
  }

  lemma ProductGrows(c: int, a: int, b: int)
    requires c > 0 && a < b
    ensures c * a < c * b
  {
  }

  lemma LargerRemainderFirst(total: nat, weights: seq<int>, all: int, n: nat, i: nat, j: nat)
    requires all > 0 && i < |weights| && j < |weights| && n <= |Ranked(total, weights, all)|
    requires total * weights[i] % all < total * weights[j] % all
    requires Owns(Ranked(total, weights, all)[..n], i)
    ensures Owns(Ranked(total, weights, all)[..n], j)
  {
    hide Ranked;
    RankedFacts(total, weights, all);
    RankedPermutes(total, weights, all);
    var r := Ranked(total, weights, all);
    var k :| 0 <= k < n && r[..n][k].index == i;
    assert Owns(r, j);
    var l :| 0 <= l < |r| && r[l].index == j;
    assert r[..n][l].index == j;
  }

  /**
   * Who gets the layers left over: the nodes whose shares are rounded up have the larger
   * remainders, and among equal remainders the smaller indices.
   */
  lemma {:induction false} HamiltonByRemainder(total: nat, weights: seq<int>, i: nat, j: nat)
    requires Nonnegative(weights) && Sum(weights) > 0 && i < |weights| && j < |weights|
    ensures |Hamilton(total, weights)| == |weights|
    ensures
      var all, h := Sum(weights), Hamilton(total, weights);
      var exact_i, exact_j := total * weights[i], total * weights[j];
      && (h[i] == exact_i / all || h[i] == exact_i / all + 1)
      && (h[i] > exact_i / all && h[j] == exact_j / all ==>
            exact_i % all > exact_j % all || (exact_i % all == exact_j % all && i < j))
  {
    hide Ranked, Sum, Leftover;
    var all := Sum(weights);
    LeftoverFits(total, weights);
    RankedFacts(total, weights, all);
    RankedPermutes(total, weights, all);
    var r, left := Ranked(total, weights, all), Leftover(total, weights);
    if Owns(r[..left], i) && !Owns(r[..left], j) {
      var k :| 0 <= k < left && r[..left][k].index == i;
      assert Owns(r, j);
      var l :| 0 <= l < |r| && r[l].index == j;
      assert forall x :: 0 <= x < left ==> r[x] == r[..left][x];
      assert l >= left;
      assert Before(r[k], r[l]);
    }
  }

  // ----- every node gets a layer -----

  predicate IsFirstZero(s: seq<int>, z: nat) {
    z < |s| && s[z] == 0 && forall k :: 0 <= k < z ==> s[k] != 0
  }

  predicate IsFirstLargest(s: seq<int>, m: nat) {
    && m < |s|
    && (forall k :: 0 <= k < |s| ==> s[k] <= s[m])
    && (forall k :: 0 <= k < m ==> s[k] < s[m])
  }

  function FirstZero(s: seq<int>): (z: Option<nat>)
    ensures z.Some? ==> IsFirstZero(s, z.value)
    ensures z.None? ==> forall k :: 0 <= k < |s| ==> s[k] != 0
  {
    if s == [] then None
    else
      var z := FirstZero(s[..|s| - 1]);
      if z.Some? then z else if s[|s| - 1] == 0 then Some(|s| - 1) else None
  }

  function FirstLargest(s: seq<int>): (m: nat)
    requires s != []
    ensures IsFirstLargest(s, m)
  {
    if |s| == 1 then 0
    else
      var m := FirstLargest(s[..|s| - 1]);
      if s[m] < s[|s| - 1] then |s| - 1 else m
  }

  function ZeroSet(s: seq<int>): set<nat> {
    set i | 0 <= i < |s| && s[i] == 0
  }

  // One turn of the repair loop: the largest holder gives a layer to the first starved node.
  function Moved(s: seq<int>, z: nat, m: nat): seq<int>
    requires z < |s| && m < |s|
  {
    s[m := s[m] - 1][z := s[z] + 1]
  }

  lemma {:induction false} MoveFeeds(s: seq<int>, z: nat, m: nat)
    requires IsFirstZero(s, z) && m < |s| && s[m] > 1
    ensures ZeroSet(Moved(s, z, m)) < ZeroSet(s)
    ensures Sum(Moved(s, z, m)) == Sum(s)
  {
    hide Sum;
    var t := Moved(s, z, m);
    assert z in ZeroSet(s) && z !in ZeroSet(t);
    assert forall i :: 0 <= i < |s| && i != z && i != m ==> t[i] == s[i];
    SumUpdate(s, m, s[m] - 1);
    SumUpdate(s[m := s[m] - 1], z, s[z] + 1);
  }

  function Repair(s: seq<int>): seq<int>
    decreases ZeroSet(s)
  {
    var z := FirstZero(s);
    if z.None? then s
    else
      var m := FirstLargest(s);
      if s[m] <= 1 then s
      else
        MoveFeeds(s, z.value, m);
        Repair(Moved(s, z.value, m))
  }

  // How a repaired split `r` relates to the split `s` it started from.
  ghost predicate Repairs(s: seq<int>, r: seq<int>) {
    && |r| == |s|
    && Sum(r) == Sum(s)
    && (forall i :: 0 <= i < |s| ==> if s[i] == 0 then r[i] == 1 else 1 <= r[i] <= s[i])
    && (forall i, j :: 0 <= i < |s| && 0 <= j < |s| && r[i] < s[i] ==> r[j] <= r[i] + 1)
  }

  lemma {:induction false} LargestExceedsOne(s: seq<int>, z: nat, m: nat)
    requires IsFirstZero(s, z) && IsFirstLargest(s, m) && Sum(s) >= |s|
    ensures s[m] > 1
  {
    if s[m] <= 1 {
      var ones := seq(|s|, i => 1);
      SumUpdate(s, z, 1);
      SumMonotone(s[z := 1], ones);
      SumOfOnes(|s|);
    }
  }

  lemma {:induction false} SumOfOnes(n: nat)
    ensures Sum(seq(n, i => 1)) == n
  {
    if n > 0 {
      assert seq(n, i => 1)[..n - 1] == seq(n - 1, i => 1);
      SumOfOnes(n - 1);
    }
  }

  /**
   * With at least one layer per node the repair loop never gives up: it ends with every starved
   * node holding exactly one layer, every other node at least one and no more than before, the
   * sum unchanged; and layers were only taken from the largest holders.
   */
  lemma {:induction false} RepairFeedsEveryone(s: seq<int>)
    requires Nonnegative(s) && Sum(s) >= |s|
    ensures Repairs(s, Repair(s))
    decreases ZeroSet(s)
  {
    hide Repair, Sum, Repairs;
    var z := FirstZero(s);
    if z.Some? {
      var m := FirstLargest(s);
      LargestExceedsOne(s, z.value, m);
      MoveFeeds(s, z.value, m);
      RepairFeedsEveryone(Moved(s, z.value, m));
      RepairOnce(s);
      RepairsChain(s, z.value, m, Repair(Moved(s, z.value, m)));
    } else {
      RepairDone(s);
      RepairsItself(s);
    }
  }

  lemma RepairsItself(s: seq<int>)
    requires Nonnegative(s) && forall k :: 0 <= k < |s| ==> s[k] != 0
    ensures Repairs(s, s)
  {
  }

  lemma RepairsChain(s: seq<int>, z: nat, m: nat, r: seq<int>)
    requires Nonnegative(s) && IsFirstZero(s, z) && IsFirstLargest(s, m) && s[m] > 1
    requires Repairs(Moved(s, z, m), r)
    ensures Repairs(s, r)
  {
    MoveFeeds(s, z, m);
    hide Sum;
    var t := Moved(s, z, m);
    forall i, j | 0 <= i < |s| && 0 <= j < |s| && r[i] < s[i]
      ensures r[j] <= r[i] + 1
    {
      if r[i] >= t[i] {
        assert i == m;
        assert r[j] <= (if t[j] == 0 then 1 else t[j]);
      }
    }
  }

  lemma {:induction false} RepairOnce(s: seq<int>)
    requires FirstZero(s).Some? && s[FirstLargest(s)] > 1
    ensures Repair(s) == Repair(Moved(s, FirstZero(s).value, FirstLargest(s)))
  {
  }

  lemma {:induction false} RepairDone(s: seq<int>)
    requires FirstZero(s).None?
    ensures Repair(s) == s
  {
  }

  function Even(total: nat, count: nat): seq<int>
    requires count > 0
  {
    seq(count, i requires 0 <= i < count => total / count + if i < total % count then 1 else 0)
  }

  /** The layer counts, as the method below computes them. */
  function Apportioned(total: nat, weights: seq<int>): seq<int>
    requires weights != [] && Nonnegative(weights)
  {
    Repair(if Sum(weights) <= 0 then Even(total, |weights|) else Hamilton(total, weights))
  }

  lemma {:induction false} EvenSum(total: nat, count: nat, n: nat)
    requires n <= count && count > 0
    ensures Sum(Even(total, count)[..n]) == n * (total / count) + if n < total % count then n else total % count
  {
    if n > 0 {
      EvenSum(total, count, n - 1);
      assert Even(total, count)[..n][..n - 1] == Even(total, count)[..n - 1];
      assert n * (total / count) == (n - 1) * (total / count) + total / count;
    }
  }

  lemma AtLeastOne(a: nat, d: nat)
    requires 0 < d <= a
    ensures a / d >= 1
  {
  }

  lemma EvenIsEven(total: nat, count: nat)
    requires 0 < count <= total
    ensures Sum(Even(total, count)) == total
    ensures forall i :: 0 <= i < count ==> Even(total, count)[i] >= 1
  {
    EvenSum(total, count, count);
    assert Even(total, count)[..count] == Even(total, count);
    DivideWith(total, count);
    AtLeastOne(total, count);
  }

  /**
   * What every caller relies on: the counts add up to the total, no node gets nothing, and with
   * some capacity no node gets more than max(1, the ceiling of its entitlement). The counts are
   * the Hamilton shares themselves exactly when none of those is zero.
   */
  lemma {:induction false} ApportionedIsFair(total: nat, weights: seq<int>)
    requires weights != [] && Nonnegative(weights) && total >= |weights|
    ensures
      var r := Apportioned(total, weights);
      && |r| == |weights| && Sum(r) == total
      && (forall i :: 0 <= i < |r| ==> r[i] >= 1)
    ensures
      Sum(weights) > 0 ==>
        var r, h := Apportioned(total, weights), Hamilton(total, weights);
        && Repairs(h, r)
        && (r == h <==> forall i :: 0 <= i < |h| ==> h[i] > 0)
        && (forall i :: 0 <= i < |r| ==> r[i] == 1 || (r[i] - 1) * Sum(weights) < total * weights[i])
  {
    hide Hamilton, Sum, Repair, Repairs;
    SharesEnough(total, weights);
    var s := if Sum(weights) <= 0 then Even(total, |weights|) else Hamilton(total, weights);
    RepairFeedsEveryone(s);
    RepairsFacts(s, Apportioned(total, weights));
    if Sum(weights) > 0 {
      forall i | 0 <= i < |weights|
        ensures var r := Apportioned(total, weights); r[i] == 1 || (r[i] - 1) * Sum(weights) < total * weights[i]
      {
        HamiltonIsQuota(total, weights, i);
        ShareBelowCeiling(s[i], Apportioned(total, weights)[i], Sum(weights), total * weights[i]);
      }
      if forall i :: 0 <= i < |s| ==> s[i] > 0 {
        RepairDone(s);
      }
    }
  }

  lemma {:induction false} RepairsFacts(s: seq<int>, r: seq<int>)
    requires Repairs(s, r) && Nonnegative(s)
    ensures |r| == |s| && Sum(r) == Sum(s)
    ensures forall i :: 0 <= i < |r| ==> r[i] >= 1 && (r[i] == 1 || r[i] <= s[i])
    ensures r == s ==> forall i :: 0 <= i < |s| ==> s[i] > 0
  {
    hide Sum;
  }

  lemma ShareBelowCeiling(h: int, r: int, all: int, exact: int)
    requires all > 0 && h >= 0 && (r == 1 || r <= h)
    requires h * all <= exact < (h + 1) * all || (exact < h * all && exact > (h - 1) * all)
    ensures r == 1 || (r - 1) * all < exact
  {
    assert (h - 1) * all == h * all - all;
    if r != 1 {
      FactorGrows(r - 1, h - 1, all);
    }
  }

  lemma FactorGrows(a: int, b: int, d: int)
    requires a <= b && d >= 0
    ensures a * d <= b * d
  {
  }

  // ----- when the repair keeps the floor-or-ceiling bound -----

  // A share that is the floor of total * w / W, or the ceiling where that is not a whole number.
  predicate InQuota(exact: int, all: int, share: int) {
    (share - 1) * all < exact < (share + 1) * all
  }

  ghost predicate AllInQuota(total: nat, weights: seq<int>, s: seq<int>)
    requires |s| == |weights|
  {
    forall i :: 0 <= i < |s| ==> InQuota(total * weights[i], Sum(weights), s[i])
  }

  // The node z has some capacity, and m holds more than its exact entitlement.
  predicate MoveIsFair(total: nat, weights: seq<int>, s: seq<int>, z: nat, m: nat)
    requires |s| == |weights| && z < |s| && m < |s|
  {
    weights[z] > 0 && total * weights[m] < s[m] * Sum(weights)
  }

  // Every layer the repair moves goes from a node above its entitlement to one with capacity.
  predicate MovesAreFair(total: nat, weights: seq<int>, s: seq<int>)
    requires |s| == |weights|
    decreases ZeroSet(s)
  {
    var z := FirstZero(s);
    z.None?
    || (var m := FirstLargest(s);
        s[m] <= 1
        || (MoveIsFair(total, weights, s, z.value, m)
            && (MoveFeeds(s, z.value, m);
                MovesAreFair(total, weights, Moved(s, z.value, m)))))
  }

  lemma OneLess(exact: int, all: int, share: int)
    requires all > 0 && InQuota(exact, all, share)
    ensures InQuota(exact, all, share - 1) <==> exact < share * all
    ensures exact >= share * all ==> forall r :: r < share ==> !InQuota(exact, all, r)
  {
    assert (share - 1) * all == share * all - all && (share - 2) * all == share * all - 2 * all;
    forall r | r < share && exact >= share * all
      ensures !InQuota(exact, all, r)
    {
      FactorGrows(r + 1, share, all);
    }
  }

  lemma FirstLayer(total: nat, w: int, all: int)
    requires total > 0 && w >= 0 && all > 0 && InQuota(total * w, all, 0)
    ensures InQuota(total * w, all, 1) <==> w > 0
  {
    ProductKeepsSign(total, w);
    if w > 0 {
      ProductGrows(total, 0, w);
    }
  }

  lemma FairMoveIff(total: nat, weights: seq<int>, s: seq<int>, z: nat, m: nat)
    requires |s| == |weights| && total > 0 && Nonnegative(weights) && Sum(weights) > 0
    requires IsFirstZero(s, z) && m < |s| && s[m] > 1 && AllInQuota(total, weights, s)
    ensures AllInQuota(total, weights, Moved(s, z, m)) <==> MoveIsFair(total, weights, s, z, m)
  {
    hide Sum, InQuota;
    var all, t := Sum(weights), Moved(s, z, m);
    FirstLayer(total, weights[z], all);
    OneLess(total * weights[m], all, s[m]);
    assert t[z] == 1 && t[m] == s[m] - 1;
  }

  // What an unfair move breaks, no later move repairs.
  lemma UnfairStays(total: nat, weights: seq<int>, s: seq<int>, z: nat, m: nat, r: seq<int>)
    requires |s| == |weights| && total > 0 && Nonnegative(weights) && Sum(weights) > 0
    requires IsFirstZero(s, z) && m < |s| && s[m] > 1 && AllInQuota(total, weights, s)
    requires !MoveIsFair(total, weights, s, z, m) && Repairs(Moved(s, z, m), r)
    ensures !AllInQuota(total, weights, r)
  {
    hide Sum, InQuota;
    var all, t := Sum(weights), Moved(s, z, m);
    assert t[z] == 1 && t[m] == s[m] - 1;
    assert r[z] == 1 && r[m] < s[m];
    FirstLayer(total, weights[z], all);
    OneLess(total * weights[m], all, s[m]);
  }

  lemma {:induction false} RepairQuotaIff(total: nat, weights: seq<int>, s: seq<int>)
    requires |s| == |weights| && total > 0 && Nonnegative(weights) && Sum(weights) > 0
    requires Nonnegative(s) && Sum(s) >= |s| && AllInQuota(total, weights, s)
    ensures |Repair(s)| == |s| && (AllInQuota(total, weights, Repair(s)) <==> MovesAreFair(total, weights, s))
    decreases ZeroSet(s)
  {
    hide Repair, Sum, Repairs, AllInQuota, MoveIsFair;
    var z := FirstZero(s);
    if z.None? {
      RepairDone(s);
    } else {
      var m := FirstLargest(s);
      LargestExceedsOne(s, z.value, m);
      MoveFeeds(s, z.value, m);
      RepairOnce(s);
      var t := Moved(s, z.value, m);
      RepairFeedsEveryone(t);
      RepairsFacts(t, Repair(t));
      FairMoveIff(total, weights, s, z.value, m);
      if MoveIsFair(total, weights, s, z.value, m) {
        RepairQuotaIff(total, weights, t);
      } else {
        UnfairStays(total, weights, s, z.value, m, Repair(t));
      }
    }
  }

  // ----- the same condition, read off the shares before the repair -----

  // The places below n where s holds v, in order.
  function Places(s: seq<int>, v: int, n: nat): (r: seq<nat>)
    requires n <= |s|
    ensures forall k :: 0 <= k < |r| ==> r[k] < n && s[r[k]] == v
    ensures forall i :: 0 <= i < n && s[i] == v ==> i in r
    ensures forall j, k :: 0 <= j < k < |r| ==> r[j] < r[k]
  {
    if n == 0 then [] else Places(s, v, n - 1) + if s[n - 1] == v then [n - 1] else []
  }

  function Starved(h: seq<int>): seq<nat> {
    Places(h, 0, |h|)
  }

  function Largest(h: seq<int>): int
    requires h != []
  {
    h[FirstLargest(h)]
  }

  function Tops(h: seq<int>): seq<nat>
    requires h != []
  {
    Places(h, Largest(h), |h|)
  }

  // The holders of one layer less that come before every holder of the largest share.
  function Nexts(h: seq<int>): seq<nat>
    requires h != []
  {
    Places(h, Largest(h) - 1, FirstLargest(h))
  }

  function Donors(h: seq<int>): seq<nat>
    requires h != []
  {
    Tops(h) + Nexts(h)
  }

  predicate Exceeds(total: nat, weights: seq<int>, h: seq<int>, i: nat)
    requires |h| == |weights|
  {
    i < |h| && total * weights[i] < h[i] * Sum(weights)
  }

  // The k-th starved node has some capacity, and the k-th donor more than its exact entitlement.
  predicate PairIsFair(total: nat, weights: seq<int>, h: seq<int>, k: nat)
    requires |h| == |weights| && h != [] && k < |Starved(h)|
  {
    weights[Starved(h)[k]] > 0 && k < |Donors(h)| && Exceeds(total, weights, h, Donors(h)[k])
  }

  predicate PairsAreFair(total: nat, weights: seq<int>, h: seq<int>, from: nat)
    requires |h| == |weights| && h != []
  {
    forall k :: from <= k < |Starved(h)| ==> PairIsFair(total, weights, h, k)
  }

  // The shares after j moves: the first j starved nodes hold one layer, the first j donors one less.
  function Given(h: seq<int>, j: nat): (r: seq<int>)
    requires h != [] && j <= |Starved(h)| && j <= |Donors(h)|
    ensures |r| == |h|
  {
    seq(|h|, i requires 0 <= i < |h| =>
      if i in Starved(h)[..j] then 1 else if i in Donors(h)[..j] then h[i] - 1 else h[i])
  }

  // How far the moves have come, and that each has found a node with two layers or more.
  ghost predicate GivenSoFar(h: seq<int>, j: nat) {
    && h != [] && Nonnegative(h) && Largest(h) > 1
    && j <= |Starved(h)| && j <= |Donors(h)|
    && (Largest(h) == 2 ==> j <= |Tops(h)|)
  }

  lemma FirstZeroIs(s: seq<int>, z: nat)
    requires IsFirstZero(s, z)
    ensures FirstZero(s) == Some(z)
  {
    hide FirstZero;
    var f := FirstZero(s);
    assert f.Some? && f.value <= z && z <= f.value;
  }

  lemma FirstLargestIs(s: seq<int>, m: nat)
    requires IsFirstLargest(s, m)
    ensures s != [] && FirstLargest(s) == m
  {
    hide FirstLargest;
    var f := FirstLargest(s);
    assert s[f] == s[m];
  }

  lemma TopsStartAtFirst(h: seq<int>)
    requires h != []
    ensures Tops(h) != [] && Tops(h)[0] == FirstLargest(h)
  {
    hide Places, FirstLargest;
    var m, tops := FirstLargest(h), Tops(h);
    assert m in tops;
    var k :| 0 <= k < |tops| && tops[k] == m;
    assert tops[0] <= m && h[tops[0]] == h[m];
  }

  lemma DonorsDiffer(h: seq<int>, j: nat, k: nat)
    requires h != [] && Largest(h) > 1 && j < |Donors(h)| && k < |Donors(h)|
    ensures Donors(h)[j] < |h| && Largest(h) - 1 <= h[Donors(h)[j]] <= Largest(h)
    ensures j != k ==> Donors(h)[j] != Donors(h)[k]
  {
    hide Places, FirstLargest;
    var d, a := Donors(h), |Tops(h)|;
    assert j < a ==> d[j] == Tops(h)[j];
    assert j >= a ==> d[j] == Nexts(h)[j - a];
    assert k < a ==> d[k] == Tops(h)[k];
    assert k >= a ==> d[k] == Nexts(h)[k - a];
  }

  // What a node holds after j moves.
  lemma GivenAt(h: seq<int>, j: nat, i: nat)
    requires GivenSoFar(h, j) && i < |h|
    ensures i in Starved(h)[..j] ==> h[i] == 0 && Given(h, j)[i] == 1
    ensures i in Donors(h)[..j] ==> h[i] >= 1 && Given(h, j)[i] == h[i] - 1
    ensures i !in Starved(h)[..j] && i !in Donors(h)[..j] ==> Given(h, j)[i] == h[i]
  {
    hide Places, FirstLargest, Donors, Largest;
    if i in Donors(h)[..j] {
      var k :| 0 <= k < j && Donors(h)[..j][k] == i;
      DonorsDiffer(h, k, k);
    }
  }

  lemma TopsGiven(h: seq<int>, j: nat, i: nat)
    requires GivenSoFar(h, j) && i < |h| && h[i] == Largest(h)
    requires j >= |Tops(h)| || (j < |Tops(h)| && i < Tops(h)[j])
    ensures i in Donors(h)[..j]
  {
    hide Places, FirstLargest, Largest;
    assert i in Tops(h);
    var k :| 0 <= k < |Tops(h)| && Tops(h)[k] == i;
    assert k < j;
    assert Donors(h)[..j][k] == i;
  }

  lemma NextsGiven(h: seq<int>, j: nat, i: nat)
    requires GivenSoFar(h, j) && i < FirstLargest(h) && h[i] == Largest(h) - 1 && j >= |Tops(h)|
    requires j == |Donors(h)| || i < Donors(h)[j]
    ensures i in Donors(h)[..j]
  {
    hide Places, FirstLargest, Largest;
    var a := |Tops(h)|;
    assert i in Nexts(h);
    var k :| 0 <= k < |Nexts(h)| && Nexts(h)[k] == i;
    assert j < |Donors(h)| ==> Donors(h)[j] == Nexts(h)[j - a];
    assert a + k < j;
    assert Donors(h)[..j][a + k] == i;
  }

  // The first starved node left is the next in order.
  lemma GivenZero(h: seq<int>, j: nat)
    requires GivenSoFar(h, j) && j < |Starved(h)|
    ensures IsFirstZero(Given(h, j), Starved(h)[j])
  {
    hide Given, Places, FirstLargest, Largest, Donors;
    var z, t := Starved(h)[j], Given(h, j);
    StarvedGives(h, j, z);
    forall k | 0 <= k < z
      ensures t[k] != 0
    {
      StarvedBefore(h, j, k);
    }
  }

  lemma StarvedGives(h: seq<int>, j: nat, z: nat)
    requires GivenSoFar(h, j) && j < |Starved(h)| && z == Starved(h)[j]
    ensures z < |h| && Given(h, j)[z] == 0
  {
    hide Given, Places, FirstLargest, Largest, Donors;
    assert z !in Starved(h)[..j];
    GivenAt(h, j, z);
  }

  lemma StarvedBefore(h: seq<int>, j: nat, k: nat)
    requires GivenSoFar(h, j) && j < |Starved(h)| && k < Starved(h)[j]
    ensures k < |h| && Given(h, j)[k] != 0
  {
    hide Given, Places, FirstLargest, Largest;
    var z := Starved(h);
    GivenAt(h, j, k);
    if h[k] == 0 {
      assert k in z;
      var i :| 0 <= i < |z| && z[i] == k;
      assert z[..j][i] == k;
    } else if k in Donors(h)[..j] {
      DonorKeepsOne(h, j, k);
    }
  }

  lemma DonorKeepsOne(h: seq<int>, j: nat, k: nat)
    requires GivenSoFar(h, j) && k in Donors(h)[..j]
    ensures k < |h| && h[k] >= 2
  {
    hide Places, FirstLargest, Largest;
    var i :| 0 <= i < j && Donors(h)[..j][i] == k;
    DonorsDiffer(h, i, i);
    if Largest(h) == 2 {
      assert Donors(h)[i] == Tops(h)[i];
    }
  }

  // The node the next move takes from.
  function NextDonor(h: seq<int>, j: nat): nat
    requires h != [] && j <= |Donors(h)|
  {
    if j < |Donors(h)| then Donors(h)[j] else FirstLargest(h)
  }

  lemma GivenLargest(h: seq<int>, j: nat)
    requires GivenSoFar(h, j) && (Largest(h) == 2 ==> j < |Tops(h)|)
    ensures IsFirstLargest(Given(h, j), NextDonor(h, j))
    ensures Given(h, j)[NextDonor(h, j)] == Largest(h) - if j < |Tops(h)| then 0 else 1
  {
    hide Given, Places, FirstLargest, Largest;
    var t, x, level := Given(h, j), NextDonor(h, j), Largest(h) - if j < |Tops(h)| then 0 else 1;
    NextDonorHolds(h, j);
    forall k | 0 <= k < |h|
      ensures t[k] <= level && (k < x ==> t[k] < level)
    {
      GivenBelow(h, j, k);
    }
  }

  lemma NextDonorHolds(h: seq<int>, j: nat)
    requires GivenSoFar(h, j)
    ensures NextDonor(h, j) < |h|
    ensures Given(h, j)[NextDonor(h, j)] == Largest(h) - if j < |Tops(h)| then 0 else 1
  {
    hide Given, Places, FirstLargest;
    var x, a := NextDonor(h, j), |Tops(h)|;
    TopsStartAtFirst(h);
    if j < |Donors(h)| {
      DonorsDiffer(h, j, j);
      assert h[x] == Largest(h) - if j < a then 0 else 1;
      NotYetGiven(h, j);
    } else {
      TopsGiven(h, j, x);
    }
    GivenAt(h, j, x);
  }

  lemma NotYetGiven(h: seq<int>, j: nat)
    requires GivenSoFar(h, j) && j < |Donors(h)|
    ensures Donors(h)[j] !in Donors(h)[..j] && Donors(h)[j] !in Starved(h)[..j]
  {
    hide Places, FirstLargest, Largest, Donors;
    DonorsDiffer(h, j, j);
    forall k | 0 <= k < j
      ensures Donors(h)[..j][k] != Donors(h)[j]
    {
      DonorsDiffer(h, j, k);
    }
  }

  lemma GivenBelow(h: seq<int>, j: nat, k: nat)
    requires GivenSoFar(h, j) && (Largest(h) == 2 ==> j < |Tops(h)|) && k < |h|
    ensures
      var level := Largest(h) - if j < |Tops(h)| then 0 else 1;
      Given(h, j)[k] <= level && (k < NextDonor(h, j) ==> Given(h, j)[k] < level)
  {
    hide Given, Places;
    GivenAt(h, j, k);
    if j < |Tops(h)| {
      if h[k] == Largest(h) && k < NextDonor(h, j) {
        TopsGiven(h, j, k);
      }
    } else {
      TopsStartAtFirst(h);
      if h[k] == Largest(h) {
        TopsGiven(h, j, k);
      }
      BeforeNext(h, j, k);
    }
  }

  lemma BeforeNext(h: seq<int>, j: nat, k: nat)
    requires GivenSoFar(h, j) && j >= |Tops(h)| && k < |h|
    ensures k < NextDonor(h, j) && h[k] == Largest(h) - 1 ==> k in Donors(h)[..j]
    ensures k < NextDonor(h, j) ==> h[k] < Largest(h)
  {
    hide Places, FirstLargest, Given;
    assert j < |Donors(h)| ==> NextDonor(h, j) == Nexts(h)[j - |Tops(h)|];
    assert NextDonor(h, j) <= FirstLargest(h);
    if k < NextDonor(h, j) && h[k] == Largest(h) - 1 {
      NextsGiven(h, j, k);
    }
  }

  lemma GivenMoves(h: seq<int>, j: nat)
    requires GivenSoFar(h, j) && j < |Starved(h)| && j < |Donors(h)| && (Largest(h) == 2 ==> j < |Tops(h)|)
    ensures Starved(h)[j] < |h| && Donors(h)[j] < |h|
    ensures Given(h, j + 1) == Moved(Given(h, j), Starved(h)[j], Donors(h)[j])
  {
    hide Places, FirstLargest, Largest, Given, Donors;
    var z, d := Starved(h), Donors(h);
    var t, u := Given(h, j), Given(h, j + 1);
    DonorsDiffer(h, j, j);
    NotYetGiven(h, j);
    StarvedGives(h, j, z[j]);
    assert z[..j + 1] == z[..j] + [z[j]] && d[..j + 1] == d[..j] + [d[j]];
    forall i | 0 <= i < |h|
      ensures u[i] == Moved(t, z[j], d[j])[i]
    {
      GivenAt(h, j, i);
      GivenAt(h, j + 1, i);
    }
  }

  // With two layers the most anybody holds, the sum shows that there are enough such nodes.
  lemma TwosSuffice(h: seq<int>, j: nat)
    requires GivenSoFar(h, j) && j < |Starved(h)| && Sum(Given(h, j)) >= |h| && Largest(h) == 2
    ensures j < |Tops(h)|
  {
    hide Places, Given, Sum, FirstLargest, Donors;
    var t := Given(h, j);
    GivenZero(h, j);
    LargestExceedsOne(t, Starved(h)[j], FirstLargest(t));
    if j >= |Tops(h)| {
      forall k | 0 <= k < |h|
        ensures t[k] <= 1
      {
        GivenAt(h, j, k);
        if h[k] == 2 {
          TopsGiven(h, j, k);
        }
      }
      assert false;
    }
  }

  // A node that has given all it had above its entitlement cannot give again fairly.
  lemma SecondGiftIsUnfair(total: nat, weights: seq<int>, h: seq<int>, share: int)
    requires |h| == |weights| && h != [] && Sum(weights) > 0 && AllInQuota(total, weights, h)
    requires share == Largest(h) - 1
    ensures total * weights[FirstLargest(h)] >= share * Sum(weights)
  {
    hide Sum, FirstLargest;
    assert InQuota(total * weights[FirstLargest(h)], Sum(weights), h[FirstLargest(h)]);
  }

  lemma {:induction false} DonorsDecide(total: nat, weights: seq<int>, h: seq<int>, j: nat)
    requires |h| == |weights| && total > 0 && Nonnegative(weights) && Sum(weights) > 0
    requires GivenSoFar(h, j) && AllInQuota(total, weights, h) && Sum(Given(h, j)) >= |h|
    ensures MovesAreFair(total, weights, Given(h, j)) <==> PairsAreFair(total, weights, h, j)
    decreases |Starved(h)| - j
  {
    hide Given, Places, FirstLargest, FirstZero, Sum, AllInQuota, Donors, Largest, Moved, PairIsFair, MoveIsFair;
    var t := Given(h, j);
    if j == |Starved(h)| {
      AllFed(h);
    } else {
      var z, x := Starved(h)[j], NextDonor(h, j);
      if Largest(h) == 2 {
        TwosSuffice(h, j);
      }
      GivenZero(h, j);
      GivenLargest(h, j);
      FirstZeroIs(t, z);
      FirstLargestIs(t, x);
      LargestExceedsOne(t, z, x);
      MoveIsPair(total, weights, h, j);
      MovesStep(total, weights, t, z, x);
      if j < |Donors(h)| {
        GivenMoves(h, j);
        MoveFeeds(t, z, x);
        OneMoreGiven(h, j);
        DonorsDecide(total, weights, h, j + 1);
      } else {
        NoDonorLeft(total, weights, h, j);
      }
      PairsStep(total, weights, h, j);
    }
  }

  lemma NoDonorLeft(total: nat, weights: seq<int>, h: seq<int>, k: nat)
    requires |h| == |weights| && h != [] && |Donors(h)| <= k < |Starved(h)|
    ensures !PairIsFair(total, weights, h, k)
  {
  }

  lemma {:induction false} MovesStep(total: nat, weights: seq<int>, s: seq<int>, z: nat, m: nat)
    requires |s| == |weights| && FirstZero(s) == Some(z) && s != [] && FirstLargest(s) == m && s[m] > 1
    ensures MovesAreFair(total, weights, s)
            <==> MoveIsFair(total, weights, s, z, m) && MovesAreFair(total, weights, Moved(s, z, m))
  {
    MoveFeeds(s, z, m);
    hide MoveIsFair, Moved, Sum;
  }

  lemma OneMoreGiven(h: seq<int>, j: nat)
    requires GivenSoFar(h, j) && j < |Starved(h)| && j < |Donors(h)| && (Largest(h) == 2 ==> j < |Tops(h)|)
    ensures GivenSoFar(h, j + 1)
  {
  }

  lemma PairsStep(total: nat, weights: seq<int>, h: seq<int>, j: nat)
    requires |h| == |weights| && h != [] && j < |Starved(h)|
    ensures PairsAreFair(total, weights, h, j)
            <==> PairIsFair(total, weights, h, j) && PairsAreFair(total, weights, h, j + 1)
  {
    hide PairIsFair, Starved;
  }

  lemma AllFed(h: seq<int>)
    requires GivenSoFar(h, |Starved(h)|)
    ensures FirstZero(Given(h, |Starved(h)|)).None?
  {
    hide Given, Places, FirstLargest, FirstZero, Donors, Largest;
    var z := Starved(h);
    forall k | 0 <= k < |h|
      ensures Given(h, |z|)[k] != 0
    {
      assert z[..|z|] == z;
      GivenAt(h, |z|, k);
      if k in Donors(h)[..|z|] {
        DonorKeepsOne(h, |z|, k);
      }
    }
  }

  // The next move is fair exactly when the next pair is.
  lemma MoveIsPair(total: nat, weights: seq<int>, h: seq<int>, j: nat)
    requires |h| == |weights| && total > 0 && Nonnegative(weights) && Sum(weights) > 0
    requires GivenSoFar(h, j) && AllInQuota(total, weights, h) && j < |Starved(h)|
    ensures Starved(h)[j] < |h| && NextDonor(h, j) < |h|
    ensures MoveIsFair(total, weights, Given(h, j), Starved(h)[j], NextDonor(h, j))
            <==> PairIsFair(total, weights, h, j)
  {
    hide Given, Places, FirstLargest, Sum, AllInQuota, Donors;
    NextDonorHolds(h, j);
    if j < |Donors(h)| {
      NotYetGiven(h, j);
      DonorsDiffer(h, j, j);
      GivenAt(h, j, Donors(h)[j]);
    } else {
      TopsBeforeDonors(h);
      SecondGiftIsUnfair(total, weights, h, Largest(h) - 1);
    }
  }

  lemma TopsBeforeDonors(h: seq<int>)
    requires h != []
    ensures |Tops(h)| <= |Donors(h)|
  {
  }

  /**
   * The documented bound, every share the floor or the ceiling of its entitlement, holds of the
   * result exactly when, of the shares before the repair: every node with none has some
   * capacity, and the donors, which are the holders of the largest share in order and then the
   * holders of one less in front of them all, are as many, the first of them each above its
   * exact entitlement. So it always holds when no node is starved.
   */
  lemma {:induction false} QuotaHoldsIff(total: nat, weights: seq<int>)
    requires weights != [] && Nonnegative(weights) && Sum(weights) > 0 && total >= |weights|
    ensures |Apportioned(total, weights)| == |Hamilton(total, weights)| == |weights|
    ensures AllInQuota(total, weights, Apportioned(total, weights))
            <==> PairsAreFair(total, weights, Hamilton(total, weights), 0)
  {
    hide Hamilton, Sum, Repair, MovesAreFair, InQuota, PairsAreFair;
    SharesEnough(total, weights);
    forall i | 0 <= i < |weights|
      ensures InQuota(total * weights[i], Sum(weights), Hamilton(total, weights)[i])
    {
      HamiltonIsQuota(total, weights, i);
      QuotaIsInQuota(total * weights[i], Sum(weights), Hamilton(total, weights)[i]);
    }
    RepairQuotaIff(total, weights, Hamilton(total, weights));
    PairsDecide(total, weights, Hamilton(total, weights));
  }

  lemma {:induction false} PairsDecide(total: nat, weights: seq<int>, h: seq<int>)
    requires |h| == |weights| && h != [] && total > 0 && Nonnegative(weights) && Sum(weights) > 0
    requires Nonnegative(h) && Sum(h) >= |h| && AllInQuota(total, weights, h)
    ensures MovesAreFair(total, weights, h) <==> PairsAreFair(total, weights, h, 0)
  {
    hide Places, FirstLargest, Sum, AllInQuota, FirstZero;
    if Starved(h) == [] {
      assert FirstZero(h).None?;
    } else {
      assert h[Starved(h)[0]] == 0;
      StarvedFirst(h);
      LargestExceedsOne(h, Starved(h)[0], FirstLargest(h));
      assert Given(h, 0) == h;
      DonorsDecide(total, weights, h, 0);
    }
  }

  lemma StarvedFirst(h: seq<int>)
    requires Starved(h) != []
    ensures IsFirstZero(h, Starved(h)[0])
  {
    hide Places;
    var z := Starved(h);
    forall k | 0 <= k < z[0]
      ensures h[k] != 0
    {
      assert h[k] == 0 ==> k in z;
    }
  }

  lemma QuotaIsInQuota(exact: int, all: int, share: int)
    requires all > 0
    requires share * all <= exact < (share + 1) * all || (exact < share * all && exact > (share - 1) * all)
    ensures InQuota(exact, all, share)
  {
    assert (share - 1) * all == share * all - all && (share + 1) * all == share * all + all;
  }

  /**
   * The floor-or-ceiling bound documented for the result holds of the Hamilton shares but not of
   * the repaired ones: here a node entitled to all three layers ends with one.
   */
  lemma RepairCanBreakQuota()
    ensures Sum([10, 0, 0]) == 10
    ensures Hamilton(3, [10, 0, 0]) == [3, 0, 0]
    ensures Apportioned(3, [10, 0, 0]) == [1, 1, 1]
  {
    hide Hamilton, Sum, Repair;
    TenIsTen();
    HamiltonIsQuota(3, [10, 0, 0], 0);
    HamiltonIsQuota(3, [10, 0, 0], 1);
    HamiltonIsQuota(3, [10, 0, 0], 2);
    assert Hamilton(3, [10, 0, 0]) == [3, 0, 0];
    RepairThree();
  }

  lemma RepairThree()
    ensures Repair([3, 0, 0]) == [1, 1, 1]
  {
    hide Repair, FirstZero, FirstLargest;
    FirstsAre([3, 0, 0], 1, 0);
    FirstsAre([2, 1, 0], 2, 0);
    assert Moved([3, 0, 0], 1, 0) == [2, 1, 0] && Moved([2, 1, 0], 2, 0) == [1, 1, 1];
    RepairOnce([3, 0, 0]);
    RepairOnce([2, 1, 0]);
    RepairDone([1, 1, 1]);
  }

  lemma {:induction false} FirstsAre(s: seq<int>, z: nat, m: nat)
    requires IsFirstZero(s, z) && IsFirstLargest(s, m)
    ensures FirstZero(s) == Some(z) && FirstLargest(s) == m
  {
    hide FirstZero, FirstLargest;
    assert s[z] == 0;
  }

  lemma TenIsTen()
    ensures Sum([10, 0, 0]) == 10
  {
    var w := [10, 0, 0];
    assert w[..2] == [10, 0] && [10, 0][..1] == [10] && [10][..0] == [];
    assert Sum([10]) == 10 && Sum([10, 0]) == 10;
  }

  method Apportion(total: nat, weights: seq<int>) returns (result: seq<int>)
    requires weights != [] && Nonnegative(weights) && total >= |weights|
    ensures result == Apportioned(total, weights)
  {
    hide Ranked, Hamilton, Repair, Sum;
    var count := |weights|;
    var totalWeight := Sum(weights);
    if totalWeight <= 0 {
      result := Spread(total, count);
    } else {
      result := HandOut(total, weights, totalWeight);
    }
    ghost var start := result;
    SharesEnough(total, weights);
    var starved := FirstZero(result);
    while starved.Some?
      invariant |result| == count && Sum(result) == total && Nonnegative(result)
      invariant Repair(result) == Repair(start)
      invariant starved == FirstZero(result)
      decreases ZeroSet(result)
    {
      var largest := FirstLargest(result);
      LargestExceedsOne(result, starved.value, largest);
      if result[largest] <= 1 {
        assert false;
        break;
      }
      MoveFeeds(result, starved.value, largest);
      RepairOnce(result);
      result := Moved(result, starved.value, largest);
      starved := FirstZero(result);
    }
    RepairDone(result);
  }

  lemma SharesEnough(total: nat, weights: seq<int>)
    requires weights != [] && Nonnegative(weights) && total >= |weights|
    ensures
      var s := if Sum(weights) <= 0 then Even(total, |weights|) else Hamilton(total, weights);
      |s| == |weights| && Sum(s) == total && Nonnegative(s)
  {
    hide Hamilton, Sum;
    if Sum(weights) <= 0 {
      EvenIsEven(total, |weights|);
    } else {
      HamiltonSums(total, weights);
      forall i | 0 <= i < |weights|
        ensures Hamilton(total, weights)[i] >= 0
      {
        HamiltonIsQuota(total, weights, i);
      }
    }
  }

  method Spread(total: nat, count: nat) returns (result: seq<int>)
    requires count > 0
    ensures result == Even(total, count)
  {
    result := seq(count, i => total / count);
    for index := 0 to total % count
      invariant |result| == count
      invariant forall i :: 0 <= i < count ==> result[i] == total / count + if i < index then 1 else 0
    {
      result := result[index := result[index] + 1];
    }
  }

  // The whole parts, their sum, and what each node is still owed.
  method WholeParts(total: nat, weights: seq<int>, totalWeight: int)
    returns (result: seq<int>, fractions: seq<Fraction>, distributed: int)
    requires totalWeight > 0
    ensures result == Wholes(total, weights, totalWeight)
    ensures fractions == Fractions(total, weights, totalWeight)
    ensures distributed == Sum(result)
  {
    hide Sum;
    var count := |weights|;
    ghost var wholes := Wholes(total, weights, totalWeight);
    result := seq(count, i => 0);
    fractions := [];
    distributed := 0;
    SumOfNone(wholes);
    for index := 0 to count
      invariant |result| == count && |fractions| == index
      invariant forall i :: 0 <= i < index ==> result[i] == wholes[i]
      invariant forall i :: 0 <= i < index ==> fractions[i] == Fraction(i, total * weights[i] % totalWeight)
      invariant distributed == Sum(wholes[..index])
    {
      var exact := total * weights[index];
      var whole := exact / totalWeight;
      result := result[index := whole];
      distributed := distributed + whole;
      fractions := fractions + [Fraction(index, exact % totalWeight)];
      SumSnoc(wholes, index);
    }
    assert result == wholes && wholes[..count] == wholes;
  }

  method HandOut(total: nat, weights: seq<int>, totalWeight: int) returns (result: seq<int>)
    requires Nonnegative(weights) && totalWeight == Sum(weights) > 0
    ensures result == Hamilton(total, weights)
  {
    hide Sum, Ranked, Wholes, Fractions, Topped, Sort, Before;
    var fractions, distributed;
    result, fractions, distributed := WholeParts(total, weights, totalWeight);
    ghost var wholes := result;
    WholesLength(total, weights, totalWeight);
    var leftover := total - distributed;
    LeftoverFits(total, weights);
    RankedFacts(total, weights, totalWeight);
    RankedIs(total, weights, totalWeight);
    var ordered := Sort(Before, fractions);
    assert ordered[..0] == [];
    ToppedByNone(wholes);
    for offset := 0 to leftover
      invariant result == Topped(wholes, ordered[..offset])
    {
      var i := ordered[offset].index;
      ToppedOneMore(wholes, ordered, offset);
      result := result[i := result[i] + 1];
    }
  }

  lemma WholesLength(total: nat, weights: seq<int>, all: int)
    requires all > 0
    ensures |Wholes(total, weights, all)| == |weights|
  {
  }

  lemma RankedIs(total: nat, weights: seq<int>, all: int)
    requires all > 0
    ensures Total(Before) && Transitive(Before)
    ensures Sort(Before, Fractions(total, weights, all)) == Ranked(total, weights, all)
  {
    BeforeIsOrder();
  }

  lemma SumOfNone(s: seq<int>)
    ensures Sum(s[..0]) == 0
  {
  }

  lemma SumSnoc(s: seq<int>, k: nat)
    requires k < |s|
    ensures Sum(s[..k + 1]) == Sum(s[..k]) + s[k]
  {
    assert s[..k + 1][..k] == s[..k];
  }
}
