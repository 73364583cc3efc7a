/**
 * Watches byte counters and reports, for each that moved, when the bulk of its movement began
 * and ended. A counter's named values are listed in one fixed order; rounding of the reported
 * figures is not part of this model.
 */
module TransferWatch {
  import opened Base
  import opened Sorting

  type Key = (string, string)

  datatype Sample = Sample(now: real, values: seq<int>)

  datatype Point = Point(now: real, moved: int)

  datatype Item = Item(base: seq<int>, last: seq<int>, seen: real, gap: real, points: seq<Point>)

  predicate Drops(values: seq<int>, last: seq<int>)
    requires |values| == |last|
  {
    exists i :: 0 <= i < |values| && values[i] < last[i]
  }

  function First(s: Sample): Item {
    Item(s.values, s.values, s.now, 0.0, [])
  }

  function Observed(item: Item, s: Sample): Item
    requires |s.values| == |item.last|
  {
    var gap := if s.now - item.seen > item.gap then s.now - item.seen else item.gap;
    if Drops(s.values, item.last) then Item(s.values, s.values, s.now, gap, [])
    else if s.values != item.last then
      Item(item.base, s.values, s.now, gap, item.points + [Point(s.now, Sum(s.values) - Sum(item.base))])
    else Item(item.base, s.values, s.now, gap, item.points)
  }

  datatype Entry = Entry(
    key: Key, began: real, ended: real, gap: real, firstStep: int, share: real, moved: seq<int>)

  datatype SpanError = NoEdge

  // The first point that has moved at least this much.
  function FirstAtLeast(points: seq<Point>, bound: real): (n: Option<nat>)
    ensures n.Some? ==> n.value < |points| && points[n.value].moved as real >= bound
    ensures forall k :: 0 <= k < (if n.Some? then n.value else |points|) ==> (points[k].moved as real) < bound
  {
    if points == [] then None
    else if points[0].moved as real >= bound then Some(0)
    else
      var rest := FirstAtLeast(points[1..], bound);
      if rest.None? then None else Some(rest.value + 1)
  }

  function Share(f: real, total: int): real {
    f * total as real
  }

  function Ratio(part: int, total: int): real
    requires total != 0
  {
    part as real / total as real
  }

  function Earlier(a: real, until: Option<real>): real {
    if until.Some? && until.value < a then until.value else a
  }

  function Differences(last: seq<int>, base: seq<int>): seq<int>
    requires |last| == |base|
  {
    seq(|last|, i requires 0 <= i < |last| => last[i] - base[i])
  }

  function Span(key: Key, item: Item, low: real, high: real, until: Option<real>): Result<Entry, SpanError>
    requires item.points != [] && item.points[|item.points| - 1].moved != 0 && |item.last| == |item.base|
  {
    var points := item.points;
    var total := points[|points| - 1].moved;
    var first := FirstAtLeast(points, Share(low, total));
    var last := FirstAtLeast(points, Share(high, total));
    if first.None? || last.None? then Err(NoEdge)
    else
      var step := points[first.value].moved - if first.value > 0 then points[first.value - 1].moved else 0;
      Ok(Entry(key, Earlier(points[first.value].now, until), Earlier(points[last.value].now, until), item.gap,
               step, Ratio(step, total), Differences(item.last, item.base)))
  }

  // ----- what an item is after a counter's samples -----

  predicate Alike(h: seq<Sample>) {
    forall i, j :: 0 <= i < |h| && 0 <= j < |h| ==> |h[i].values| == |h[j].values|
  }

  function ItemOf(h: seq<Sample>): (item: Item)
    requires h != [] && Alike(h)
    ensures |item.base| == |item.last| == |h[0].values|
  {
    if |h| == 1 then First(h[0]) else Observed(ItemOf(h[..|h| - 1]), h[|h| - 1])
  }

  // The latest sample that went backwards in some value, or the first one.
  function LatestReset(h: seq<Sample>): (k: nat)
    requires h != [] && Alike(h)
    ensures k < |h| && (k > 0 ==> Drops(h[k].values, h[k - 1].values))
    ensures forall j :: k < j < |h| ==> !Drops(h[j].values, h[j - 1].values)
  {
    if |h| == 1 || Drops(h[|h| - 1].values, h[|h| - 2].values) then |h| - 1 else LatestReset(h[..|h| - 1])
  }

  // Every sample from `from` on that changed a value, with the distance from that sample.
  function Changes(h: seq<Sample>, from: nat): seq<Point>
    requires from < |h|
  {
    if |h| == from + 1 then []
    else
      var n := |h| - 1;
      Changes(h[..n], from)
      + if h[n].values != h[n - 1].values then [Point(h[n].now, Sum(h[n].values) - Sum(h[from].values))] else []
  }

  function LongestGap(h: seq<Sample>): real {
    if |h| < 2 then 0.0
    else
      var before, gap := LongestGap(h[..|h| - 1]), h[|h| - 1].now - h[|h| - 2].now;
      if gap > before then gap else before
  }

  /**
   * After any samples, an item holds exactly: the counter's values at its latest reset, its last
   * values, the longest gap between two samples, and one point for each change since that reset.
   */
  lemma {:induction false} ItemIsChangesSinceReset(h: seq<Sample>)
    requires h != [] && Alike(h)
    ensures
      var k := LatestReset(h);
      ItemOf(h) == Item(h[k].values, h[|h| - 1].values, h[|h| - 1].now, LongestGap(h), Changes(h, k))
  {
    if |h| > 1 {
      hide Sum, Drops, ItemOf, LatestReset, Changes, LongestGap, Alike, Observed;
      OneSampleMore(h);
      ItemIsChangesSinceReset(h[..|h| - 1]);
      GapStep(h);
      ResetStep(h);
      ChangesStep(h, LatestReset(h));
      var f, n := h[..|h| - 1], |h| - 1;
      ObservedStep(ItemOf(f), h[n]);
      if Drops(h[n].values, h[n - 1].values) {
        assert LatestReset(h) == n;
      } else {
        assert h[LatestReset(h)] == f[LatestReset(f)] && ItemOf(f).base == h[LatestReset(h)].values;
      }
    }
  }

  lemma ObservedStep(item: Item, s: Sample)
    requires |s.values| == |item.last|
    ensures
      var after, gap := Observed(item, s), s.now - item.seen;
      && after.last == s.values && after.seen == s.now && after.gap == (if gap > item.gap then gap else item.gap)
      && (Drops(s.values, item.last) ==> after.base == s.values && after.points == [])
      && (!Drops(s.values, item.last) ==>
            && after.base == item.base
            && after.points
               == item.points + if s.values != item.last then [Point(s.now, Sum(s.values) - Sum(item.base))] else [])
  {
    hide Drops, Sum;
  }

  lemma OneSampleMore(h: seq<Sample>)
    requires |h| > 1 && Alike(h)
    ensures Alike(h[..|h| - 1]) && |ItemOf(h[..|h| - 1]).last| == |h[|h| - 1].values| == |h[|h| - 2].values|
    ensures ItemOf(h) == Observed(ItemOf(h[..|h| - 1]), h[|h| - 1])
  {
    hide Observed;
  }

  lemma {:induction false} GapStep(h: seq<Sample>)
    requires |h| > 1
    ensures
      var before, gap := LongestGap(h[..|h| - 1]), h[|h| - 1].now - h[|h| - 2].now;
      LongestGap(h) == if gap > before then gap else before
  {
  }

  lemma {:induction false} ResetStep(h: seq<Sample>)
    requires |h| > 1 && Alike(h)
    ensures LatestReset(h) == if Drops(h[|h| - 1].values, h[|h| - 2].values) then |h| - 1 else LatestReset(h[..|h| - 1])
  {
    hide Drops;
  }

  lemma {:induction false} ChangesStep(h: seq<Sample>, from: nat)
    requires from < |h|
    ensures from == |h| - 1 ==> Changes(h, from) == []
    ensures
      from < |h| - 1 ==>
        var n := |h| - 1;
        Changes(h, from)
        == Changes(h[..n], from)
           + if h[n].values != h[n - 1].values then [Point(h[n].now, Sum(h[n].values) - Sum(h[from].values))] else []
  {
  }

  predicate Rising(points: seq<Point>) {
    && (forall i :: 0 <= i < |points| ==> points[i].moved > 0)
    && (forall i, j :: 0 <= i < j < |points| ==> points[i].moved < points[j].moved)
  }

  predicate InTime(points: seq<Point>) {
    forall i, j :: 0 <= i < j < |points| ==> points[i].now <= points[j].now
  }

  // Values that went nowhere but up, and not all stayed, add up to more.
  lemma {:induction false} ChangeIsGain(a: seq<int>, b: seq<int>)
    requires |a| == |b| && !Drops(b, a)
    ensures Sum(a) <= Sum(b)
    ensures a != b ==> Sum(a) < Sum(b)
  {
    if a != [] {
      var n := |a| - 1;
      NoDropBelow(b, a, n);
      ChangeIsGain(a[..n], b[..n]);
      assert a == a[..n] + [a[n]] && b == b[..n] + [b[n]];
    }
  }

  lemma NoDropBelow(b: seq<int>, a: seq<int>, n: nat)
    requires |a| == |b| && n < |a| && !Drops(b, a)
    ensures !Drops(b[..n], a[..n]) && a[n] <= b[n]
  {
  }

  predicate Timely(h: seq<Sample>) {
    forall i, j :: 0 <= i < j < |h| ==> h[i].now <= h[j].now
  }

  // What the stored points of one counter satisfy.
  ghost predicate PointsOk(item: Item) {
    && Rising(item.points)
    && |item.base| == |item.last|
    && (item.points != [] ==> Sum(item.last) - Sum(item.base) == item.points[|item.points| - 1].moved)
    && (item.points == [] ==> item.last == item.base)
  }

  lemma ObservedOk(item: Item, s: Sample)
    requires PointsOk(item) && |s.values| == |item.last|
    ensures PointsOk(Observed(item, s))
  {
    hide Drops, Sum;
    if !Drops(s.values, item.last) {
      ChangeIsGain(item.last, s.values);
    }
  }

  /**
   * For any samples with non-decreasing times: the stored points rise strictly from above zero,
   * their times do not fall, and the last is what the values gained since the latest reset.
   */
  lemma {:induction false} PointsRise(h: seq<Sample>)
    requires h != [] && Alike(h)
    ensures PointsOk(ItemOf(h))
    ensures Timely(h) ==> InTime(ItemOf(h).points) && forall p :: p in ItemOf(h).points ==> p.now <= h[|h| - 1].now
  {
    if |h| > 1 {
      hide Drops, Sum, PointsOk;
      PointsRise(h[..|h| - 1]);
      ObservedOk(ItemOf(h[..|h| - 1]), h[|h| - 1]);
      if Timely(h) {
        TimesStay(h);
      }
    } else {
      hide Sum;
    }
  }

  lemma {:induction false} TimesStay(h: seq<Sample>)
    requires |h| > 1 && Alike(h) && Timely(h)
    requires InTime(ItemOf(h[..|h| - 1]).points)
    requires forall p :: p in ItemOf(h[..|h| - 1]).points ==> p.now <= h[|h| - 2].now
    ensures InTime(ItemOf(h).points) && forall p :: p in ItemOf(h).points ==> p.now <= h[|h| - 1].now
  {
    hide Drops, Sum;
    var before := ItemOf(h[..|h| - 1]).points;
    forall i | 0 <= i < |before|
      ensures before[i].now <= h[|h| - 2].now <= h[|h| - 1].now
    {
      assert before[i] in before;
    }
  }

  // ----- spans -----

  lemma ShareOfTotal(f: real, total: int)
    requires total > 0
    ensures Share(f, total) <= total as real <==> f <= 1.0
  {
  }

  lemma ShareGrows(a: real, b: real, total: int)
    requires total > 0 && a <= b
    ensures Share(a, total) <= Share(b, total)
  {
  }

  lemma {:induction false} EdgeIff(points: seq<Point>, f: real)
    requires Rising(points) && points != []
    ensures
      var total := points[|points| - 1].moved;
      FirstAtLeast(points, Share(f, total)).Some? <==> f <= 1.0
  {
    var n := |points| - 1;
    var total := points[n].moved;
    hide Share, FirstAtLeast;
    ShareOfTotal(f, total);
    var found := FirstAtLeast(points, Share(f, total));
    if found.Some? {
      assert points[found.value].moved <= total;
    } else {
      assert (points[n].moved as real) < Share(f, total);
    }
  }

  /**
   * For a counter that moved, both edges are found exactly when neither share exceeds one. Each
   * is the first moment by which that share of the whole movement had happened; with low at most
   * high the movement begins before it ends, clamped or not, and the step that crossed the lower
   * edge is positive and at most the whole.
   */
  lemma {:induction false} SpanIsSound(key: Key, h: seq<Sample>, low: real, high: real, until: Option<real>)
    requires h != [] && Alike(h) && Timely(h) && ItemOf(h).points != []
    ensures
      var item := ItemOf(h);
      && item.points[|item.points| - 1].moved == Sum(item.last) - Sum(item.base) > 0
      && var r := Span(key, item, low, high, until);
      && (r.Ok? <==> low <= 1.0 && high <= 1.0)
      && (r.Ok? && low <= high ==> r.value.began <= r.value.ended)
      && (r.Ok? ==> 0 < r.value.firstStep <= Sum(item.last) - Sum(item.base) && 0.0 < r.value.share <= 1.0)
  {
    PointsRise(h);
    var item := ItemOf(h);
    hide Sum, ItemOf;
    SpanOfPoints(key, item, low, high, until);
  }

  // The first point by which a share of the whole movement had happened.
  ghost predicate IsEdge(points: seq<Point>, f: real, k: nat) {
    && k < |points|
    && points[k].moved as real >= f * points[|points| - 1].moved as real
    && forall j :: 0 <= j < k ==> (points[j].moved as real) < f * points[|points| - 1].moved as real
  }

  predicate IsEarlier(t: real, a: real, until: Option<real>) {
    t <= a && (t == a || until == Some(t)) && (until.Some? ==> t <= until.value)
  }

  // The entry of a movement that crossed its edges at points i and j.
  ghost predicate CrossedAt(r: Entry, points: seq<Point>, low: real, high: real, until: Option<real>, i: nat, j: nat) {
    && IsEdge(points, low, i) && IsEdge(points, high, j)
    && IsEarlier(r.began, points[i].now, until) && IsEarlier(r.ended, points[j].now, until)
    && points[i].moved == r.firstStep + (if i == 0 then 0 else points[i - 1].moved)
    && r.share * points[|points| - 1].moved as real == r.firstStep as real
  }

  // What each value moved.
  ghost predicate MovedFrom(r: Entry, base: seq<int>, last: seq<int>) {
    |base| == |last| == |r.moved| && forall v :: 0 <= v < |base| ==> base[v] + r.moved[v] == last[v]
  }

  /**
   * What an entry says of a counter's samples: the moments of its two edges, or the limit where
   * that is earlier; the longest silence; how far the change at the first edge went, of itself and as
   * a share of the whole; and by how much each value moved since the latest reset.
   */
  lemma {:induction false} SpanIsExact(key: Key, h: seq<Sample>, low: real, high: real, until: Option<real>)
    requires h != [] && Alike(h) && Timely(h) && ItemOf(h).points != []
    requires low <= 1.0 && high <= 1.0
    ensures Spannable(ItemOf(h)) && ItemOf(h).points[|ItemOf(h).points| - 1].moved > 0
    ensures
      var r := Span(key, ItemOf(h), low, high, until);
      && r.Ok? && r.value.key == key && r.value.gap == LongestGap(h)
      && MovedFrom(r.value, h[LatestReset(h)].values, h[|h| - 1].values)
      && exists i: nat, j: nat :: CrossedAt(r.value, Changes(h, LatestReset(h)), low, high, until, i, j)
  {
    hide Sum, ItemOf, LatestReset, Changes, LongestGap, CrossedAt, MovedFrom, Span, Alike, Rising, InTime;
    PointsRise(h);
    ItemIsChangesSinceReset(h);
    SpanFields(key, ItemOf(h), low, high, until);
  }

  lemma SpanFields(key: Key, item: Item, low: real, high: real, until: Option<real>)
    requires Spannable(item) && low <= 1.0 && high <= 1.0
    ensures item.points[|item.points| - 1].moved > 0
    ensures
      var r := Span(key, item, low, high, until);
      && r.Ok? && r.value.key == key && r.value.gap == item.gap && MovedFrom(r.value, item.base, item.last)
      && exists i: nat, j: nat :: CrossedAt(r.value, item.points, low, high, until, i, j)
  {
    hide FirstAtLeast, Rising, Ratio, Share, IsEdge;
    SpanOkIff(key, item, low, high, until);
    RisingIsPositive(item.points);
    var points := item.points;
    var total := points[|points| - 1].moved;
    var first, last := FirstAtLeast(points, Share(low, total)).value, FirstAtLeast(points, Share(high, total)).value;
    FirstIsEdge(points, low);
    FirstIsEdge(points, high);
    RatioTimes(points[first].moved - if first > 0 then points[first - 1].moved else 0, total);
    assert CrossedAt(Span(key, item, low, high, until).value, points, low, high, until, first, last);
  }

  lemma FirstIsEdge(points: seq<Point>, f: real)
    requires points != []
    ensures
      var found := FirstAtLeast(points, Share(f, points[|points| - 1].moved));
      found.Some? ==> IsEdge(points, f, found.value)
  {
    hide FirstAtLeast;
  }

  lemma RatioTimes(part: int, total: int)
    requires total > 0
    ensures Ratio(part, total) * total as real == part as real
  {
  }

  lemma SpanOfPoints(key: Key, item: Item, low: real, high: real, until: Option<real>)
    requires PointsOk(item) && InTime(item.points) && item.points != []
    ensures
      var total := item.points[|item.points| - 1].moved;
      var r := Span(key, item, low, high, until);
      && (r.Ok? <==> low <= 1.0 && high <= 1.0)
      && (r.Ok? && low <= high ==> r.value.began <= r.value.ended)
      && (r.Ok? ==> 0 < r.value.firstStep <= total && 0.0 < r.value.share <= 1.0)
  {
    assert Rising(item.points) && |item.base| == |item.last|;
    hide PointsOk, Rising, InTime, Sum, Span;
    RisingIsPositive(item.points);
    SpanOkIff(key, item, low, high, until);
    SpanInOrder(key, item, low, high, until);
    SpanStep(key, item, low, high, until);
  }

  lemma RisingIsPositive(points: seq<Point>)
    requires Rising(points) && points != []
    ensures points[|points| - 1].moved > 0
  {
  }

  ghost predicate Spannable(item: Item) {
    item.points != [] && Rising(item.points) && |item.base| == |item.last|
  }

  lemma SpanOkIff(key: Key, item: Item, low: real, high: real, until: Option<real>)
    requires Spannable(item)
    ensures Span(key, item, low, high, until).Ok? <==> low <= 1.0 && high <= 1.0
  {
    EdgeIff(item.points, low);
    EdgeIff(item.points, high);
    hide FirstAtLeast, Share, Ratio, Differences;
  }

  lemma SpanInOrder(key: Key, item: Item, low: real, high: real, until: Option<real>)
    requires Spannable(item) && InTime(item.points)
    ensures
      var r := Span(key, item, low, high, until);
      r.Ok? && low <= high ==> r.value.began <= r.value.ended
  {
    EdgesInOrder(item.points, low, high);
    hide FirstAtLeast, Share, Ratio, Differences, InTime;
  }

  lemma SpanStep(key: Key, item: Item, low: real, high: real, until: Option<real>)
    requires Spannable(item)
    ensures
      var r := Span(key, item, low, high, until);
      r.Ok? ==> 0 < r.value.firstStep <= item.points[|item.points| - 1].moved && 0.0 < r.value.share <= 1.0
  {
    var first := FirstAtLeast(item.points, Share(low, item.points[|item.points| - 1].moved));
    if first.Some? {
      StepIsPart(item.points, first.value);
    }
    hide FirstAtLeast, Share, Ratio, Differences;
  }

  lemma {:induction false} EdgesInOrder(points: seq<Point>, low: real, high: real)
    requires Rising(points) && InTime(points) && points != []
    ensures
      var total := points[|points| - 1].moved;
      var first, last := FirstAtLeast(points, Share(low, total)), FirstAtLeast(points, Share(high, total));
      first.Some? && last.Some? && low <= high ==>
        first.value <= last.value && points[first.value].now <= points[last.value].now
  {
    hide FirstAtLeast, Share;
    if low <= high {
      ShareGrows(low, high, points[|points| - 1].moved);
    }
  }

  lemma StepIsPart(points: seq<Point>, k: nat)
    requires Rising(points) && k < |points|
    ensures
      var total := points[|points| - 1].moved;
      var step := points[k].moved - if k > 0 then points[k - 1].moved else 0;
      0 < step <= total && 0.0 < Ratio(step, total) <= 1.0
  {
    var total := points[|points| - 1].moved;
    var step := points[k].moved - if k > 0 then points[k - 1].moved else 0;
    assert points[k].moved <= total;
    StepShare(step, total);
    hide Ratio;
  }

  lemma StepShare(step: int, total: int)
    requires 0 < step <= total
    ensures 0.0 < Ratio(step, total) <= 1.0
  {
  }

  // ----- the watch -----

  predicate ByBegan(a: Entry, b: Entry) {
    a.began <= b.began
  }

  lemma ByBeganIsOrder()
    ensures Total(ByBegan) && Transitive(ByBegan)
  {
  }

  function InOrder(entries: seq<Entry>): seq<Entry> {
    ByBeganIsOrder();
    Sort(ByBegan, entries)
  }

  datatype Series = Series(order: seq<Key>, items: map<Key, Item>)

  function Noted(s: Series, key: Key, sample: Sample): Series
    requires key in s.items ==> |s.items[key].last| == |sample.values|
  {
    if key in s.items then s.(items := s.items[key := Observed(s.items[key], sample)])
    else Series(s.order + [key], s.items[key := First(sample)])
  }

  ghost predicate Movable(s: Series) {
    && (forall k :: k in s.order ==> k in s.items)
    && (forall k :: k in s.items ==> PointsOk(s.items[k]))
  }

  lemma MovedIsPositive(s: Series, key: Key)
    requires Movable(s) && key in s.items && s.items[key].points != []
    ensures s.items[key].points[|s.items[key].points| - 1].moved > 0 && |s.items[key].last| == |s.items[key].base|
  {
    hide Sum;
  }

  // One entry per counter that moved, in the order the counters were first seen.
  function Found(s: Series, n: nat, low: real, high: real, until: Option<real>): Result<seq<Entry>, SpanError>
    requires Movable(s) && n <= |s.order|
  {
    if n == 0 then Ok([])
    else
      var before := Found(s, n - 1, low, high, until);
      var key := s.order[n - 1];
      if before.Err? || s.items[key].points == [] then before
      else
        MovedIsPositive(s, key);
        var span := Span(key, s.items[key], low, high, until);
        if span.Err? then Err(span.error) else Ok(before.value + [span.value])
  }

  // The counters that moved, in the order they were first seen.
  function MovedKeys(s: Series, n: nat): seq<Key>
    requires Movable(s) && n <= |s.order|
  {
    if n == 0 then []
    else MovedKeys(s, n - 1) + if s.items[s.order[n - 1]].points != [] then [s.order[n - 1]] else []
  }

  lemma {:induction false} FoundIsEachMoved(s: Series, n: nat, low: real, high: real, until: Option<real>)
    requires Movable(s) && n <= |s.order| && Found(s, n, low, high, until).Ok?
    ensures
      var found, keys := Found(s, n, low, high, until).value, MovedKeys(s, n);
      && |found| == |keys|
      && forall i :: 0 <= i < |keys| ==>
           && keys[i] in s.items && s.items[keys[i]].points != []
           && Spannable(s.items[keys[i]]) && s.items[keys[i]].points[|s.items[keys[i]].points| - 1].moved != 0
           && Span(keys[i], s.items[keys[i]], low, high, until) == Ok(found[i])
  {
    hide Span, Sum;
    if n > 0 {
      FoundIsEachMoved(s, n - 1, low, high, until);
      if s.items[s.order[n - 1]].points != [] {
        MovedIsPositive(s, s.order[n - 1]);
      }
    }
  }

  /**
   * The report has one entry for each counter that moved, in the order the movements began, and
   * among those that began together in the order the counters were first seen.
   */
  lemma {:induction false} ReportIsInOrder(s: Series, low: real, high: real, until: Option<real>, at: real)
    requires Movable(s) && Found(s, |s.order|, low, high, until).Ok?
    ensures
      var found := Found(s, |s.order|, low, high, until).value;
      var r := InOrder(found);
      && (forall i, j :: 0 <= i < j < |r| ==> r[i].began <= r[j].began)
      && multiset(r) == multiset(found) && |found| == |MovedKeys(s, |s.order|)|
      && (forall i :: 0 <= i < |found| ==> found[i].key == MovedKeys(s, |s.order|)[i])
      && Together(at, r) == Together(at, found)
  {
    hide Found, MovedKeys, Span, Movable, Rising;
    var found := Found(s, |s.order|, low, high, until).value;
    FoundIsEachMoved(s, |s.order|, low, high, until);
    var keys := MovedKeys(s, |s.order|);
    forall i | 0 <= i < |found|
      ensures found[i].key == keys[i]
    {
      SpanKey(keys[i], s.items[keys[i]], low, high, until);
    }
    ByBeganIsOrder();
    var x := Entry(("", ""), at, at, 0.0, 0, 0.0, []);
    SortIsStable(ByBegan, x, found);
    TiesAreTogether(x, found);
    TiesAreTogether(x, InOrder(found));
  }

  // The entries that began at this moment, in order.
  function Together(at: real, entries: seq<Entry>): seq<Entry> {
    if entries == [] then []
    else (if entries[0].began == at then [entries[0]] else []) + Together(at, entries[1..])
  }

  lemma {:induction false} TiesAreTogether(x: Entry, entries: seq<Entry>)
    ensures Ties(ByBegan, x, entries) == Together(x.began, entries)
  {
    if entries != [] {
      TiesAreTogether(x, entries[1..]);
    }
  }

  lemma SpanKey(key: Key, item: Item, low: real, high: real, until: Option<real>)
    requires item.points != [] && item.points[|item.points| - 1].moved != 0 && |item.last| == |item.base|
    ensures
      var r := Span(key, item, low, high, until);
      r.Ok? ==> r.value.key == key
  {
  }

  class Watch {
    const low: real
    const high: real
    var order: seq<Key>
    var items: map<Key, Item>

    ghost function View(): Series
      reads this
    {
      Series(order, items)
    }

    constructor (low: real, high: real)
      ensures View() == Series([], map[]) && this.low == low && this.high == high
    {
      this.low, this.high := low, high;
      order, items := [], map[];
    }

    method Observe(now: real, key: Key, values: seq<int>)
      requires key in items ==> |items[key].last| == |values|
      modifies this
      ensures View() == Noted(old(View()), key, Sample(now, values))
    {
      if key !in items {
        order := order + [key];
        items := items[key := Item(values, values, now, 0.0, [])];
        return;
      }
      var item := items[key];
      if now - item.seen > item.gap {
        item := item.(gap := now - item.seen);
      }
      item := item.(seen := now);
      if Drops(values, item.last) {
        items := items[key := item.(base := values, last := values, points := [])];
        return;
      }
      if values != item.last {
        item := item.(points := item.points + [Point(now, Sum(values) - Sum(item.base))]);
      }
      items := items[key := item.(last := values)];
    }

    method Spans(until: Option<real>) returns (r: Result<seq<Entry>, SpanError>)
      requires Movable(View())
      ensures var found := Found(View(), |order|, low, high, until);
              r == if found.Err? then Err(found.error) else Ok(InOrder(found.value))
    {
      hide Span, Sum;
      var found := [];
      for n := 0 to |order|
        invariant Found(View(), n, low, high, until) == Ok(found)
      {
        var key := order[n];
        assert key in order;
        if items[key].points != [] {
          MovedIsPositive(View(), key);
          var span := Span(key, items[key], low, high, until);
          if span.Err? {
            ErrorsStay(View(), n + 1, |order|, low, high, until);
            return Err(span.error);
          }
          found := found + [span.value];
        }
      }
      return Ok(InOrder(found));
    }
  }

  lemma {:induction false} ErrorsStay(s: Series, k: nat, n: nat, low: real, high: real, until: Option<real>)
    requires Movable(s) && k <= n <= |s.order| && Found(s, k, low, high, until).Err?
    ensures Found(s, n, low, high, until) == Found(s, k, low, high, until)
    decreases n
  {
    hide Span, Movable;
    if k < n {
      ErrorsStay(s, k, n - 1, low, high, until);
    }
  }

  // ----- runs of the watch -----

  datatype Note = Note(key: Key, sample: Sample)

  function Mine(notes: seq<Note>, key: Key): seq<Sample> {
    if notes == [] then []
    else Mine(notes[..|notes| - 1], key) + if notes[|notes| - 1].key == key then [notes[|notes| - 1].sample] else []
  }

  // Every counter is always reported with the same number of values.
  ghost predicate Regular(notes: seq<Note>, width: Key -> nat) {
    forall k :: 0 <= k < |notes| ==> |notes[k].sample.values| == width(notes[k].key)
  }

  function Exec(notes: seq<Note>, width: Key -> nat): (s: Series)
    requires Regular(notes, width)
    ensures forall k :: k in s.items ==> |s.items[k].last| == width(k)
  {
    if notes == [] then Series([], map[])
    else Noted(Exec(notes[..|notes| - 1], width), notes[|notes| - 1].key, notes[|notes| - 1].sample)
  }

  lemma {:induction false} MineIsRegular(notes: seq<Note>, width: Key -> nat, key: Key)
    requires Regular(notes, width)
    ensures forall k :: 0 <= k < |Mine(notes, key)| ==> |Mine(notes, key)[k].values| == width(key)
    ensures Alike(Mine(notes, key))
  {
    if notes != [] {
      MineIsRegular(notes[..|notes| - 1], width, key);
    }
  }

  /** Counters do not disturb each other: each item is what its own samples make it. */
  lemma {:induction false} CountersAreIndependent(notes: seq<Note>, width: Key -> nat, key: Key)
    requires Regular(notes, width)
    ensures
      var s, mine := Exec(notes, width), Mine(notes, key);
      && Alike(mine) && (key in s.items <==> mine != []) && (key in s.items <==> key in s.order)
      && (mine != [] ==> s.items[key] == ItemOf(mine))
  {
    MineIsRegular(notes, width, key);
    if notes != [] {
      hide Observed, Alike, ItemOf, Regular;
      var before, last := notes[..|notes| - 1], notes[|notes| - 1];
      RegularBefore(notes, width);
      CountersAreIndependent(before, width, key);
      ExecSnoc(notes, width);
      if last.key == key {
        ItemSnoc(Mine(before, key), last.sample);
        hide Exec;
      } else {
        hide Exec;
        assert Mine(notes, key) == Mine(before, key);
      }
    }
  }

  lemma RegularBefore(notes: seq<Note>, width: Key -> nat)
    requires Regular(notes, width) && notes != []
    ensures Regular(notes[..|notes| - 1], width)
  {
  }

  lemma ExecSnoc(notes: seq<Note>, width: Key -> nat)
    requires Regular(notes, width) && notes != []
    ensures
      var s, last := Exec(notes[..|notes| - 1], width), notes[|notes| - 1];
      && (last.key in s.items ==> |s.items[last.key].last| == |last.sample.values|)
      && Exec(notes, width) == Noted(s, last.key, last.sample)
  {
  }

  lemma {:induction false} ItemSnoc(h: seq<Sample>, s: Sample)
    requires Alike(h + [s])
    ensures Alike(h)
    ensures h == [] ==> ItemOf(h + [s]) == First(s)
    ensures h != [] ==> |ItemOf(h).last| == |s.values| && ItemOf(h + [s]) == Observed(ItemOf(h), s)
  {
    var all := h + [s];
    assert all[..|all| - 1] == h && all[|h|] == s;
    forall i, j | 0 <= i < |h| && 0 <= j < |h|
      ensures |h[i].values| == |h[j].values|
    {
      assert all[i] == h[i] && all[j] == h[j];
    }
    if h != [] {
      assert all[0] == h[0];
    }
    hide Observed;
  }

  /** So in every run the watch can report, and it fails exactly when some counter moved and a share exceeds one. */
  lemma {:induction false} SpansFailIff(notes: seq<Note>, width: Key -> nat, low: real, high: real, until: Option<real>)
    requires Regular(notes, width) && forall key :: Timely(Mine(notes, key))
    ensures
      var s := Exec(notes, width);
      && Movable(s)
      && (Found(s, |s.order|, low, high, until).Err?
          <==> (low > 1.0 || high > 1.0) && exists key :: key in s.items && s.items[key].points != [])
  {
    var s := Exec(notes, width);
    forall key: Key
      ensures key in s.items ==> PointsOk(s.items[key]) && InTime(s.items[key].points)
      ensures key in s.items <==> key in s.order
    {
      CountersAreIndependent(notes, width, key);
      if key in s.items {
        PointsRise(Mine(notes, key));
      }
    }
    hide Exec, PointsOk;
    FoundFailsIff(s, |s.order|, low, high, until);
    if key :| key in s.items && s.items[key].points != [] {
      assert key in s.order;
    }
  }

  lemma {:induction false} FoundFailsIff(s: Series, n: nat, low: real, high: real, until: Option<real>)
    requires Movable(s) && n <= |s.order| && forall k :: k in s.items ==> InTime(s.items[k].points)
    ensures Found(s, n, low, high, until).Err?
            <==> (low > 1.0 || high > 1.0) && exists k :: 0 <= k < n && s.items[s.order[k]].points != []
  {
    hide Span, PointsOk;
    if n > 0 {
      FoundFailsIff(s, n - 1, low, high, until);
      var key := s.order[n - 1];
      if s.items[key].points != [] {
        SpanOfPoints(key, s.items[key], low, high, until);
      }
    }
  }
}
