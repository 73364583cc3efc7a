/** Sorting a sequence by a total order, as the library calls the sources use do. */
module Sorting {

  ghost predicate Total<T(!new)>(le: (T, T) -> bool) {
    forall x, y :: le(x, y) || le(y, x)
  }

  ghost predicate Transitive<T(!new)>(le: (T, T) -> bool) {
    forall x, y, z :: le(x, y) && le(y, z) ==> le(x, z)
  }

  ghost predicate SortedBy<T>(le: (T, T) -> bool, s: seq<T>) {
    forall i, j :: 0 <= i < j < |s| ==> le(s[i], s[j])
  }

  function Insert<T(!new)>(le: (T, T) -> bool, x: T, s: seq<T>): (r: seq<T>)
    requires Total(le) && Transitive(le) && SortedBy(le, s)
    ensures SortedBy(le, r) && multiset(r) == multiset(s) + multiset{x}
  {
    if s == [] then [x]
    else if le(x, s[0]) then
      InFront(le, x, s);
      [x] + s
    else
      var rest := Insert(le, x, s[1..]);
      assert s == [s[0]] + s[1..];
      Members(rest, s[1..], x);
      InFront(le, s[0], rest);
      [s[0]] + rest
  }

  lemma InFront<T(!new)>(le: (T, T) -> bool, x: T, s: seq<T>)
    requires Transitive(le) && SortedBy(le, s)
    requires (s != [] ==> le(x, s[0])) || forall y :: y in s ==> le(x, y)
    ensures SortedBy(le, [x] + s)
  {
    forall j | 0 <= j < |s|
      ensures le(x, s[j])
    {
      assert s[j] in s;
      assert j > 0 ==> le(s[0], s[j]);
    }
  }

  lemma Members<T(!new)>(r: seq<T>, s: seq<T>, x: T)
    requires multiset(r) == multiset(s) + multiset{x}
    ensures forall y :: y in r ==> y == x || y in s
  {
    forall y | y in r
      ensures y == x || y in s
    {
      assert y in multiset(r);
    }
  }

  // Each element goes in front of its equals behind it, so the sort is stable.
  function Sort<T(!new)>(le: (T, T) -> bool, s: seq<T>): (r: seq<T>)
    requires Total(le) && Transitive(le)
    ensures SortedBy(le, r) && multiset(r) == multiset(s)
  {
    if s == [] then []
    else
      assert s == [s[0]] + s[1..];
      Insert(le, s[0], Sort(le, s[1..]))
  }

  // If a has no repeats neither has its permutation b, and they have the same members.
  lemma PermutationFacts<T(!new)>(a: seq<T>, b: seq<T>)
    requires multiset(a) == multiset(b)
    ensures |a| == |b| && (forall x :: x in a <==> x in b)
    ensures
      (forall i, j :: 0 <= i < j < |a| ==> a[i] != a[j]) ==>
        (forall i, j :: 0 <= i < j < |b| ==> b[i] != b[j])
  {
    assert |a| == |multiset(a)| && |b| == |multiset(b)|;
    assert forall x :: x in a <==> x in multiset(a);
    assert forall x :: x in b <==> x in multiset(b);
    if forall i, j :: 0 <= i < j < |a| ==> a[i] != a[j] {
      forall i, j | 0 <= i < j < |b|
        ensures b[i] != b[j]
      {
        if b[i] == b[j] {
          TwiceInMultiset(b, i, j);
          OnceInMultiset(a, b[i]);
        }
      }
    }
  }

  lemma TwiceInMultiset<T>(s: seq<T>, i: nat, j: nat)
    requires i < j < |s| && s[i] == s[j]
    ensures multiset(s)[s[i]] >= 2
  {
    assert s == s[..j] + [s[j]] + s[j + 1..];
    assert s[i] in s[..j];
  }

  lemma {:induction false} OnceInMultiset<T(!new)>(s: seq<T>, x: T)
    requires forall i, j :: 0 <= i < j < |s| ==> s[i] != s[j]
    ensures multiset(s)[x] <= 1
  {
    if s != [] {
      var front, last := s[..|s| - 1], s[|s| - 1];
      assert s == front + [last];
      OnceInMultiset(front, x);
      if x == last {
        assert last !in front;
      }
    }
  }

  lemma SameRest<T>(x: T, s: seq<T>, t: seq<T>, a: seq<T>, b: seq<T>)
    requires a == [x] + s && b == [x] + t && multiset(a) == multiset(b)
    ensures multiset(s) == multiset(t)
  {
    DropOne(multiset(s), multiset(t), x);
  }

  lemma Pluck<T>(s: seq<T>, k: nat)
    requires k < |s|
    ensures multiset(s) == multiset{s[k]} + multiset(s[..k] + s[k + 1..])
  {
    assert s == s[..k] + [s[k]] + s[k + 1..];
  }

  lemma DropOne<T>(a: multiset<T>, b: multiset<T>, x: T)
    requires multiset{x} + a == multiset{x} + b
    ensures a == b
  {
    assert (multiset{x} + a) - multiset{x} == a;
    assert (multiset{x} + b) - multiset{x} == b;
  }

  ghost predicate TellsApart<T(!new)>(le: (T, T) -> bool, s: seq<T>) {
    forall x, y :: x in s && y in s && le(x, y) && le(y, x) ==> x == y
  }

  lemma SameHead<T(!new)>(le: (T, T) -> bool, a: seq<T>, b: seq<T>)
    requires multiset(a) == multiset(b) && a != [] && b != []
    requires SortedBy(le, a) && SortedBy(le, b) && TellsApart(le, a)
    ensures a[0] == b[0]
  {
    PermutationFacts(a, b);
    assert a[0] in b && b[0] in a;
    var i :| 0 <= i < |a| && a[i] == b[0];
    var j :| 0 <= j < |b| && b[j] == a[0];
    if i > 0 && j > 0 {
      assert le(a[0], b[0]) && le(b[0], a[0]);
    }
  }

  // Two sorted permutations are equal when the order tells their members apart.
  lemma {:induction false} SortedIsUnique<T(!new)>(le: (T, T) -> bool, a: seq<T>, b: seq<T>)
    requires multiset(a) == multiset(b) && SortedBy(le, a) && SortedBy(le, b) && TellsApart(le, a)
    ensures a == b
  {
    PermutationFacts(a, b);
    if a != [] {
      SameHead(le, a, b);
      var s, t := a[1..], b[1..];
      SameRest(a[0], s, t, a, b);
      TellsApartTail(le, a);
      SortedIsUnique(le, s, t);
    }
  }

  lemma TellsApartTail<T(!new)>(le: (T, T) -> bool, s: seq<T>)
    requires s != [] && TellsApart(le, s)
    ensures TellsApart(le, s[1..])
  {
  }

  // ----- stability -----

  // The elements that tie with x, in order.
  function Ties<T>(le: (T, T) -> bool, x: T, s: seq<T>): seq<T> {
    if s == [] then [] else (if le(x, s[0]) && le(s[0], x) then [s[0]] else []) + Ties(le, x, s[1..])
  }

  lemma TiesCons<T>(le: (T, T) -> bool, x: T, a: T, s: seq<T>)
    ensures Ties(le, x, [a] + s) == (if le(x, a) && le(a, x) then [a] else []) + Ties(le, x, s)
  {
    assert ([a] + s)[1..] == s;
  }

  lemma InsertFront<T(!new)>(le: (T, T) -> bool, a: T, s: seq<T>)
    requires Total(le) && Transitive(le) && SortedBy(le, s) && (s == [] || le(a, s[0]))
    ensures Insert(le, a, s) == [a] + s
  {
  }

  lemma InsertFurther<T(!new)>(le: (T, T) -> bool, a: T, s: seq<T>)
    requires Total(le) && Transitive(le) && SortedBy(le, s) && s != [] && !le(a, s[0])
    ensures SortedBy(le, s[1..]) && Insert(le, a, s) == [s[0]] + Insert(le, a, s[1..])
  {
  }

  // Only one of two elements in strict order can tie with x.
  lemma OneTies<T(!new)>(le: (T, T) -> bool, x: T, a: T, b: T)
    requires Transitive(le) && !le(a, b)
    ensures !(le(x, a) && le(a, x) && le(x, b) && le(b, x))
  {
  }

  lemma {:induction false} InsertIsStable<T(!new)>(le: (T, T) -> bool, x: T, a: T, s: seq<T>)
    requires Total(le) && Transitive(le) && SortedBy(le, s)
    ensures Ties(le, x, Insert(le, a, s)) == (if le(x, a) && le(a, x) then [a] else []) + Ties(le, x, s)
  {
    hide Insert, Ties, Total, Transitive, SortedBy;
    if s == [] || le(a, s[0]) {
      InsertFront(le, a, s);
      TiesCons(le, x, a, s);
    } else {
      InsertFurther(le, a, s);
      InsertIsStable(le, x, a, s[1..]);
      OneTies(le, x, a, s[0]);
      assert s == [s[0]] + s[1..];
      TiesCons(le, x, s[0], s[1..]);
      TiesCons(le, x, s[0], Insert(le, a, s[1..]));
    }
  }

  /** Sorting keeps elements that tie in the order they had. */
  lemma {:induction false} SortIsStable<T(!new)>(le: (T, T) -> bool, x: T, s: seq<T>)
    requires Total(le) && Transitive(le)
    ensures Ties(le, x, Sort(le, s)) == Ties(le, x, s)
  {
    if s != [] {
      SortIsStable(le, x, s[1..]);
      InsertIsStable(le, x, s[0], Sort(le, s[1..]));
    }
  }
}
