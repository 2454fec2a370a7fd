// Sorted lists of strings: the order is total, so a multiset of strings has one sorted list.

module Sorting {
  /** Lexicographic order by character. */
  predicate Leq(a: string, b: string) {
    a == "" || (b != "" && (a[0] < b[0] || (a[0] == b[0] && Leq(a[1..], b[1..]))))
  }

  lemma {:induction false} LeqTotal(a: string, b: string)
    ensures Leq(a, b) || Leq(b, a)
  {
    if a != "" && b != "" && a[0] == b[0] {
      LeqTotal(a[1..], b[1..]);
    }
  }

  lemma {:induction false} LeqAntisymmetric(a: string, b: string)
    requires Leq(a, b) && Leq(b, a)
    ensures a == b
  {
    if a != "" {
      LeqAntisymmetric(a[1..], b[1..]);
      assert a == [a[0]] + a[1..] && b == [b[0]] + b[1..];
    }
  }

  lemma {:induction false} LeqTransitive(a: string, b: string, c: string)
    requires Leq(a, b) && Leq(b, c)
    ensures Leq(a, c)
  {
    if a != "" && a[0] == b[0] == c[0] {
      LeqTransitive(a[1..], b[1..], c[1..]);
    }
  }

  predicate Ordered(xs: seq<string>) {
    forall i, j :: 0 <= i < j < |xs| ==> Leq(xs[i], xs[j])
  }

  function Insert(x: string, xs: seq<string>): (r: seq<string>)
    requires Ordered(xs)
    ensures Ordered(r) && multiset(r) == multiset(xs) + multiset{x} && |r| == |xs| + 1
  {
    if xs == [] then [x]
    else if Leq(x, xs[0]) then
      BeforeAll(x, xs);
      [x] + xs
    else
      LeqTotal(x, xs[0]);
      var r := Insert(x, xs[1..]);
      assert xs == [xs[0]] + xs[1..];
      StaysFirst(x, xs, r);
      [xs[0]] + r
  }

  lemma BeforeAll(x: string, xs: seq<string>)
    requires Ordered(xs) && xs != [] && Leq(x, xs[0])
    ensures forall j :: 0 <= j < |xs| ==> Leq(x, xs[j])
  {
    forall j | 0 <= j < |xs| ensures Leq(x, xs[j]) {
      FirstIsLeast(xs, xs[j]);
      LeqTransitive(x, xs[0], xs[j]);
    }
  }

  lemma StaysFirst(x: string, xs: seq<string>, r: seq<string>)
    requires xs != [] && Ordered(xs) && Leq(xs[0], x) && multiset(r) == multiset(xs[1..]) + multiset{x}
    ensures forall j :: 0 <= j < |r| ==> Leq(xs[0], r[j])
  {
    forall j | 0 <= j < |r| ensures Leq(xs[0], r[j]) {
      InsertedIsOld(x, xs[1..], r, j);
    }
  }

  lemma InsertedIsOld(x: string, xs: seq<string>, r: seq<string>, j: nat)
    requires multiset(r) == multiset(xs) + multiset{x} && j < |r|
    ensures r[j] == x || r[j] in xs
  {
    assert r[j] in multiset(r);
  }

  function Sorted(xs: seq<string>): (r: seq<string>)
    ensures Ordered(r) && multiset(r) == multiset(xs) && |r| == |xs|
  {
    if xs == [] then []
    else
      assert xs == [xs[0]] + xs[1..];
      Insert(xs[0], Sorted(xs[1..]))
  }

  lemma {:induction false} OrderedUnique(a: seq<string>, b: seq<string>)
    requires Ordered(a) && Ordered(b) && multiset(a) == multiset(b)
    ensures a == b
  {
    if a == [] {
      assert |multiset(b)| == |b|;
    } else {
      SameFirst(a, b);
      TailHolds(a);
      TailHolds(b);
      OrderedUnique(a[1..], b[1..]);
    }
  }

  lemma TailHolds(a: seq<string>)
    requires a != []
    ensures a == [a[0]] + a[1..] && multiset(a[1..]) == multiset(a) - multiset{a[0]}
  {
    assert a == [a[0]] + a[1..];
  }

  lemma SameFirst(a: seq<string>, b: seq<string>)
    requires Ordered(a) && Ordered(b) && multiset(a) == multiset(b) && a != []
    ensures b != [] && a[0] == b[0]
  {
    assert a[0] in multiset(a) && a[0] in multiset(b);
    assert b[0] in multiset(b) && b[0] in multiset(a);
    FirstIsLeast(b, a[0]);
    FirstIsLeast(a, b[0]);
    LeqAntisymmetric(a[0], b[0]);
  }

  lemma FirstIsLeast(xs: seq<string>, x: string)
    requires Ordered(xs) && x in xs
    ensures Leq(xs[0], x)
  {
    var i :| 0 <= i < |xs| && xs[i] == x;
    if i == 0 {
      LeqTotal(x, x);
    }
  }

  /** Two lists sort to the same list exactly when they hold the same strings equally often. */
  lemma SortedSame(a: seq<string>, b: seq<string>)
    ensures Sorted(a) == Sorted(b) <==> multiset(a) == multiset(b)
  {
    if multiset(a) == multiset(b) {
      OrderedUnique(Sorted(a), Sorted(b));
    }
  }

  lemma SortedFixed(a: seq<string>)
    requires Ordered(a)
    ensures Sorted(a) == a
  {
    OrderedUnique(Sorted(a), a);
  }

  lemma SortedIs(xs: seq<string>, ys: seq<string>)
    requires Ordered(ys) && multiset(xs) == multiset(ys)
    ensures Sorted(xs) == ys
  {
    OrderedUnique(Sorted(xs), ys);
  }

  lemma PairOrdered(a: string, b: string)
    requires Leq(a, b)
    ensures Ordered([a, b]) && multiset([a, b]) == multiset([b, a])
  {
    var xs := [a, b];
    forall i, j | 0 <= i < j < |xs| ensures Leq(xs[i], xs[j]) {
      assert i == 0 && j == 1;
    }
  }
}
