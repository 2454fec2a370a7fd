// The slice helpers the privilege code takes from the go-funk library, written
// as the loops they are and specified by what the loops leave in the result.

module Funk {
  ghost predicate Distinct(x: seq<string>) {
    forall i, j :: 0 <= i < j < |x| ==> x[i] != x[j]
  }

  ghost function Elems(x: seq<string>): set<string> {
    set v | v in x
  }

  /** The elements of `x` that are not in `y`, in order and with repetitions. */
  function Without(x: seq<string>, y: seq<string>): (r: seq<string>)
    ensures forall v :: v in r <==> v in x && v !in y
  {
    if x == [] then []
    else
      var n := |x| - 1;
      assert x == x[..n] + [x[n]];
      Without(x[..n], y) + (if x[n] in y then [] else [x[n]])
  }

  /** The first occurrence of every element of `x`, in order. */
  function Unique(x: seq<string>): (r: seq<string>)
    ensures Distinct(r)
    ensures forall v :: v in r <==> v in x
  {
    if x == [] then []
    else
      var n := |x| - 1;
      assert x == x[..n] + [x[n]];
      var u := Unique(x[..n]);
      if x[n] in u then u else u + [x[n]]
  }

  function Map<A, B>(f: A -> B, x: seq<A>): (r: seq<B>)
    ensures |r| == |x| && forall i :: 0 <= i < |x| ==> r[i] == f(x[i])
  {
    seq(|x|, i requires 0 <= i < |x| => f(x[i]))
  }

  lemma MapNext<A, B>(f: A -> B, x: seq<A>, i: nat)
    requires i < |x|
    ensures Map(f, x[..i + 1]) == Map(f, x[..i]) + [f(x[i])]
  {
    assert x[..i + 1] == x[..i] + [x[i]];
  }

  /** funk.Subset: besides membership it demands that `x` is not longer than `y`. */
  predicate Subset(x: seq<string>, y: seq<string>) {
    x == [] || (|x| <= |y| && forall v :: v in x ==> v in y)
  }

  method Subtract(x: seq<string>, y: seq<string>) returns (r: seq<string>)
    ensures r == Without(x, y)
  {
    r := [];
    for i := 0 to |x|
      invariant r == Without(x[..i], y)
    {
      assert x[..i + 1][..i] == x[..i];
      if x[i] !in y {
        r := r + [x[i]];
      }
    }
    assert x[..|x|] == x;
  }

  method Difference(x: seq<string>, y: seq<string>) returns (left: seq<string>, right: seq<string>)
    ensures left == Without(x, y) && right == Without(y, x)
    ensures Elems(left) == Elems(x) - Elems(y)
    ensures Elems(right) == Elems(y) - Elems(x)
  {
    left := Subtract(x, y);
    right := Subtract(y, x);
  }

  method Uniq(x: seq<string>) returns (r: seq<string>)
    ensures r == Unique(x)
  {
    r := [];
    for i := 0 to |x|
      invariant r == Unique(x[..i])
    {
      assert x[..i + 1][..i] == x[..i];
      if x[i] !in r {
        r := r + [x[i]];
      }
    }
    assert x[..|x|] == x;
  }

  /** Drop every occurrence of one item. */
  method Remove(x: seq<string>, item: string) returns (r: seq<string>)
    ensures r == Without(x, [item])
  {
    r := [];
    for i := 0 to |x|
      invariant r == Without(x[..i], [item])
    {
      assert x[..i + 1][..i] == x[..i];
      if x[i] != item {
        r := r + [x[i]];
      }
    }
    assert x[..|x|] == x;
  }

  lemma {:induction false} UniqueOfDistinct(x: seq<string>)
    requires Distinct(x)
    ensures Unique(x) == x
  {
    if x != [] {
      var n := |x| - 1;
      UniqueOfDistinct(x[..n]);
      assert x == x[..n] + [x[n]];
    }
  }
}
