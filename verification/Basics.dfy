/**
 * What several of the models share.
 */
module Basics {

  datatype Option<T> = None | Some(value: T)

  type byte = x: int | 0 <= x < 256

  function Min(a: int, b: int): int {
    if a < b then a else b
  }

  // r pairs off the elements of a and b.
  ghost predicate Pairs<A(!new), B(!new)>(a: set<A>, b: set<B>, r: map<A, B>) {
    && (forall x | x in a :: x in r && r[x] in b)
    && (forall x, y | x in a && y in a && r[x] == r[y] :: x == y)
    && (forall z | z in b :: exists x :: x in a && r[x] == z)
  }

  lemma {:induction false} PairsSize<A(!new), B(!new)>(a: set<A>, b: set<B>, r: map<A, B>)
    requires Pairs(a, b, r)
    ensures |a| == |b|
    decreases |a|
  {
    if x :| x in a {
      forall z | z in b - {r[x]}
        ensures exists y :: y in a - {x} && r[y] == z
      {
        var y :| y in a && r[y] == z;
        assert y in a - {x};
      }
      PairsSize(a - {x}, b - {r[x]}, r);
    } else {
      assert forall z :: z !in b;
    }
  }

  lemma SubsetSize<A>(a: set<A>, b: set<A>)
    requires a <= b
    ensures |a| <= |b|
    ensures |a| == |b| ==> a == b
  {
    assert b == a + (b - a) && a * (b - a) == {};
    if |a| == |b| {
      assert |b - a| == 0;
    }
  }
}
