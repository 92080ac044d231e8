/**
 * Reachability and cycles in a directed graph given by its set of edges.
 */
module Reachability {

  // y is n edges away from x.
  ghost predicate Away<V(!new)>(e: set<(V, V)>, x: V, y: V, n: nat) {
    if n == 0 then x == y
    else exists w :: (x, w) in e && Away(e, w, y, n - 1)
  }

  ghost predicate Reach<V(!new)>(e: set<(V, V)>, x: V, y: V) {
    exists n: nat :: Away(e, x, y, n)
  }

  // There is a path with at least one edge.
  ghost predicate ReachPlus<V(!new)>(e: set<(V, V)>, x: V, y: V) {
    exists w :: (x, w) in e && Reach(e, w, y)
  }

  ghost predicate Acyclic<V(!new)>(e: set<(V, V)>) {
    forall v :: !ReachPlus(e, v, v)
  }

  ghost predicate CycleFrom<V(!new)>(e: set<(V, V)>, v: V) {
    exists w :: Reach(e, v, w) && ReachPlus(e, w, w)
  }

  lemma ReachSelf<V(!new)>(e: set<(V, V)>, x: V)
    ensures Reach(e, x, x)
  {
    assert Away(e, x, x, 0);
  }

  lemma ReachStep<V(!new)>(e: set<(V, V)>, x: V, w: V, y: V)
    requires (x, w) in e && Reach(e, w, y)
    ensures Reach(e, x, y) && ReachPlus(e, x, y)
  {
    var n: nat :| Away(e, w, y, n);
    assert Away(e, x, y, n + 1);
  }

  lemma ReachFirst<V(!new)>(e: set<(V, V)>, x: V, y: V)
    requires Reach(e, x, y)
    ensures x == y || ReachPlus(e, x, y)
  {
    var n: nat :| Away(e, x, y, n);
    if n > 0 {
      var w :| (x, w) in e && Away(e, w, y, n - 1);
      assert Reach(e, w, y);
    }
  }

  lemma {:induction false} AwayThen<V(!new)>(e: set<(V, V)>, x: V, y: V, z: V, n: nat)
    requires Away(e, x, y, n) && Reach(e, y, z)
    ensures Reach(e, x, z)
    decreases n
  {
    if n > 0 {
      var w :| (x, w) in e && Away(e, w, y, n - 1);
      AwayThen(e, w, y, z, n - 1);
      ReachStep(e, x, w, z);
    }
  }

  lemma ReachTrans<V(!new)>(e: set<(V, V)>, x: V, y: V, z: V)
    requires Reach(e, x, y) && Reach(e, y, z)
    ensures Reach(e, x, z)
  {
    var n: nat :| Away(e, x, y, n);
    AwayThen(e, x, y, z, n);
  }

  lemma PlusThen<V(!new)>(e: set<(V, V)>, x: V, y: V, z: V)
    requires ReachPlus(e, x, y) && Reach(e, y, z)
    ensures ReachPlus(e, x, z)
  {
    var w :| (x, w) in e && Reach(e, w, y);
    ReachTrans(e, w, y, z);
  }

  lemma ThenPlus<V(!new)>(e: set<(V, V)>, x: V, y: V, z: V)
    requires Reach(e, x, y) && ReachPlus(e, y, z)
    ensures ReachPlus(e, x, z)
  {
    ReachFirst(e, x, y);
    var w :| (y, w) in e && Reach(e, w, z);
    ReachStep(e, y, w, z);
    if x != y {
      PlusThen(e, x, y, z);
    }
  }

  lemma {:induction false} AwayMore<V(!new)>(e: set<(V, V)>, f: set<(V, V)>, x: V, y: V, n: nat)
    requires Away(e, x, y, n) && e <= f
    ensures Away(f, x, y, n)
    decreases n
  {
    if n > 0 {
      var w :| (x, w) in e && Away(e, w, y, n - 1);
      AwayMore(e, f, w, y, n - 1);
    }
  }

  lemma ReachMore<V(!new)>(e: set<(V, V)>, f: set<(V, V)>, x: V, y: V)
    requires Reach(e, x, y) && e <= f
    ensures Reach(f, x, y)
  {
    var n: nat :| Away(e, x, y, n);
    AwayMore(e, f, x, y, n);
  }

  lemma PlusMore<V(!new)>(e: set<(V, V)>, f: set<(V, V)>, x: V, y: V)
    requires ReachPlus(e, x, y) && e <= f
    ensures ReachPlus(f, x, y)
  {
    var w :| (x, w) in e && Reach(e, w, y);
    ReachMore(e, f, w, y);
  }

  lemma AcyclicLess<V(!new)>(e: set<(V, V)>, f: set<(V, V)>)
    requires Acyclic(f) && e <= f
    ensures Acyclic(e)
  {
    forall v
      ensures !ReachPlus(e, v, v)
    {
      if ReachPlus(e, v, v) {
        PlusMore(e, f, v, v);
      }
    }
  }

  // A path that may use the extra edge (a, b) either avoids it or passes a before its
  // first and b after its last use.
  lemma {:induction false} AwayWithEdge<V(!new)>(e: set<(V, V)>, a: V, b: V, x: V, y: V, n: nat)
    requires Away(e + {(a, b)}, x, y, n)
    ensures Reach(e, x, y) || (Reach(e, x, a) && Reach(e, b, y))
    decreases n
  {
    ReachSelf(e, x);
    if n > 0 {
      var w :| (x, w) in e + {(a, b)} && Away(e + {(a, b)}, w, y, n - 1);
      AwayWithEdge(e, a, b, w, y, n - 1);
      if (x, w) in e {
        if Reach(e, w, y) {
          ReachStep(e, x, w, y);
        } else {
          ReachStep(e, x, w, a);
        }
      }
    }
  }

  // A new edge closes a cycle exactly when its head already reaches its tail.
  lemma EdgeClosesCycle<V(!new)>(e: set<(V, V)>, a: V, b: V)
    requires Acyclic(e)
    ensures Acyclic(e + {(a, b)}) <==> !Reach(e, b, a)
  {
    var f := e + {(a, b)};
    if Reach(e, b, a) {
      ReachMore(e, f, b, a);
      ReachStep(f, a, b, a);
    } else {
      forall v
        ensures !ReachPlus(f, v, v)
      {
        if ReachPlus(f, v, v) {
          var w :| (v, w) in f && Reach(f, w, v);
          var n: nat :| Away(f, w, v, n);
          AwayWithEdge(e, a, b, w, v, n);
          if (v, w) in e {
            assert !ReachPlus(e, v, v);
            assert !Reach(e, w, v);
            ReachStep(e, v, w, a);
            ReachTrans(e, b, v, a);
          }
          assert false;
        }
      }
    }
  }

  // A vertex without edges of its own reaches only itself.
  lemma SinkReach<V(!new)>(e: set<(V, V)>, x: V, y: V)
    requires forall w :: (x, w) !in e
    requires Reach(e, x, y)
    ensures x == y
  {
    ReachFirst(e, x, y);
  }

  // A path none of whose vertices has an edge in e outside f is a path of f.
  lemma {:induction false} AwayWithin<V(!new)>(e: set<(V, V)>, f: set<(V, V)>, x: V, y: V, n: nat)
    requires Away(e, x, y, n)
    requires forall v, w | (v, w) in e && (v, w) !in f :: !Reach(e, w, y)
    ensures Away(f, x, y, n)
    decreases n
  {
    if n > 0 {
      var w :| (x, w) in e && Away(e, w, y, n - 1);
      assert Reach(e, w, y);
      AwayWithin(e, f, w, y, n - 1);
    }
  }

  lemma ReachWithin<V(!new)>(e: set<(V, V)>, f: set<(V, V)>, x: V, y: V)
    requires Reach(e, x, y)
    requires forall v, w | (v, w) in e && (v, w) !in f :: !Reach(e, w, y)
    ensures Reach(f, x, y)
  {
    var n: nat :| Away(e, x, y, n);
    AwayWithin(e, f, x, y, n);
  }

  // In a finite acyclic graph every vertex reaches one without edges of its own. `seen`
  // are vertices already passed on the way to x.
  lemma SinkBelow<V(!new)>(e: set<(V, V)>, vs: set<V>, x: V, seen: set<V>) returns (y: V)
    requires Acyclic(e) && forall v, w | (v, w) in e :: v in vs && w in vs
    requires x in vs && seen <= vs
    requires forall u | u in seen :: ReachPlus(e, u, x)
    ensures Reach(e, x, y) && y in vs && forall w :: (y, w) !in e
    decreases |vs - seen|
  {
    ReachSelf(e, x);
    if w :| (x, w) in e {
      assert !ReachPlus(e, x, x);
      assert x in vs - seen && vs - (seen + {x}) == vs - seen - {x};
      ReachSelf(e, w);
      forall u | u in seen + {x}
        ensures ReachPlus(e, u, w)
      {
        ReachStep(e, x, w, w);
        if u != x {
          PlusThen(e, u, x, w);
        }
      }
      y := SinkBelow(e, vs, w, seen + {x});
      ReachStep(e, x, w, y);
    } else {
      y := x;
    }
  }
}
