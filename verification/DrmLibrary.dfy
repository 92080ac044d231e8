/**
 * The functions of deadlock_demolition/libdrm.c, each between two lock operations, as the
 * steps of the protocol in module Drm.
 */
module DrmLibrary {
  import opened Basics
  import opened Reachability
  import opened Drm

  class Library {
    // `g`, as its vertices and edges; `visited_vertex`; the drms' own mutexes; and where
    // each thread is.
    var vertices: set<Vertex>
    var edges: set<Edge>
    var visited: Option<set<Vertex>>
    var owner: map<nat, nat>
    ghost var pcs: map<nat, Pc>

    ghost function Now(): State
      reads this
    {
      State(vertices, edges, owner, pcs)
    }

    ghost predicate Valid()
      reads this
    {
      Inv(Now()) && visited == None
    }

    constructor ()
      ensures Now() == START && Valid()
    {
      vertices, edges, visited, owner, pcs := {}, {}, None, map[], map[];
      new;
      assert forall v :: !ReachPlus(START.edges, v, v);
    }

    // graph_neighbors, in any order.
    method GraphNeighbors(v: Vertex) returns (ns: seq<Vertex>)
      ensures forall w :: w in ns <==> (v, w) in edges
      ensures forall i, j | 0 <= i < j < |ns| :: ns[i] != ns[j]
    {
      ns := [];
      var rest := set e | e in edges && e.0 == v :: e.1;
      while rest != {}
        invariant forall w :: w in ns || w in rest <==> (v, w) in edges
        invariant forall w | w in ns :: w !in rest
        invariant forall i, j | 0 <= i < j < |ns| :: ns[i] != ns[j]
        decreases |rest|
      {
        var w :| w in rest;
        ns, rest := ns + [w], rest - {w};
      }
    }

    // The visited set is thrown away on every return. One edge out of each vertex makes up
    // for it: the set always holds the vertices on the way to v.
    method HasCycle(v: Vertex) returns (flag: bool)
      requires OneOut(edges)
      requires v in vertices && forall x, y | (x, y) in edges :: x in vertices && y in vertices
      requires visited.Some? ==> visited.value <= vertices && forall u | u in visited.value :: ReachPlus(edges, u, v)
      modifies this`visited
      ensures flag <==> CycleFrom(edges, v)
      ensures visited == None
      decreases |vertices - if visited.Some? then visited.value else {}|
    {
      if visited == None {
        visited := Some({});
      }
      flag := false;
      if v !in visited.value {
        ghost var seen := visited.value;
        assert v in vertices - seen && vertices - (seen + {v}) == vertices - seen - {v};
        visited := Some(visited.value + {v});
        var neighbors := GraphNeighbors(v);
        assert |neighbors| <= 1 by {
          if |neighbors| > 1 {
            assert (v, neighbors[0]) in edges && (v, neighbors[1]) in edges;
          }
        }
        if |neighbors| == 0 {
          NoNeighbor(edges, v);
        } else {
          OneNeighbor(edges, v, neighbors[0]);
        }
        var i := 0;
        while i < |neighbors|
          invariant 0 <= i <= |neighbors|
          invariant i == 0 ==> visited == Some(seen + {v})
          invariant i == 1 ==> visited == None && !CycleFrom(edges, neighbors[0])
        {
          forall u | u in seen + {v}
            ensures ReachPlus(edges, u, neighbors[i])
          {
            ReachSelf(edges, neighbors[i]);
            if u != v {
              ReachStep(edges, v, neighbors[i], neighbors[i]);
              PlusThen(edges, u, v, neighbors[i]);
            }
          }
          var found := HasCycle(neighbors[i]);
          if found {
            return true;
          }
          i := i + 1;
        }
      } else {
        flag := true;
        ReachSelf(edges, v);
      }
      visited := None;
    }

    // drm_init, with the address malloc returned.
    method DrmInit(d: nat)
      requires Valid() && D(d) !in vertices
      modifies this`vertices
      ensures Valid() && Init(old(Now()), Now(), d)
    {
      vertices := vertices + {D(d)};
      InitKeeps(old(Now()), Now(), d);
    }

    // drm_wait up to the first unlock of the global lock. Line 84 lets a drm through that is
    // not in the graph; `adds` says whether graph_add_edge puts such a vertex in or does
    // nothing. In the second case the caller goes on to block on the drm, and the graph does
    // not show it.
    method DrmWaitBegin(t: nat, d: nat, adds: bool) returns (refused: bool)
      requires Valid() && Now().Pc(t) == Idle
      modifies this`vertices, this`edges, this`visited, this`pcs
      ensures Valid() <==> D(d) in old(vertices) || adds
      ensures D(d) in old(vertices) || adds ==> WaitBegin(Known(old(Now()), d), Now(), t, d, refused)
      ensures D(d) !in old(vertices) ==> !refused
      ensures D(d) !in old(vertices) && !adds ==> Now() == Unrecorded(old(Now()), t, d)
    {
      hide Inv, OneOut, CycleFrom;
      ghost var s := Known(Now(), d);
      WaitReady(Now(), t, d);
      if T(t) !in vertices {
        vertices := vertices + {T(t)};
      }
      if D(d) in vertices {
        if (D(d), T(t)) in edges {
          WaitBeginKeeps(s, Now(), t, d, true);
          return true;
        }
      }
      if D(d) in vertices || adds {
        vertices := vertices + {D(d)};
        edges := edges + {(T(t), D(d))};
      }
      var cycle := HasCycle(T(t));
      if !cycle {
        pcs := pcs[t := Blocked(d)];
        if D(d) in vertices {
          WaitBeginKeeps(s, Now(), t, d, false);
        } else {
          UnrecordedBreaks(old(Now()), t, d);
          assert Now() == Unrecorded(old(Now()), t, d);
        }
        return false;
      }
      edges := edges - {(T(t), D(d))};
      assert edges == old(edges);
      WaitBeginKeeps(s, Now(), t, d, true);
      return true;
    }

    // The lock of the drm's own mutex, once it is free.
    method DrmWaitLock(t: nat, d: nat)
      requires Valid() && Now().Pc(t) == Blocked(d) && d !in owner
      modifies this`owner, this`pcs
      ensures Valid() && Acquire(old(Now()), Now(), t, d)
    {
      owner := owner[d := t];
      pcs := pcs[t := Acquired(d)];
      AcquireKeeps(old(Now()), Now(), t, d);
    }

    // drm_wait from the second lock of the global lock on; it returns 1.
    method DrmWaitRecord(t: nat, d: nat)
      requires Valid() && Now().Pc(t) == Acquired(d)
      modifies this`edges, this`pcs
      ensures Valid() && WaitRecord(old(Now()), Now(), t, d)
    {
      edges := edges - {(T(t), D(d))};
      edges := edges + {(D(d), T(t))};
      pcs := pcs[t := Idle];
      WaitRecordKeeps(old(Now()), Now(), t, d);
    }

    method DrmPost(t: nat, d: nat) returns (r: int)
      requires Valid() && Now().Pc(t) == Idle
      modifies this`edges, this`owner
      ensures r == 0 || r == 1
      ensures Valid() && Post(old(Now()), Now(), t, d, r == 1)
    {
      if T(t) !in vertices || D(d) !in vertices {
        return 0;
      }
      if (D(d), T(t)) in edges {
        edges := edges - {(D(d), T(t))};
        owner := owner - {d};
        PostKeeps(old(Now()), Now(), t, d, true);
        return 1;
      }
      return 0;
    }
  }

  // The drm is in the graph, as drm_init leaves it.
  function Known(s: State, d: nat): State {
    s.(vertices := s.vertices + {D(d)})
  }

  // The caller blocks on the drm and the graph has no edge for it.
  function Unrecorded(s: State, t: nat, d: nat): State {
    s.(vertices := s.vertices + {T(t)}, pcs := s.pcs[t := Blocked(d)])
  }

  lemma KnownKeeps(s: State, d: nat)
    requires Inv(s)
    ensures Inv(Known(s, d))
    ensures D(d) !in s.vertices ==> forall x :: (D(d), x) !in s.edges && (x, D(d)) !in s.edges
  {
    BipartiteLess(s, Known(s, d));
    assert forall u: nat :: Known(s, d).Pc(u) == s.Pc(u);
    forall x | D(d) !in s.vertices
      ensures (D(d), x) !in s.edges && (x, D(d)) !in s.edges
    {
      assert !s.Has(D(d), x) && !s.Has(x, D(d));
    }
  }

  lemma UnrecordedBreaks(s: State, t: nat, d: nat)
    requires Inv(s) && D(d) !in s.vertices
    ensures !Inv(Unrecorded(s, t, d))
  {
    var s' := Unrecorded(s, t, d);
    assert !s.Has(T(t), D(d));
    assert s'.Pc(t) == Blocked(d) && !s'.Has(T(t), D(d));
  }

  // What drm_wait relies on before it adds its edge; a drm new to the graph closes no cycle.
  lemma WaitReady(s: State, t: nat, d: nat)
    requires Inv(s) && s.Pc(t) == Idle
    ensures Inv(Known(s, d)) && OneOut(s.edges) && OneOut(s.edges + {(T(t), D(d))})
    ensures forall x, y | (x, y) in s.edges :: x in s.vertices && y in s.vertices
    ensures (T(t), D(d)) !in s.edges
    ensures D(d) !in s.vertices ==>
              && (D(d), T(t)) !in s.edges
              && !CycleFrom(s.edges, T(t)) && !CycleFrom(s.edges + {(T(t), D(d))}, T(t))
  {
    KnownKeeps(s, d);
    EdgeAddedOneOut(Known(s, d), t, d);
    OutDegreeAtMostOne(s);
    assert !s.Has(T(t), D(d));
    if D(d) !in s.vertices {
      CycleMeansReach(s, t, d);
      if Reach(s.edges, D(d), T(t)) {
        SinkReach(s.edges, D(d), T(t));
      }
    }
    forall x, y | (x, y) in s.edges
      ensures x in s.vertices && y in s.vertices
    {
      assert s.Has(x, y);
    }
  }

  lemma NoNeighbor(e: set<Edge>, v: Vertex)
    requires forall w :: (v, w) !in e
    ensures !CycleFrom(e, v)
  {
    forall w
      ensures !(Reach(e, v, w) && ReachPlus(e, w, w))
    {
      if Reach(e, v, w) {
        SinkReach(e, v, w);
      }
    }
  }

  lemma OneNeighbor(e: set<Edge>, v: Vertex, n: Vertex)
    requires (v, n) in e && forall w | (v, w) in e :: w == n
    ensures CycleFrom(e, v) <==> CycleFrom(e, n)
  {
    if CycleFrom(e, v) {
      var w :| Reach(e, v, w) && ReachPlus(e, w, w);
      ReachFirst(e, v, w);
      if v == w {
        ReachFirst(e, n, v);
      } else {
        assert Reach(e, n, w);
      }
    }
    if CycleFrom(e, n) {
      var w :| Reach(e, n, w) && ReachPlus(e, w, w);
      ReachStep(e, v, n, w);
    }
  }

  lemma EdgeAddedOneOut(s: State, t: nat, d: nat)
    requires Inv(s) && s.Pc(t) == Idle && D(d) in s.vertices
    ensures OneOut(s.edges + {(T(t), D(d))})
    ensures forall x, y | (x, y) in s.edges :: x in s.vertices && y in s.vertices
  {
    OutDegreeAtMostOne(s);
    assert forall x: nat :: !s.Has(T(t), D(x));
    forall w: Vertex
      ensures (T(t), w) !in s.edges
    {
      assert w.D? ==> w == D(w.d);
      assert !s.Has(T(t), w);
    }
    forall x, y | (x, y) in s.edges
      ensures x in s.vertices && y in s.vertices
    {
      assert s.Has(x, y);
    }
  }
}
