/**
 * The deadlock-resistant mutex of deadlock_demolition/libdrm.c as a protocol.
 *
 * All bookkeeping happens under one global lock, but a thread blocks on the drm's own
 * mutex outside of it. A step is one stretch of code between two lock operations, so any
 * interleaving of any number of threads is a sequence of steps. Every thread calls with
 * its own thread id.
 */
module Drm {
  import opened Reachability

  datatype Vertex = T(t: nat) | D(d: nat)
  type Edge = (Vertex, Vertex)

  // Where a thread is: outside the library, blocked on a drm's mutex (libdrm.c:94), or
  // holding that mutex while the graph does not show it yet (libdrm.c:95).
  datatype Pc = Idle | Blocked(d: nat) | Acquired(d: nat)

  datatype State = State(
    vertices: set<Vertex>,
    edges: set<Edge>,
    owner: map<nat, nat>,  // the thread that holds the drm's mutex
    pcs: map<nat, Pc>
  ) {
    ghost predicate Has(x: Vertex, y: Vertex) {
      (x, y) in edges
    }

    function Pc(t: nat): Pc {
      if t in pcs then pcs[t] else Idle
    }
  }

  const START := State({}, {}, map[], map[])

  // ---------- the steps ----------

  // drm_init: a drm at a new address.
  ghost predicate Init(s: State, s': State, d: nat) {
    && D(d) !in s.vertices
    && s' == s.(vertices := s.vertices + {D(d)})
  }

  // drm_wait up to the unlock of the global lock. It returns 0 (`refused`), or goes on to
  // lock the drm's mutex.
  ghost predicate WaitBegin(s: State, s': State, t: nat, d: nat, refused: bool) {
    var s1 := s.(vertices := s.vertices + {T(t)});
    && s.Pc(t) == Idle
    && D(d) in s.vertices
    && (refused <==> s.Has(D(d), T(t)) || CycleFrom(s.edges + {(T(t), D(d))}, T(t)))
    && s' == if refused then s1 else s1.(edges := s.edges + {(T(t), D(d))}, pcs := s.pcs[t := Blocked(d)])
  }

  // The lock of the drm's mutex succeeds; the global lock is not held.
  ghost predicate Acquire(s: State, s': State, t: nat, d: nat) {
    && s.Pc(t) == Blocked(d)
    && d !in s.owner
    && s' == s.(owner := s.owner[d := t], pcs := s.pcs[t := Acquired(d)])
  }

  // drm_wait from the second lock of the global lock to its end.
  ghost predicate WaitRecord(s: State, s': State, t: nat, d: nat) {
    && s.Pc(t) == Acquired(d)
    && s' == s.(edges := s.edges - {(T(t), D(d))} + {(D(d), T(t))}, pcs := s.pcs[t := Idle])
  }

  // drm_post.
  ghost predicate Post(s: State, s': State, t: nat, d: nat, done: bool) {
    && s.Pc(t) == Idle
    && (done <==> T(t) in s.vertices && D(d) in s.vertices && s.Has(D(d), T(t)))
    && s' == if done then s.(edges := s.edges - {(D(d), T(t))}, owner := s.owner - {d}) else s
  }

  ghost predicate Next(s: State, s': State) {
    exists t: nat, d: nat, r: bool {:trigger Step(s, s', t, d, r)} :: Step(s, s', t, d, r)
  }

  ghost predicate Step(s: State, s': State, t: nat, d: nat, r: bool) {
    || Init(s, s', d) || WaitBegin(s, s', t, d, r) || Acquire(s, s', t, d) || WaitRecord(s, s', t, d)
    || Post(s, s', t, d, r)
  }

  ghost predicate Trace(tr: seq<State>) {
    && |tr| > 0 && tr[0] == START
    && forall i | 0 <= i < |tr| - 1 :: Next(tr[i], tr[i + 1])
  }

  // ---------- the invariant ----------

  ghost predicate WaitEdges(s: State) {
    forall t: nat, d: nat :: s.Has(T(t), D(d)) <==> s.Pc(t) == Blocked(d) || s.Pc(t) == Acquired(d)
  }

  ghost predicate OwnerEdges(s: State) {
    forall d: nat, t: nat :: s.Has(D(d), T(t)) <==> d in s.owner && s.owner[d] == t && s.Pc(t) != Acquired(d)
  }

  ghost predicate Bipartite(s: State) {
    forall x, y | s.Has(x, y) :: x.T? != y.T? && x in s.vertices && y in s.vertices
  }

  ghost predicate Holding(s: State) {
    forall t: nat | s.Pc(t).Acquired? :: s.Pc(t).d in s.owner && s.owner[s.Pc(t).d] == t
  }

  ghost predicate Inv(s: State) {
    WaitEdges(s) && OwnerEdges(s) && Bipartite(s) && Holding(s) && Acyclic(s.edges)
  }

  // A thread waits for one drm and a drm has one owner.
  ghost predicate OneOut(edges: set<Edge>) {
    forall x, y, z | (x, y) in edges && (x, z) in edges :: y == z
  }

  lemma OutDegreeAtMostOne(s: State)
    requires Inv(s)
    ensures OneOut(s.edges)
  {
    forall x, y, z | (x, y) in s.edges && (x, z) in s.edges
      ensures y == z
    {
      assert s.Has(x, y) && s.Has(x, z);
      if x.T? {
        assert s.Has(T(x.t), D(y.d)) && s.Has(T(x.t), D(z.d));
      } else {
        assert s.Has(D(x.d), T(y.t)) && s.Has(D(x.d), T(z.t));
      }
    }
  }

  // ---------- every step keeps the invariant ----------

  // Under the invariant, has_cycle sees a cycle exactly when the drm already reaches the
  // caller.
  lemma CycleMeansReach(s: State, t: nat, d: nat)
    requires Inv(s) && s.Pc(t) == Idle
    ensures CycleFrom(s.edges + {(T(t), D(d))}, T(t)) <==> Reach(s.edges, D(d), T(t))
  {
    var e, f := s.edges, s.edges + {(T(t), D(d))};
    EdgeClosesCycle(e, T(t), D(d));
    if Reach(e, D(d), T(t)) {
      ReachMore(e, f, D(d), T(t));
      ReachSelf(f, T(t));
      ReachStep(f, T(t), D(d), T(t));
    }
  }

  lemma BipartiteKeeps(s: State, s': State, a: Vertex, b: Vertex)
    requires Bipartite(s)
    requires s.vertices <= s'.vertices && s'.edges <= s.edges + {(a, b)}
    requires a.T? != b.T? && a in s'.vertices && b in s'.vertices
    ensures Bipartite(s')
  {
    forall x, y | s'.Has(x, y)
      ensures x.T? != y.T? && x in s'.vertices && y in s'.vertices
    {
      assert s.Has(x, y) || (x, y) == (a, b);
    }
  }

  lemma BipartiteLess(s: State, s': State)
    requires Bipartite(s)
    requires s.vertices <= s'.vertices && s'.edges <= s.edges
    ensures Bipartite(s')
  {
    forall x, y | s'.Has(x, y)
      ensures x.T? != y.T? && x in s'.vertices && y in s'.vertices
    {
      assert s.Has(x, y);
    }
  }

  lemma WaitBeginKeeps(s: State, s': State, t: nat, d: nat, refused: bool)
    requires Inv(s) && WaitBegin(s, s', t, d, refused)
    ensures Inv(s')
  {
    CycleMeansReach(s, t, d);
    EdgeClosesCycle(s.edges, T(t), D(d));
    if refused {
      BipartiteLess(s, s');
    } else {
      BipartiteKeeps(s, s', T(t), D(d));
      assert forall u: nat :: s'.Pc(u) == if u == t then Blocked(d) else s.Pc(u);
    }
  }

  lemma AcquireKeeps(s: State, s': State, t: nat, d: nat)
    requires Inv(s) && Acquire(s, s', t, d)
    ensures Inv(s')
  {
    BipartiteLess(s, s');
    assert forall u: nat :: s'.Pc(u) == if u == t then Acquired(d) else s.Pc(u);
  }

  lemma WaitRecordKeeps(s: State, s': State, t: nat, d: nat)
    requires Inv(s) && WaitRecord(s, s', t, d)
    ensures Inv(s')
  {
    assert forall u: nat :: s'.Pc(u) == if u == t then Idle else s.Pc(u);
    assert s.Has(T(t), D(d));
    BipartiteKeeps(s, s', D(d), T(t));
    var e := s.edges - {(T(t), D(d))};
    AcyclicLess(e, s.edges);
    // the new owner waits for nothing, so nothing is reachable from it
    assert !Reach(e, T(t), D(d)) by {
      forall w
        ensures (T(t), w) !in e
      {
        assert s.Has(T(t), w) ==> w.D? && s.Has(T(t), D(w.d));
      }
      if Reach(e, T(t), D(d)) {
        SinkReach(e, T(t), D(d));
      }
    }
    EdgeClosesCycle(e, D(d), T(t));
  }

  lemma PostKeeps(s: State, s': State, t: nat, d: nat, done: bool)
    requires Inv(s) && Post(s, s', t, d, done)
    ensures Inv(s')
  {
    BipartiteLess(s, s');
    if done {
      AcyclicLess(s'.edges, s.edges);
      assert forall u: nat :: s'.Pc(u) == s.Pc(u);
    }
  }

  lemma InitKeeps(s: State, s': State, d: nat)
    requires Inv(s) && Init(s, s', d)
    ensures Inv(s')
  {
    BipartiteLess(s, s');
    assert forall u: nat :: s'.Pc(u) == s.Pc(u);
  }

  lemma NextKeeps(s: State, s': State)
    requires Inv(s) && Next(s, s')
    ensures Inv(s')
  {
    var t: nat, d: nat, r: bool :| Step(s, s', t, d, r);
    if Init(s, s', d) {
      InitKeeps(s, s', d);
    } else if WaitBegin(s, s', t, d, r) {
      WaitBeginKeeps(s, s', t, d, r);
    } else if Acquire(s, s', t, d) {
      AcquireKeeps(s, s', t, d);
    } else if WaitRecord(s, s', t, d) {
      WaitRecordKeeps(s, s', t, d);
    } else {
      PostKeeps(s, s', t, d, r);
    }
  }

  lemma {:induction false} TraceKeeps(tr: seq<State>, i: nat)
    requires Trace(tr) && i < |tr|
    ensures Inv(tr[i])
  {
    if i == 0 {
      assert forall v :: !ReachPlus(START.edges, v, v);
    } else {
      TraceKeeps(tr, i - 1);
      NextKeeps(tr[i - 1], tr[i]);
    }
  }

  // ---------- real waiting ----------

  // Who really waits for whom: a blocked thread for its drm, a locked mutex for the thread
  // that holds it, whatever the graph has on record.
  ghost function RealEdges(s: State): set<Edge> {
    (set t | t in s.pcs && s.pcs[t].Blocked? :: (T(t), D(s.pcs[t].d))) +
    (set d | d in s.owner :: (D(d), T(s.owner[d])))
  }

  lemma RealEdge(s: State, x: Vertex, y: Vertex)
    ensures (x, y) in RealEdges(s) <==>
              || (x.T? && y.D? && s.Pc(x.t) == Blocked(y.d))
              || (x.D? && y.T? && x.d in s.owner && s.owner[x.d] == y.t)
  {
  }

  // What the graph shows and what is real differ only around a thread that has locked a
  // mutex and not yet recorded it.
  lemma Discrepancy(s: State, x: Vertex, y: Vertex)
    requires Inv(s)
    ensures (x, y) in s.edges && (x, y) !in RealEdges(s) ==> x.T? && y.D? && s.Pc(x.t) == Acquired(y.d)
    ensures (x, y) !in s.edges && (x, y) in RealEdges(s) ==> x.D? && y.T? && s.Pc(y.t) == Acquired(x.d)
  {
    RealEdge(s, x, y);
    assert (x, y) in s.edges <==> s.Has(x, y);
    if x.T? && y.D? {
      assert s.Has(T(x.t), D(y.d)) <==> s.Pc(x.t) == Blocked(y.d) || s.Pc(x.t) == Acquired(y.d);
    } else if x.D? && y.T? {
      assert s.Has(D(x.d), T(y.t)) <==> x.d in s.owner && s.owner[x.d] == y.t && s.Pc(y.t) != Acquired(x.d);
    }
  }

  lemma RealSink(s: State, t: nat, y: Vertex)
    requires !s.Pc(t).Blocked?
    requires Reach(RealEdges(s), T(t), y)
    ensures y == T(t)
  {
    forall w
      ensures (T(t), w) !in RealEdges(s)
    {
      RealEdge(s, T(t), w);
    }
    SinkReach(RealEdges(s), T(t), y);
  }

  // No circular wait ever forms, although ownership is recorded late.
  lemma NoRealCircularWait(s: State)
    requires Inv(s)
    ensures Acyclic(RealEdges(s))
  {
    var r, e := RealEdges(s), s.edges;
    forall v
      ensures !ReachPlus(r, v, v)
    {
      if ReachPlus(r, v, v) {
        var w :| (v, w) in r && Reach(r, w, v);
        RealEdge(s, v, w);
        forall a, b | (a, b) in r && (a, b) !in e
          ensures !Reach(r, b, v)
        {
          Discrepancy(s, a, b);
          if Reach(r, b, v) {
            RealSink(s, b.t, v);
          }
        }
        assert (v, w) in e;
        ReachWithin(r, e, w, v);
        assert ReachPlus(e, v, v);
      }
    }
  }

  // For a thread outside the library, the graph leads from a drm to it exactly when real
  // waiting does.
  lemma GraphTellsTruth(s: State, t: nat, d: nat)
    requires Inv(s) && s.Pc(t) == Idle
    ensures Reach(s.edges, D(d), T(t)) <==> Reach(RealEdges(s), D(d), T(t))
  {
    var r, e := RealEdges(s), s.edges;
    if Reach(e, D(d), T(t)) {
      forall a, b | (a, b) in e && (a, b) !in r
        ensures !Reach(e, b, T(t))
      {
        Discrepancy(s, a, b);
        assert forall u: nat :: !s.Has(D(b.d), T(u));
        forall w: Vertex
          ensures (b, w) !in e
        {
          assert w.T? ==> w == T(w.t);
          assert !s.Has(b, w);
        }
        if Reach(e, b, T(t)) {
          SinkReach(e, b, T(t));
        }
      }
      ReachWithin(e, r, D(d), T(t));
    }
    if Reach(r, D(d), T(t)) {
      forall a, b | (a, b) in r && (a, b) !in e
        ensures !Reach(r, b, T(t))
      {
        Discrepancy(s, a, b);
        if Reach(r, b, T(t)) {
          RealSink(s, b.t, T(t));
        }
      }
      ReachWithin(r, e, D(d), T(t));
    }
  }

  // drm_wait returns 0 exactly when the caller holds the drm already or waiting for it
  // would close a real circular wait.
  lemma WaitRefusedExactly(s: State, s': State, t: nat, d: nat, refused: bool)
    requires Inv(s) && WaitBegin(s, s', t, d, refused)
    ensures refused <==> (d in s.owner && s.owner[d] == t) || !Acyclic(RealEdges(s) + {(T(t), D(d))})
  {
    CycleMeansReach(s, t, d);
    GraphTellsTruth(s, t, d);
    NoRealCircularWait(s);
    EdgeClosesCycle(RealEdges(s), T(t), D(d));
    assert s.Has(D(d), T(t)) <==> d in s.owner && s.owner[d] == t;
  }

  // drm_post succeeds exactly for the thread that holds the drm's mutex.
  lemma PostDoneExactly(s: State, s': State, t: nat, d: nat, done: bool)
    requires Inv(s) && Post(s, s', t, d, done)
    ensures done <==> d in s.owner && s.owner[d] == t
  {
    assert s.Has(D(d), T(t)) <==> d in s.owner && s.owner[d] == t;
  }

  // Over every run a wait that is not refused comes back only with the drm's mutex in hand and
  // on record, and from then on nobody takes it away: only the holder's own post does.
  lemma WaitsEndHolding(tr: seq<State>, i: nat, t: nat, d: nat)
    requires Trace(tr) && i + 1 < |tr|
    ensures var s, s' := tr[i], tr[i + 1];
            && (s.Pc(t) == Blocked(d) ==>
                  s'.Pc(t) == Blocked(d) || (s'.Pc(t) == Acquired(d) && d in s'.owner && s'.owner[d] == t))
            && (s.Pc(t) == Acquired(d) ==>
                  && d in s'.owner && s'.owner[d] == t
                  && (s'.Pc(t) == Acquired(d) || (s'.Pc(t) == Idle && s'.Has(D(d), T(t)))))
            && (d in s.owner && s.owner[d] == t && !(d in s'.owner && s'.owner[d] == t) ==>
                  s.Pc(t) == Idle && s.Has(D(d), T(t)) && d !in s'.owner && !s'.Has(D(d), T(t)))
            && (d !in s.owner && d in s'.owner ==> s.Pc(s'.owner[d]) == Blocked(d))
  {
    TraceKeeps(tr, i);
    var s, s' := tr[i], tr[i + 1];
    var u: nat, e: nat, r: bool :| Step(s, s', u, e, r);
    assert u != t ==> s'.Pc(t) == s.Pc(t);
    if Post(s, s', u, e, r) {
      PostDoneExactly(s, s', u, e, r);
    }
  }

  // The wait chain of a blocked thread ends at a free drm, which a thread of the chain can
  // lock at once, or at a thread that is not blocked on any drm.
  lemma ChainEnds(s: State, t: nat) returns (end: Vertex)
    requires Inv(s) && s.Pc(t).Blocked?
    ensures ReachPlus(RealEdges(s), T(t), end)
    ensures match end
            case T(u) => !s.Pc(u).Blocked?
            case D(d) => d !in s.owner
  {
    var r := RealEdges(s);
    NoRealCircularWait(s);
    var vs := (set e | e in r :: e.0) + (set e | e in r :: e.1);
    forall v, w | (v, w) in r
      ensures v in vs && w in vs
    {
      assert (v, w).0 in vs && (v, w).1 in vs;
    }
    var d := s.Pc(t).d;
    RealEdge(s, T(t), D(d));
    end := SinkBelow(r, vs, T(t), {});
    ReachFirst(r, T(t), end);
    match end {
      case T(u) =>
        if s.Pc(u).Blocked? {
          RealEdge(s, T(u), D(s.Pc(u).d));
        }
      case D(x) =>
        if x in s.owner {
          RealEdge(s, D(x), T(s.owner[x]));
        }
    }
  }

  // Over every run: the graph is acyclic with one edge out of each vertex, real waiting is
  // acyclic, and the recorded owner of a drm is the thread that holds its mutex.
  lemma EveryRunIsDeadlockFree(tr: seq<State>, i: nat)
    requires Trace(tr) && i < |tr|
    ensures Acyclic(tr[i].edges) && OneOut(tr[i].edges)
    ensures Acyclic(RealEdges(tr[i]))
    ensures forall d: nat, t: nat | tr[i].Has(D(d), T(t)) :: d in tr[i].owner && tr[i].owner[d] == t
  {
    TraceKeeps(tr, i);
    OutDegreeAtMostOne(tr[i]);
    NoRealCircularWait(tr[i]);
  }
}
