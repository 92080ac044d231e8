/**
 * get_all_vertex_dfs of parallel_make/parmake.c: the rules below the targets, every rule
 * after its dependencies. Targets have no cycles below them when it is called.
 */
module DfsOrder {
  import opened Reachability
  import opened RuleGraph

  // v and everything it depends on, directly or not.
  ghost function Below(g: Graph, v: string): set<string> {
    set w | w in g && Reach(Edges(g), v, w)
  }

  // Each rule once, and after all its dependencies.
  ghost predicate Ordered(g: Graph, order: seq<string>) {
    && (forall i | 0 <= i < |order| :: order[i] in g)
    && (forall i, j | 0 <= i < j < |order| :: order[i] != order[j])
    && (forall i, d | 0 <= i < |order| && order[i] in g && d in g[order[i]] :: d in order[..i])
  }

  lemma BelowSelf(g: Graph, v: string)
    requires v in g
    ensures v in Below(g, v)
  {
    ReachSelf(Edges(g), v);
  }

  lemma BelowKids(g: Graph, v: string, w: string)
    requires v in g
    ensures w in Below(g, v) <==> w == v || exists i :: 0 <= i < |g[v]| && w in Below(g, g[v][i])
  {
    var e := Edges(g);
    BelowSelf(g, v);
    if w in Below(g, v) && w != v {
      ReachFirst(e, v, w);
      var n :| (v, n) in e && Reach(e, n, w);
      var i := EdgeIndex(g, v, n);
      assert w in Below(g, g[v][i]);
    }
    if i :| 0 <= i < |g[v]| && w in Below(g, g[v][i]) {
      DependencyEdge(g, v, i);
      ReachStep(e, v, g[v][i], w);
    }
  }

  // Below an acyclic rule there is strictly less below each dependency.
  lemma BelowShrinks(g: Graph, v: string, i: nat)
    requires Closed(g) && v in g && i < |g[v]|
    requires !CycleFrom(Edges(g), v)
    ensures Below(g, g[v][i]) < Below(g, v)
    ensures !CycleFrom(Edges(g), g[v][i])
  {
    var e := Edges(g);
    forall w | w in Below(g, g[v][i])
      ensures w in Below(g, v)
    {
      BelowKids(g, v, w);
    }
    BelowSelf(g, v);
    DependencyEdge(g, v, i);
    assert v !in Below(g, g[v][i]) by {
      ReachSelf(e, v);
      assert Reach(e, g[v][i], v) ==> ReachPlus(e, v, v);
    }
    CycleBelow(g, v);
  }

  lemma AppendKeepsOrder(g: Graph, order: seq<string>, v: string)
    requires Ordered(g, order)
    requires v in g && v !in order && forall d | d in g[v] :: d in order
    ensures Ordered(g, order + [v])
  {
    var r := order + [v];
    forall i, d | 0 <= i < |r| && r[i] in g && d in g[r[i]]
      ensures d in r[..i]
    {
      if i < |order| {
        assert r[..i] == order[..i];
      } else {
        assert r[..i] == order;
      }
    }
  }

  class Sorter {
    const g: Graph
    var visited: set<string>
    var order: seq<string>

    constructor (g: Graph)
      requires Closed(g)
      ensures this.g == g && Valid() && order == []
    {
      this.g, visited, order := g, {}, [];
    }

    ghost predicate Valid()
      reads this
    {
      && Closed(g)
      && Ordered(g, order)
      && forall w :: w in visited <==> w in order
    }

    method GetAllVertexDfs(cur: string)
      requires Valid() && cur in g && !CycleFrom(Edges(g), cur)
      modifies this
      ensures Valid()
      ensures old(order) <= order
      ensures forall w :: w in order <==> w in old(order) || w in Below(g, cur)
      decreases Below(g, cur)
    {
      var i := 0;
      while i < |g[cur]|
        invariant 0 <= i <= |g[cur]|
        invariant Valid()
        invariant old(order) <= order
        invariant forall w :: w in order <==> w in old(order) || exists j :: 0 <= j < i && w in Below(g, g[cur][j])
      {
        BelowShrinks(g, cur, i);
        GetAllVertexDfs(g[cur][i]);
        i := i + 1;
      }
      forall d | d in g[cur]
        ensures d in order
      {
        var j :| 0 <= j < |g[cur]| && g[cur][j] == d;
        BelowSelf(g, g[cur][j]);
      }
      ghost var listed := order;
      if cur !in visited {
        AppendKeepsOrder(g, order, cur);
        visited := visited + {cur};
        order := order + [cur];
      }
      forall w
        ensures w in order <==> w in old(order) || w in Below(g, cur)
      {
        BelowKids(g, cur, w);
        assert w in order <==> w in listed || w == cur;
      }
    }

    // The loop over the targets (parmake.c:256-259).
    method OrderTargets(targets: seq<string>)
      requires Valid() && order == []
      requires forall i | 0 <= i < |targets| :: targets[i] in g && !CycleFrom(Edges(g), targets[i])
      modifies this
      ensures Valid()
      ensures forall w :: w in order <==> exists i :: 0 <= i < |targets| && w in Below(g, targets[i])
    {
      for i := 0 to |targets|
        invariant Valid()
        invariant forall w :: w in order <==> exists j :: 0 <= j < i && w in Below(g, targets[j])
      {
        GetAllVertexDfs(targets[i]);
      }
    }
  }
}
