/**
 * The dependency graph of parallel_make/parmake.c: for every rule, by name, the names of
 * its dependencies in order.
 */
module RuleGraph {
  import opened Reachability

  type Graph = map<string, seq<string>>

  ghost predicate Closed(g: Graph) {
    forall v, i | v in g && 0 <= i < |g[v]| :: g[v][i] in g
  }

  ghost function Edges(g: Graph): set<(string, string)> {
    set v, i | v in g && 0 <= i < |g[v]| :: (v, g[v][i])
  }

  lemma EdgeIndex(g: Graph, v: string, w: string) returns (i: nat)
    requires (v, w) in Edges(g)
    ensures v in g && i < |g[v]| && g[v][i] == w
  {
    i :| v in g && 0 <= i < |g[v]| && g[v][i] == w;
  }

  lemma DependencyEdge(g: Graph, v: string, i: nat)
    requires v in g && i < |g[v]|
    ensures (v, g[v][i]) in Edges(g)
  {
  }

  // A cycle below a dependency is a cycle below the rule, and every cycle below a rule is
  // below one of its dependencies.
  lemma CycleBelow(g: Graph, v: string)
    requires v in g
    ensures CycleFrom(Edges(g), v) <==> exists i :: 0 <= i < |g[v]| && CycleFrom(Edges(g), g[v][i])
  {
    var e := Edges(g);
    if CycleFrom(e, v) {
      var w :| Reach(e, v, w) && ReachPlus(e, w, w);
      ReachFirst(e, v, w);
      assert ReachPlus(e, v, w);
      var n :| (v, n) in e && Reach(e, n, w);
      var i := EdgeIndex(g, v, n);
      assert CycleFrom(e, g[v][i]);
    }
    if i :| 0 <= i < |g[v]| && CycleFrom(e, g[v][i]) {
      DependencyEdge(g, v, i);
      var w :| Reach(e, g[v][i], w) && ReachPlus(e, w, w);
      ReachStep(e, v, g[v][i], w);
    }
  }
}
