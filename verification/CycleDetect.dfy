/**
 * cycle_detect of parallel_make/parmake.c. It throws its visited set away on every return,
 * so it may recurse for ever on a cyclic graph; `fuel` bounds the depth of the recursion,
 * and None stands for a call that has not returned within that depth.
 */
module CycleDetect {
  import opened Basics
  import opened Reachability
  import opened RuleGraph

  // `visited` is the set's content, empty when there is no set.
  function Detect(g: Graph, fuel: nat, visited: set<string>, v: string): Option<bool>
    requires Closed(g) && v in g
    decreases fuel, 0, 0
  {
    if fuel == 0 then None
    else if v in visited then Some(true)
    else DetectKids(g, fuel - 1, visited + {v}, v, 0)
  }

  // The loop over the neighbours, from the i-th on.
  function DetectKids(g: Graph, fuel: nat, visited: set<string>, v: string, i: nat): Option<bool>
    requires Closed(g) && v in g && i <= |g[v]|
    decreases fuel, 1, |g[v]| - i
  {
    if i == |g[v]| then Some(false)
    else match Detect(g, fuel, visited, g[v][i])
      case None => None
      case Some(true) => Some(true)
      case Some(false) => DetectKids(g, fuel, {}, v, i + 1)
  }

  class Detector {
    const g: Graph
    var visited: Option<set<string>>

    constructor (g: Graph)
      ensures this.g == g && visited == None
    {
      this.g, visited := g, None;
    }

    ghost function Content(): set<string>
      reads this
    {
      if visited == None then {} else visited.value
    }

    method CycleDetect(fuel: nat, cur: string) returns (r: Option<bool>)
      requires Closed(g) && cur in g
      modifies this
      ensures r == Detect(g, fuel, old(Content()), cur)
      ensures r.Some? ==> visited == None
      decreases fuel
    {
      if fuel == 0 {
        return None;
      }
      if visited == None {
        visited := Some({});
      }
      var flag := false;
      if cur !in visited.value {
        visited := Some(visited.value + {cur});
        var i := 0;
        while i < |g[cur]|
          invariant 0 <= i <= |g[cur]| && !flag
          invariant DetectKids(g, fuel - 1, old(Content()) + {cur}, cur, 0)
                    == DetectKids(g, fuel - 1, Content(), cur, i)
        {
          var found := CycleDetect(fuel - 1, g[cur][i]);
          if found == None {
            return None;
          }
          if found.value {
            flag := true;
            break;
          }
          i := i + 1;
        }
      } else {
        flag := true;
      }
      visited := None;
      r := Some(flag);
    }
  }

  // ---------- an answer is exact ----------

  lemma {:induction false} AnswerIsExact(g: Graph, fuel: nat, visited: set<string>, v: string)
    requires Closed(g) && v in g
    requires forall u | u in visited :: ReachPlus(Edges(g), u, v)
    requires Detect(g, fuel, visited, v).Some?
    ensures Detect(g, fuel, visited, v).value <==> CycleFrom(Edges(g), v)
    decreases fuel, 0, 0
  {
    var e := Edges(g);
    if v in visited {
      ReachSelf(e, v);
    } else {
      KidsExact(g, fuel - 1, visited + {v}, v, 0);
      CycleBelow(g, v);
    }
  }

  // The visited vertices are on the way to v, or v itself, as long as the first neighbour
  // is being looked at; afterwards there are none.
  lemma {:induction false} KidsExact(g: Graph, fuel: nat, visited: set<string>, v: string, i: nat)
    requires Closed(g) && v in g && i <= |g[v]|
    requires forall u | u in visited :: u == v || ReachPlus(Edges(g), u, v)
    requires DetectKids(g, fuel, visited, v, i).Some?
    ensures DetectKids(g, fuel, visited, v, i).value <==> exists j :: i <= j < |g[v]| && CycleFrom(Edges(g), g[v][j])
    decreases fuel, 1, |g[v]| - i
  {
    var e := Edges(g);
    if i < |g[v]| {
      DependencyEdge(g, v, i);
      forall u | u in visited
        ensures ReachPlus(e, u, g[v][i])
      {
        ReachSelf(e, g[v][i]);
        ReachStep(e, v, g[v][i], g[v][i]);
        if u != v {
          PlusThen(e, u, v, g[v][i]);
        }
      }
      AnswerIsExact(g, fuel, visited, g[v][i]);
      if !Detect(g, fuel, visited, g[v][i]).value {
        KidsExact(g, fuel, {}, v, i + 1);
      }
    }
  }

  // ---------- when it returns ----------

  // Below a vertex that reaches no cycle the recursion is no deeper than the graph is
  // large. `above` are the vertices on the way down.
  lemma {:induction false} AcyclicReturns(g: Graph, fuel: nat, visited: set<string>, v: string, above: set<string>)
    requires Closed(g) && v in g
    requires !CycleFrom(Edges(g), v)
    requires above <= g.Keys && forall u | u in above :: ReachPlus(Edges(g), u, v)
    requires fuel > |g.Keys - above|
    ensures Detect(g, fuel, visited, v).Some?
    decreases fuel, 0, 0
  {
    var e := Edges(g);
    ReachSelf(e, v);
    assert v !in above;
    assert g.Keys - (above + {v}) == g.Keys - above - {v};
    if v !in visited {
      AcyclicKidsReturn(g, fuel - 1, visited + {v}, v, 0, above + {v});
    }
  }

  lemma {:induction false} AcyclicKidsReturn(g: Graph, fuel: nat, visited: set<string>, v: string, i: nat,
                                             above: set<string>)
    requires Closed(g) && v in g && i <= |g[v]|
    requires !CycleFrom(Edges(g), v)
    requires above <= g.Keys && forall u | u in above :: u == v || ReachPlus(Edges(g), u, v)
    requires fuel > |g.Keys - above| || i == |g[v]|
    ensures DetectKids(g, fuel, visited, v, i).Some?
    decreases fuel, 1, |g[v]| - i
  {
    var e := Edges(g);
    if i < |g[v]| {
      DependencyEdge(g, v, i);
      CycleBelow(g, v);
      forall u | u in above
        ensures ReachPlus(e, u, g[v][i])
      {
        ReachSelf(e, g[v][i]);
        ReachStep(e, v, g[v][i], g[v][i]);
        if u != v {
          PlusThen(e, u, v, g[v][i]);
        }
      }
      AcyclicReturns(g, fuel, visited, g[v][i], above);
      AcyclicKidsReturn(g, fuel, {}, v, i + 1, above);
    }
  }

  // The first neighbour of every vertex: the only way down that keeps the visited set.
  ghost function FirstEdges(g: Graph): set<(string, string)> {
    set v | v in g && |g[v]| > 0 :: (v, g[v][0])
  }

  // i is the first neighbour of v below which there is a cycle.
  ghost predicate FirstCyclic(g: Graph, v: string, i: nat)
    requires v in g
  {
    && i < |g[v]|
    && CycleFrom(Edges(g), g[v][i])
    && forall j | 0 <= j < i :: !CycleFrom(Edges(g), g[v][j])
  }

  // The way the search descends: into the first neighbour that has a cycle below it.
  ghost function Descents(g: Graph): set<(string, string)> {
    set v, i | v in g && 0 <= i < |g[v]| && FirstCyclic(g, v, i) :: (v, g[v][i])
  }

  // The search from v runs into a cycle made of first neighbours only.
  ghost predicate MeetsFirstCycle(g: Graph, v: string) {
    exists w :: Reach(Descents(g), v, w) && ReachPlus(FirstEdges(g), w, w)
  }

  lemma FirstEdgesAreEdges(g: Graph)
    ensures FirstEdges(g) <= Edges(g)
  {
  }

  lemma {:induction false} FoundByFirstCycle(g: Graph, fuel: nat, visited: set<string>, v: string)
    requires Closed(g) && v in g
    requires forall u | u in visited :: ReachPlus(FirstEdges(g), u, v)
    requires Detect(g, fuel, visited, v) == Some(true)
    ensures MeetsFirstCycle(g, v)
    decreases fuel, 0, 0
  {
    if v in visited {
      ReachSelf(Descents(g), v);
    } else {
      KidFoundByFirstCycle(g, fuel - 1, visited + {v}, v, 0);
    }
  }

  lemma {:induction false} KidFoundByFirstCycle(g: Graph, fuel: nat, visited: set<string>, v: string, i: nat)
    requires Closed(g) && v in g && i <= |g[v]|
    requires if i == 0 then forall u | u in visited :: u == v || ReachPlus(FirstEdges(g), u, v) else visited == {}
    requires forall j | 0 <= j < i :: !CycleFrom(Edges(g), g[v][j])
    requires DetectKids(g, fuel, visited, v, i) == Some(true)
    ensures MeetsFirstCycle(g, v)
    decreases fuel, 1, |g[v]| - i
  {
    var e, f := Edges(g), FirstEdges(g);
    var n := g[v][i];
    FirstEdgesAreEdges(g);
    forall u | u in visited
      ensures ReachPlus(f, u, n) && ReachPlus(e, u, n)
    {
      ReachSelf(f, n);
      ReachStep(f, v, n, n);
      if u != v {
        PlusThen(f, u, v, n);
      }
      PlusMore(f, e, u, n);
    }
    AnswerIsExact(g, fuel, visited, n);
    if Detect(g, fuel, visited, n).value {
      FoundByFirstCycle(g, fuel, visited, n);
      assert FirstCyclic(g, v, i);
      assert (v, n) in Descents(g);
      var w :| Reach(Descents(g), n, w) && ReachPlus(f, w, w);
      ReachStep(Descents(g), v, n, w);
    } else {
      KidFoundByFirstCycle(g, fuel, {}, v, i + 1);
    }
  }

  // On a cycle of first neighbours the visited set grows until it catches the search.
  lemma {:induction false} FirstCycleReturns(g: Graph, fuel: nat, visited: set<string>, v: string)
    requires Closed(g) && v in g
    requires ReachPlus(FirstEdges(g), v, v)
    requires fuel > |g.Keys - visited|
    ensures Detect(g, fuel, visited, v) == Some(true)
    decreases fuel
  {
    var f := FirstEdges(g);
    if v !in visited {
      var n :| (v, n) in f && Reach(f, n, v);
      assert n == g[v][0] && n in g;
      ReachSelf(f, n);
      ReachStep(f, v, n, n);
      ThenPlus(f, n, v, n);
      assert g.Keys - (visited + {v}) == g.Keys - visited - {v};
      FirstCycleReturns(g, fuel - 1, visited + {v}, n);
    }
  }

  lemma {:induction false} DescentReturns(g: Graph, fuel: nat, visited: set<string>, v: string, w: string, n: nat)
    requires Closed(g) && v in g
    requires Away(Descents(g), v, w, n) && ReachPlus(FirstEdges(g), w, w)
    requires fuel > |g.Keys| + n
    ensures Detect(g, fuel, visited, v) == Some(true)
    decreases n, 1
  {
    hide ReachPlus, CycleFrom, FirstEdges, Edges;
    if v in visited {
    } else if n == 0 {
      SmallerRest(g, visited);
      FirstCycleReturns(g, fuel, visited, v);
    } else {
      var d :| (v, d) in Descents(g) && Away(Descents(g), d, w, n - 1);
      var i :| 0 <= i < |g[v]| && FirstCyclic(g, v, i) && g[v][i] == d;
      DescentKids(g, fuel - 1, visited + {v}, v, 0, i, w, n);
    }
  }

  lemma SmallerRest(g: Graph, visited: set<string>)
    ensures |g.Keys - visited| <= |g.Keys|
  {
    SubsetSize(g.Keys - visited, g.Keys);
  }

  // Neighbours before the i-th have no cycle below them: each returns, and if one of them
  // says otherwise because of a leftover visited set, the answer is the same.
  lemma {:induction false} DescentKids(g: Graph, fuel: nat, visited: set<string>, v: string, j: nat, i: nat, w: string,
                                       n: nat)
    requires Closed(g) && v in g && j <= i && FirstCyclic(g, v, i)
    requires n > 0 && Away(Descents(g), g[v][i], w, n - 1) && ReachPlus(FirstEdges(g), w, w)
    requires fuel > |g.Keys| + n - 1
    ensures DetectKids(g, fuel, visited, v, j) == Some(true)
    decreases n, 0, i - j
  {
    hide Away, ReachPlus, CycleFrom, FirstEdges, Descents, Edges;
    if j == i {
      DescentReturns(g, fuel, visited, g[v][i], w, n - 1);
    } else {
      assert g.Keys - {} == g.Keys;
      AcyclicReturns(g, fuel, visited, g[v][j], {});
      DescentKids(g, fuel, {}, v, j + 1, i, w, n);
    }
  }

  // cycle_detect does not return on every cyclic graph. It does exactly when no cycle can
  // be reached, or the search runs into a cycle of first neighbours.
  lemma ReturnsIff(g: Graph, v: string)
    requires Closed(g) && v in g
    ensures (exists fuel: nat :: Detect(g, fuel, {}, v).Some?) <==>
              !CycleFrom(Edges(g), v) || MeetsFirstCycle(g, v)
  {
    if fuel: nat :| Detect(g, fuel, {}, v).Some? {
      AnswerIsExact(g, fuel, {}, v);
      if CycleFrom(Edges(g), v) {
        FoundByFirstCycle(g, fuel, {}, v);
      }
    }
    if !CycleFrom(Edges(g), v) {
      assert g.Keys - {} == g.Keys;
      AcyclicReturns(g, |g.Keys| + 1, {}, v, {});
    } else if MeetsFirstCycle(g, v) {
      var w :| Reach(Descents(g), v, w) && ReachPlus(FirstEdges(g), w, w);
      var n: nat :| Away(Descents(g), v, w, n);
      DescentReturns(g, |g.Keys| + n + 1, {}, v, w, n);
    }
  }

  // A rule that depends first on a leaf and then on itself: the search never returns.
  lemma NeverReturns(fuel: nat)
    ensures var g: Graph := map["a" := ["b", "a"], "b" := []];
            Closed(g) && CycleFrom(Edges(g), "a") && Detect(g, fuel, {}, "a") == None
  {
    var g: Graph := map["a" := ["b", "a"], "b" := []];
    DependencyEdge(g, "a", 1);
    ReachSelf(Edges(g), "a");
    ReachStep(Edges(g), "a", "a", "a");
    NeverReturnsWithin(fuel);
  }

  lemma {:induction false} NeverReturnsWithin(fuel: nat)
    ensures Detect(map["a" := ["b", "a"], "b" := []], fuel, {}, "a") == None
  {
    var g: Graph := map["a" := ["b", "a"], "b" := []];
    if fuel > 0 {
      NeverReturnsWithin(fuel - 1);
      assert {} + {"a"} == {"a"} && {"a"} + {"b"} == {"a", "b"};
      assert DetectKids(g, fuel - 1, {}, "a", 1) == None;
      if fuel > 1 {
        assert Detect(g, fuel - 1, {"a"}, "b") == DetectKids(g, fuel - 2, {"a", "b"}, "b", 0);
      }
    }
  }
}
