/**
 * The worker threads of parallel_make/parmake.c as a protocol. A step is one stretch of
 * `run` between its lock operations: the scan happens under both mutexes, set_state under
 * one, and commands run outside of them. Any number of workers, any interleaving.
 *
 * What the file system and `system` say about a rule is an oracle, which may look at what
 * the rules settled so far have left in the file system.
 */
module Workers {
  import opened RuleGraph
  import opened DfsOrder

  type Content = string

  // What the rules checked so far have left in the file system.
  type Files = map<string, Content>

  // `file` is the result of check_file_dependencies (-1, 0 or 1), `exec` that of
  // execute_commands (1 or -1), and `left` what is in the rule's own file after both.
  datatype Oracle = Oracle(
    file: (string, Files) -> int,
    exec: (string, Files) -> int,
    left: (string, Files) -> Content
  ) {
    ghost predicate Valid() {
      forall r, fs :: -1 <= file(r, fs) <= 1 && (exec(r, fs) == 1 || exec(r, fs) == -1)
    }

    // Of what a build changes, rules look only at the files of the rules they depend on,
    // directly or not.
    ghost predicate Hermetic(g: Graph) {
      forall r, a, b | SameBelow(g, r, a, b) :: SameAnswers(r, a, b)
    }

    predicate SameAnswers(r: string, a: Files, b: Files) {
      file(r, a) == file(r, b) && exec(r, a) == exec(r, b) && left(r, a) == left(r, b)
    }

    // The state a rule gets when all its dependencies are good.
    function Verdict(r: string, fs: Files): int {
      if file(r, fs) == 0 then exec(r, fs) else file(r, fs)
    }
  }

  ghost predicate SameBelow(g: Graph, r: string, a: Files, b: Files) {
    forall w | w in Below(g, r) && w != r :: SameFile(a, b, w)
  }

  predicate SameFile(a: Files, b: Files, w: string) {
    (w in a <==> w in b) && (w in a ==> a[w] == b[w])
  }

  datatype Worker =
    | Top                                // before the next round of the loop
    | Drowsy                             // its scan found nothing; target_mut is still locked
    | Parked                             // waiting for a change of some state
    | Claimed(rule: string, deps: int)   // rule erased from the list, with the scan's verdict
    | Running(rule: string, check: int)  // between the file check and set_state
    | Exited

  datatype State = State(
    list: seq<string>,          // all_vertex_dfs
    states: map<string, int>,   // rule_t.state
    files: Files,
    workers: map<nat, Worker>,
    started: seq<string>        // rules whose commands were started, oldest first
  ) {
    function StateOf(r: string): int {
      if r in states then states[r] else 0
    }

    function WorkerAt(t: nat): Worker {
      if t in workers then workers[t] else Exited
    }
  }

  // The dependency at i decides: all before it are settled and good.
  ghost predicate Decides(s: State, deps: seq<string>, i: nat, v: int) {
    && i < |deps| && s.StateOf(deps[i]) == v
    && forall j | 0 <= j < i :: s.StateOf(deps[j]) != 0 && s.StateOf(deps[j]) != -1
  }

  // check_dependencies: the first dependency that is not good decides.
  function CheckDependencies(s: State, deps: seq<string>): (r: int)
    ensures r == 1 <==> forall d | d in deps :: s.StateOf(d) != 0 && s.StateOf(d) != -1
    ensures r == -1 <==> exists i: nat :: Decides(s, deps, i, -1)
    ensures r == 0 <==> exists i: nat :: Decides(s, deps, i, 0)
    ensures -1 <= r <= 1
  {
    if deps == [] then 1
    else if s.StateOf(deps[0]) == -1 then
      assert Decides(s, deps, 0, -1);
      -1
    else if s.StateOf(deps[0]) == 0 then
      assert Decides(s, deps, 0, 0);
      0
    else
      ShiftDecides(s, deps);
      CheckDependencies(s, deps[1..])
  }

  lemma ShiftDecides(s: State, deps: seq<string>)
    requires deps != [] && s.StateOf(deps[0]) != 0 && s.StateOf(deps[0]) != -1
    ensures forall i: nat, v :: v == 0 || v == -1 ==> (Decides(s, deps[1..], i, v) <==> Decides(s, deps, i + 1, v))
  {
  }

  function Ready(g: Graph, s: State, i: nat): int
    requires i < |s.list|
  {
    CheckDependencies(s, if s.list[i] in g then g[s.list[i]] else [])
  }

  function EraseAt(list: seq<string>, i: nat): (r: seq<string>)
    requires i < |list|
  {
    list[..i] + list[i + 1..]
  }

  // ---------- the steps of one worker ----------

  // Nobody keeps target_mut between a scan and its wait. (A claimed rule is checked with
  // target_mut locked, too; here others may scan meanwhile, which only adds runs.)
  ghost predicate Unlocked(s: State) {
    forall u: nat :: s.WorkerAt(u) != Drowsy
  }

  function Roused(w: Worker): Worker {
    if w == Parked then Top else w
  }

  function Broadcast(workers: map<nat, Worker>): map<nat, Worker> {
    map t | t in workers :: Roused(workers[t])
  }

  ghost predicate ScanExit(s: State, s': State, t: nat) {
    Unlocked(s) && s.WorkerAt(t) == Top && s.list == [] && s' == s.(workers := s.workers[t := Exited])
  }

  // The first rule in the list whose dependencies are settled is claimed.
  ghost predicate ScanClaim(g: Graph, s: State, s': State, t: nat, i: nat) {
    && Unlocked(s) && s.WorkerAt(t) == Top
    && i < |s.list| && Ready(g, s, i) != 0
    && (forall j | 0 <= j < i :: Ready(g, s, j) == 0)
    && s' == s.(list := EraseAt(s.list, i), workers := s.workers[t := Claimed(s.list[i], Ready(g, s, i))])
  }

  ghost predicate ScanNothing(g: Graph, s: State, s': State, t: nat) {
    && Unlocked(s) && s.WorkerAt(t) == Top && s.list != []
    && (forall j | 0 <= j < |s.list| :: Ready(g, s, j) == 0)
    && s' == s.(workers := s.workers[t := Drowsy])
  }

  // pthread_cond_wait: target_mut is released; broadcasts so far have been missed.
  ghost predicate Sleep(s: State, s': State, t: nat) {
    s.WorkerAt(t) == Drowsy && s' == s.(workers := s.workers[t := Parked])
  }

  // Woken up for no reason.
  ghost predicate Wake(s: State, s': State, t: nat) {
    s.WorkerAt(t) == Parked && s' == s.(workers := s.workers[t := Top])
  }

  // The file check of a claimed rule; its commands start when the check says 0.
  ghost predicate Begin(o: Oracle, s: State, s': State, t: nat) {
    && s.WorkerAt(t).Claimed? && s.WorkerAt(t).deps == 1
    && var r := s.WorkerAt(t).rule;
       s' == s.(workers := s.workers[t := Running(r, o.file(r, s.files))],
                started := if o.file(r, s.files) == 0 then s.started + [r] else s.started)
  }

  // set_state after a run, and set_state of a rule with a failed dependency. The broadcast
  // goes to those who wait at that moment; it is sent without target_mut. Commands see the
  // files there are when they end; for a hermetic rule those are the ones it began with.
  ghost predicate Finish(o: Oracle, s: State, s': State, t: nat) {
    && s.WorkerAt(t).Running?
    && var r, check := s.WorkerAt(t).rule, s.WorkerAt(t).check;
       s' == s.(states := s.states[r := if check == 0 then o.exec(r, s.files) else check],
                files := s.files[r := o.left(r, s.files)],
                workers := Broadcast(s.workers[t := Top]))
  }

  ghost predicate Fail(s: State, s': State, t: nat) {
    && s.WorkerAt(t).Claimed? && s.WorkerAt(t).deps != 1
    && var w := s.WorkerAt(t);
       s' == s.(states := s.states[w.rule := w.deps], workers := Broadcast(s.workers[t := Top]))
  }

  ghost predicate Step(g: Graph, o: Oracle, s: State, s': State, t: nat, i: nat) {
    || ScanExit(s, s', t) || ScanClaim(g, s, s', t, i) || ScanNothing(g, s, s', t) || Sleep(s, s', t) || Wake(s, s', t)
    || Begin(o, s, s', t) || Finish(o, s, s', t) || Fail(s, s', t)
  }

  ghost predicate Next(g: Graph, o: Oracle, s: State, s': State) {
    exists t: nat, i: nat :: Step(g, o, s, s', t, i)
  }

  function Fresh(n: nat): (m: map<nat, Worker>)
    ensures forall t: nat :: t in m <==> t < n
    ensures forall t | t in m :: m[t] == Top
  {
    if n == 0 then map[] else Fresh(n - 1)[n - 1 := Top]
  }

  function Initial(order: seq<string>, n: nat): State {
    State(order, map[], map[], Fresh(n), [])
  }

  // A run of n workers.
  ghost predicate Trace(g: Graph, o: Oracle, order: seq<string>, n: nat, tr: seq<State>) {
    && |tr| > 0 && tr[0] == Initial(order, n)
    && forall i | 0 <= i < |tr| - 1 :: Next(g, o, tr[i], tr[i + 1])
  }

  // ---------- the invariant ----------

  predicate Holds(w: Worker, r: string) {
    (w.Claimed? || w.Running?) && w.rule == r
  }

  predicate Runs(w: Worker, r: string) {
    w.Running? && w.rule == r
  }

  ghost predicate Held(s: State, r: string) {
    exists t: nat :: Holds(s.WorkerAt(t), r)
  }

  predicate Good(g: Graph, s: State, r: string) {
    r in g && forall d | d in g[r] :: s.StateOf(d) == 1
  }

  ghost predicate Bad(g: Graph, s: State, r: string) {
    r in g && exists d :: d in g[r] && s.StateOf(d) == -1
  }

  // Every listed rule is in exactly one place: still in the list, held by one worker, or
  // settled.
  ghost predicate Places(order: seq<string>, s: State) {
    && (forall i, j | 0 <= i < j < |s.list| :: s.list[i] != s.list[j])
    && (forall r | r in s.list :: r in order && s.StateOf(r) == 0 && !Held(s, r))
    && (forall t: nat, r | Holds(s.WorkerAt(t), r) :: r in order && s.StateOf(r) == 0)
    && (forall t: nat, u: nat, r | Holds(s.WorkerAt(t), r) && Holds(s.WorkerAt(u), r) :: t == u)
    && (forall r | r in order :: r in s.list || Held(s, r) || s.StateOf(r) != 0)
    && (forall r | r in s.states :: r in order && -1 <= s.states[r] <= 1)
  }

  // What a worker holds, and what is settled, agrees with the dependencies.
  ghost predicate Verdicts(g: Graph, s: State) {
    && (forall t: nat | s.WorkerAt(t).Running? :: Good(g, s, s.WorkerAt(t).rule) && -1 <= s.WorkerAt(t).check <= 1)
    && (forall t: nat | s.WorkerAt(t).Claimed? ::
          var w := s.WorkerAt(t);
          (w.deps == 1 && Good(g, s, w.rule)) || (w.deps == -1 && Bad(g, s, w.rule)))
    && (forall r | s.StateOf(r) == 1 :: Good(g, s, r))
    && (forall r | s.StateOf(r) == -1 :: Bad(g, s, r) || Good(g, s, r))
  }

  // Commands were started once per rule, only with all dependencies good, and only by the
  // worker that claimed the rule.
  ghost predicate Starts(g: Graph, s: State) {
    && (forall i, j | 0 <= i < j < |s.started| :: s.started[i] != s.started[j])
    && (forall r | r in s.started ::
          Good(g, s, r) && (s.StateOf(r) != 0 || exists t: nat :: Runs(s.WorkerAt(t), r)))
  }

  ghost predicate Inv(g: Graph, order: seq<string>, s: State) {
    Places(order, s) && Verdicts(g, s) && Starts(g, s)
  }

  // ---------- every step keeps it ----------

  // A worker that holds nothing, before and after, changes nothing.
  lemma IdleStepKeeps(g: Graph, order: seq<string>, s: State, s': State, t: nat, w: Worker)
    requires Inv(g, order, s)
    requires !s.WorkerAt(t).Claimed? && !s.WorkerAt(t).Running? && !w.Claimed? && !w.Running?
    requires s' == s.(workers := s.workers[t := w])
    ensures Inv(g, order, s')
  {
    hide Places, Verdicts, Starts;
    SamePlaces(order, s, s', t);
    SameVerdicts(g, s, s', t);
    SameStarts(g, s, s', t);
  }

  lemma SamePlaces(order: seq<string>, s: State, s': State, t: nat)
    requires Places(order, s)
    requires forall u: nat | u != t :: s'.WorkerAt(u) == s.WorkerAt(u)
    requires forall r :: Holds(s'.WorkerAt(t), r) <==> Holds(s.WorkerAt(t), r)
    requires s'.list == s.list && s'.states == s.states
    ensures Places(order, s')
  {
    SameHolders(s, s', t);
  }

  lemma SameVerdicts(g: Graph, s: State, s': State, t: nat)
    requires Verdicts(g, s)
    requires forall u: nat | u != t :: s'.WorkerAt(u) == s.WorkerAt(u)
    requires !s'.WorkerAt(t).Claimed? && !s'.WorkerAt(t).Running?
    requires s'.states == s.states
    ensures Verdicts(g, s')
  {
    assert forall r :: Good(g, s', r) <==> Good(g, s, r);
    assert forall r :: Bad(g, s', r) <==> Bad(g, s, r);
  }

  lemma SameStarts(g: Graph, s: State, s': State, t: nat)
    requires Starts(g, s)
    requires forall u: nat | u != t :: s'.WorkerAt(u) == s.WorkerAt(u)
    requires !s.WorkerAt(t).Running?
    requires s'.states == s.states && s'.started == s.started
    ensures Starts(g, s')
  {
    assert forall r :: Good(g, s', r) <==> Good(g, s, r);
    forall r | r in s'.started
      ensures s'.StateOf(r) != 0 || exists u: nat :: Runs(s'.WorkerAt(u), r)
    {
      if u: nat :| Runs(s.WorkerAt(u), r) {
        assert Runs(s'.WorkerAt(u), r);
      }
    }
  }

  lemma SameHolders(s: State, s': State, t: nat)
    requires forall u: nat | u != t :: s'.WorkerAt(u) == s.WorkerAt(u)
    requires forall r :: Holds(s'.WorkerAt(t), r) <==> Holds(s.WorkerAt(t), r)
    ensures forall r :: Held(s', r) <==> Held(s, r)
    ensures forall u: nat, r :: Holds(s'.WorkerAt(u), r) <==> Holds(s.WorkerAt(u), r)
  {
    forall u: nat, r
      ensures Holds(s'.WorkerAt(u), r) <==> Holds(s.WorkerAt(u), r)
    {
    }
  }

  lemma ClaimKeeps(g: Graph, order: seq<string>, s: State, s': State, t: nat, i: nat)
    requires Inv(g, order, s) && Ordered(g, order)
    requires ScanClaim(g, s, s', t, i)
    ensures Inv(g, order, s')
  {
    var r := s.list[i];
    assert r in order && r in g by { assert r in s.list; }
    assert forall u: nat | u != t :: s'.WorkerAt(u) == s.WorkerAt(u);
    hide Places, Verdicts, Starts, Ordered;
    ClaimPlaces(order, s, s', t, i, Ready(g, s, i));
    ReadyVerdict(g, order, s, i);
    ClaimVerdicts(g, s, s', t, r, Ready(g, s, i));
    SameStarts(g, s, s', t);
  }

  lemma ReadyVerdict(g: Graph, order: seq<string>, s: State, i: nat)
    requires Places(order, s) && i < |s.list| && s.list[i] in g && Ready(g, s, i) != 0
    ensures (Ready(g, s, i) == 1 && Good(g, s, s.list[i])) || (Ready(g, s, i) == -1 && Bad(g, s, s.list[i]))
  {
    assert forall d | d in g[s.list[i]] :: -1 <= s.StateOf(d) <= 1;
  }

  lemma ClaimVerdicts(g: Graph, s: State, s': State, t: nat, r: string, k: int)
    requires Verdicts(g, s)
    requires forall u: nat | u != t :: s'.WorkerAt(u) == s.WorkerAt(u)
    requires s'.WorkerAt(t) == Claimed(r, k) && s'.states == s.states
    requires (k == 1 && Good(g, s, r)) || (k == -1 && Bad(g, s, r))
    ensures Verdicts(g, s')
  {
    assert forall q :: Good(g, s', q) <==> Good(g, s, q);
    assert forall q :: Bad(g, s', q) <==> Bad(g, s, q);
  }

  lemma ClaimPlaces(order: seq<string>, s: State, s': State, t: nat, i: nat, k: int)
    requires Places(order, s)
    requires s.WorkerAt(t) == Top && i < |s.list|
    requires s' == s.(list := EraseAt(s.list, i), workers := s.workers[t := Claimed(s.list[i], k)])
    ensures Places(order, s')
  {
    var r := s.list[i];
    assert r in s.list;
    Erased(s.list, i);
    forall u: nat, q
      ensures Holds(s'.WorkerAt(u), q) <==> Holds(s.WorkerAt(u), q) || (u == t && q == r)
    {
    }
    ClaimHolds(s, s', t, r);
    hide Held, EraseAt;
  }

  lemma Erased(list: seq<string>, i: nat)
    requires i < |list| && forall j, k | 0 <= j < k < |list| :: list[j] != list[k]
    ensures var e := EraseAt(list, i);
            && (forall j, k | 0 <= j < k < |e| :: e[j] != e[k])
            && list[i] !in e && forall q :: q in e <==> q in list && q != list[i]
  {
    var e := EraseAt(list, i);
    forall q
      ensures q in e <==> q in list && q != list[i]
    {
      if q in list && q != list[i] {
        var j :| 0 <= j < |list| && list[j] == q;
        assert e[if j < i then j else j - 1] == q;
      }
    }
  }

  lemma ClaimHolds(s: State, s': State, t: nat, r: string)
    requires forall u: nat, q :: Holds(s'.WorkerAt(u), q) <==> Holds(s.WorkerAt(u), q) || (u == t && q == r)
    ensures forall q :: Held(s', q) <==> Held(s, q) || q == r
  {
    forall q
      ensures Held(s', q) <==> Held(s, q) || q == r
    {
      if u: nat :| Holds(s.WorkerAt(u), q) {
        assert Holds(s'.WorkerAt(u), q);
      }
      assert Holds(s'.WorkerAt(t), r);
    }
  }

  lemma BeginKeeps(g: Graph, o: Oracle, order: seq<string>, s: State, s': State, t: nat)
    requires Inv(g, order, s) && o.Valid()
    requires Begin(o, s, s', t)
    ensures Inv(g, order, s')
  {
    var r := s.WorkerAt(t).rule;
    assert forall u: nat | u != t :: s'.WorkerAt(u) == s.WorkerAt(u);
    assert Runs(s'.WorkerAt(t), r);
    assert Good(g, s, r) && s.StateOf(r) == 0 && forall u: nat :: !Runs(s.WorkerAt(u), r) by {
      assert Holds(s.WorkerAt(t), r);
      assert forall u: nat :: Runs(s.WorkerAt(u), r) ==> Holds(s.WorkerAt(u), r);
    }
    hide Places, Verdicts, Starts;
    SamePlaces(order, s, s', t);
    BeginVerdicts(g, s, s', t, r);
    BeginStarts(g, s, s', t, r);
  }

  lemma BeginVerdicts(g: Graph, s: State, s': State, t: nat, r: string)
    requires Verdicts(g, s) && Good(g, s, r)
    requires forall u: nat | u != t :: s'.WorkerAt(u) == s.WorkerAt(u)
    requires Runs(s'.WorkerAt(t), r) && -1 <= s'.WorkerAt(t).check <= 1 && s'.states == s.states
    ensures Verdicts(g, s')
  {
    assert forall q :: Good(g, s', q) <==> Good(g, s, q);
    assert forall q :: Bad(g, s', q) <==> Bad(g, s, q);
  }

  lemma BeginStarts(g: Graph, s: State, s': State, t: nat, r: string)
    requires Starts(g, s) && Good(g, s, r) && s.StateOf(r) == 0 && forall u: nat :: !Runs(s.WorkerAt(u), r)
    requires forall u: nat | u != t :: s'.WorkerAt(u) == s.WorkerAt(u)
    requires s.WorkerAt(t).Claimed? && Runs(s'.WorkerAt(t), r) && s'.states == s.states
    requires s'.started == s.started || s'.started == s.started + [r]
    ensures Starts(g, s')
  {
    assert forall q :: Good(g, s', q) <==> Good(g, s, q);
    assert r !in s.started;
    forall q | q in s'.started
      ensures Good(g, s', q) && (s'.StateOf(q) != 0 || exists u: nat :: Runs(s'.WorkerAt(u), q))
    {
      if q == r {
        assert Runs(s'.WorkerAt(t), q);
      } else if u: nat :| Runs(s.WorkerAt(u), q) {
        assert Runs(s'.WorkerAt(u), q);
      }
    }
  }

  // set_state: a settled state is never written again, and nothing a rule relied on changes.
  lemma SettleKeeps(g: Graph, order: seq<string>, s: State, s': State, t: nat, r: string, v: int)
    requires Inv(g, order, s)
    requires Holds(s.WorkerAt(t), r)
    requires v == 1 || v == -1
    requires v == 1 ==> Good(g, s, r)
    requires v == -1 ==> Bad(g, s, r) || Good(g, s, r)
    requires s' == s.(states := s.states[r := v], files := s'.files, workers := s.workers[t := Top])
    ensures Inv(g, order, s')
  {
    assert s.StateOf(r) == 0 && r in order;
    assert forall u: nat | u != t :: s'.WorkerAt(u) == s.WorkerAt(u);
    assert forall q :: s'.StateOf(q) == if q == r then v else s.StateOf(q);
    forall q | Good(g, s, q)
      ensures Good(g, s', q)
    {
    }
    forall q | Bad(g, s, q)
      ensures Bad(g, s', q)
    {
      var d :| d in g[q] && s.StateOf(d) == -1;
      assert s'.StateOf(d) == -1;
    }
    SettlePlaces(order, s, s', t, r, v);
    forall q | q in s'.started
      ensures s'.StateOf(q) != 0 || exists u: nat :: Runs(s'.WorkerAt(u), q)
    {
      if q != r && s.StateOf(q) == 0 {
        var u: nat :| Runs(s.WorkerAt(u), q);
        assert Runs(s'.WorkerAt(u), q);
      }
    }
  }

  lemma SettlePlaces(order: seq<string>, s: State, s': State, t: nat, r: string, v: int)
    requires Places(order, s)
    requires Holds(s.WorkerAt(t), r) && (v == 1 || v == -1)
    requires s' == s.(states := s.states[r := v], files := s'.files, workers := s.workers[t := Top])
    ensures Places(order, s')
  {
    SettleHolds(order, s, s', t, r);
    assert forall q :: s'.StateOf(q) == if q == r then v else s.StateOf(q);
    assert r in order && forall q | q in s.list :: q != r;
    hide Held, Holds;
  }

  // Only r is no longer held, by t.
  lemma SettleHolds(order: seq<string>, s: State, s': State, t: nat, r: string)
    requires Places(order, s) && Holds(s.WorkerAt(t), r)
    requires s'.workers == s.workers[t := Top]
    ensures forall u: nat, q :: Holds(s'.WorkerAt(u), q) <==> Holds(s.WorkerAt(u), q) && u != t
    ensures forall q :: Held(s', q) <==> Held(s, q) && q != r
  {
    forall u: nat, q
      ensures Holds(s'.WorkerAt(u), q) <==> Holds(s.WorkerAt(u), q) && u != t
    {
    }
    forall q
      ensures Held(s', q) <==> Held(s, q) && q != r
    {
      if u: nat :| Holds(s.WorkerAt(u), q) {
        if q != r {
          assert Holds(s'.WorkerAt(u), q);
        }
      }
    }
  }

  lemma StepKeeps(g: Graph, o: Oracle, order: seq<string>, s: State, s': State, t: nat, i: nat)
    requires Inv(g, order, s) && Ordered(g, order) && o.Valid()
    requires Step(g, o, s, s', t, i)
    ensures Inv(g, order, s')
  {
    hide Places, Starts, Ordered;
    if ScanExit(s, s', t) {
      IdleStepKeeps(g, order, s, s', t, Exited);
    } else if ScanClaim(g, s, s', t, i) {
      ClaimKeeps(g, order, s, s', t, i);
    } else if ScanNothing(g, s, s', t) {
      IdleStepKeeps(g, order, s, s', t, Drowsy);
    } else if Sleep(s, s', t) {
      IdleStepKeeps(g, order, s, s', t, Parked);
    } else if Wake(s, s', t) {
      IdleStepKeeps(g, order, s, s', t, Top);
    } else if Begin(o, s, s', t) {
      BeginKeeps(g, o, order, s, s', t);
    } else {
      var r := s.WorkerAt(t).rule;
      assert Holds(s.WorkerAt(t), r);
      var m := s.(states := s'.states, files := s'.files, workers := s.workers[t := Top]);
      SettleKeeps(g, order, s, m, t, r, s'.states[r]);
      BroadcastKeeps(g, order, m, s');
    }
  }

  // A broadcast changes nothing about rules.
  lemma BroadcastKeeps(g: Graph, order: seq<string>, s: State, s': State)
    requires Inv(g, order, s) && s' == s.(workers := Broadcast(s.workers))
    ensures Inv(g, order, s')
  {
    forall u: nat
      ensures s'.WorkerAt(u) == Roused(s.WorkerAt(u))
    {
    }
    hide Broadcast;
    RousedPlaces(order, s, s');
    RousedVerdicts(g, s, s');
    RousedStarts(g, s, s');
  }

  lemma RousedPlaces(order: seq<string>, s: State, s': State)
    requires Places(order, s) && s'.list == s.list && s'.states == s.states
    requires forall u: nat :: s'.WorkerAt(u) == Roused(s.WorkerAt(u))
    ensures Places(order, s')
  {
    forall u: nat, r
      ensures Holds(s'.WorkerAt(u), r) <==> Holds(s.WorkerAt(u), r)
    {
    }
    forall r
      ensures Held(s', r) <==> Held(s, r)
    {
    }
    hide Held, Roused;
  }

  lemma RousedVerdicts(g: Graph, s: State, s': State)
    requires Verdicts(g, s) && s'.states == s.states
    requires forall u: nat :: s'.WorkerAt(u) == Roused(s.WorkerAt(u))
    ensures Verdicts(g, s')
  {
    assert forall q :: Good(g, s', q) <==> Good(g, s, q);
    assert forall q :: Bad(g, s', q) <==> Bad(g, s, q);
  }

  lemma RousedStarts(g: Graph, s: State, s': State)
    requires Starts(g, s) && s'.states == s.states && s'.started == s.started
    requires forall u: nat :: s'.WorkerAt(u) == Roused(s.WorkerAt(u))
    ensures Starts(g, s')
  {
    assert forall q :: Good(g, s', q) <==> Good(g, s, q);
    forall q | q in s'.started
      ensures s'.StateOf(q) != 0 || exists u: nat :: Runs(s'.WorkerAt(u), q)
    {
      if u: nat :| Runs(s.WorkerAt(u), q) {
        assert Runs(s'.WorkerAt(u), q);
      }
    }
  }

  lemma {:induction false} TraceKeeps(g: Graph, o: Oracle, order: seq<string>, n: nat, tr: seq<State>, i: nat)
    requires Ordered(g, order) && o.Valid()
    requires Trace(g, o, order, n, tr) && i < |tr|
    ensures Inv(g, order, tr[i])
  {
    if i > 0 {
      TraceKeeps(g, o, order, n, tr, i - 1);
      var t: nat, k: nat :| Step(g, o, tr[i - 1], tr[i], t, k);
      StepKeeps(g, o, order, tr[i - 1], tr[i], t, k);
    }
  }

  // ---------- what a run guarantees ----------

  // A scan comes back empty-handed only while somebody still holds a rule: otherwise the
  // earliest rule left in the order has all its dependencies settled.
  lemma ScanFindsReady(g: Graph, order: seq<string>, s: State)
    requires Inv(g, order, s) && Ordered(g, order)
    requires s.list != [] && forall r :: !Held(s, r)
    ensures exists i :: 0 <= i < |s.list| && Ready(g, s, i) != 0
  {
    assert s.list[0] in s.list;
    var k0 :| 0 <= k0 < |order| && order[k0] == s.list[0];
    var k := Earliest(order, s.list, k0);
    var i :| 0 <= i < |s.list| && s.list[i] == order[k];
    forall d | d in g[order[k]]
      ensures s.StateOf(d) != 0
    {
      assert d in order[..k];
      var j :| 0 <= j < k && order[j] == d;
      assert d in order && d !in s.list && !Held(s, d);
    }
    assert Ready(g, s, i) != 0;
  }

  lemma {:induction false} Earliest(order: seq<string>, list: seq<string>, k0: nat) returns (k: nat)
    requires k0 < |order| && order[k0] in list
    ensures k < |order| && order[k] in list && forall j | 0 <= j < k :: order[j] !in list
    decreases k0
  {
    if j :| 0 <= j < k0 && order[j] in list {
      k := Earliest(order, list, j);
    } else {
      k := k0;
    }
  }

  // ---------- what a build amounts to ----------

  // A rule with good dependencies is settled as the answers about it say.
  ghost predicate AsTold(o: Oracle, s: State, r: string) {
    && s.StateOf(r) == o.Verdict(r, s.files)
    && r in s.files && s.files[r] == o.left(r, s.files)
    && (r in s.started <==> o.file(r, s.files) == 0)
  }

  ghost predicate FailedWith(g: Graph, s: State, r: string) {
    Bad(g, s, r) && s.StateOf(r) == -1 && r !in s.files && r !in s.started
  }

  // Every settled rule is settled as told, or has failed with a dependency.
  ghost predicate Explained(g: Graph, o: Oracle, s: State) {
    && (forall r | s.StateOf(r) != 0 ::
          if Good(g, s, r) then AsTold(o, s, r) else FailedWith(g, s, r))
    && (forall r | s.StateOf(r) == 0 :: r !in s.files)
  }

  // All rules below a rule with good dependencies are good; `k` is a position after the rule.
  lemma {:induction false} BelowGood(g: Graph, order: seq<string>, s: State, k: nat, r: string, w: string)
    requires Ordered(g, order) && k <= |order| && r in order[..k]
    requires forall q | s.StateOf(q) == 1 :: Good(g, s, q)
    requires Good(g, s, r) && w in Below(g, r) && w != r
    ensures s.StateOf(w) == 1 && Good(g, s, w) && w in order[..k - 1]
    decreases k
  {
    var n :| 0 <= n < k && order[n] == r;
    BelowKids(g, r, w);
    var i :| 0 <= i < |g[r]| && w in Below(g, g[r][i]);
    assert g[r][i] in order[..n];
    if w != g[r][i] {
      BelowGood(g, order, s, n, g[r][i], w);
    }
  }

  // What is left by a rule not settled so far matters to no rule with good dependencies.
  lemma StillTold(g: Graph, o: Oracle, order: seq<string>, s: State, files: Files, r: string, q: string)
    requires Ordered(g, order) && o.Hermetic(g)
    requires forall x | s.StateOf(x) == 1 :: Good(g, s, x)
    requires q in order && Good(g, s, q) && s.StateOf(r) == 0
    requires forall w | w != r :: SameFile(s.files, files, w)
    ensures o.SameAnswers(q, s.files, files)
  {
    forall w | w in Below(g, q) && w != q
      ensures SameFile(s.files, files, w)
    {
      BelowGood(g, order, s, |order|, q, w);
    }
    assert SameBelow(g, q, s.files, files);
  }
  // What running workers were told agrees with the files there are now.
  ghost predicate RunningTold(o: Oracle, s: State) {
    forall t: nat | s.WorkerAt(t).Running? ::
      var w := s.WorkerAt(t);
      w.check == o.file(w.rule, s.files) && (w.rule in s.started <==> w.check == 0)
  }

  ghost predicate Told(g: Graph, o: Oracle, s: State) {
    Explained(g, o, s) && RunningTold(o, s)
  }

  lemma IdleTold(g: Graph, o: Oracle, s: State, s': State)
    requires Told(g, o, s)
    requires s'.states == s.states && s'.files == s.files && s'.started == s.started
    requires forall u: nat | s'.WorkerAt(u).Running? :: s'.WorkerAt(u) == s.WorkerAt(u)
    ensures Told(g, o, s')
  {
    assert forall q :: Good(g, s', q) <==> Good(g, s, q);
    assert forall q :: Bad(g, s', q) <==> Bad(g, s, q);
  }

  lemma BeginTold(g: Graph, o: Oracle, order: seq<string>, s: State, s': State, t: nat)
    requires Inv(g, order, s) && Told(g, o, s) && Begin(o, s, s', t)
    ensures Told(g, o, s')
  {
    var r := s.WorkerAt(t).rule;
    HeldOnce(g, order, s, t, r);
    hide Inv;
    assert forall q | q != r :: q in s'.started <==> q in s.started;
    assert forall u: nat | u != t :: s'.WorkerAt(u) == s.WorkerAt(u);
    BeginExplained(g, o, s, s', r);
    forall u: nat | s'.WorkerAt(u).Running? && u != t
      ensures s.WorkerAt(u).rule != r
    {
      assert Runs(s.WorkerAt(u), s.WorkerAt(u).rule);
    }
    hide Explained;
  }

  lemma BeginExplained(g: Graph, o: Oracle, s: State, s': State, r: string)
    requires Explained(g, o, s) && s.StateOf(r) == 0
    requires s'.states == s.states && s'.files == s.files
    requires forall q | q != r :: q in s'.started <==> q in s.started
    ensures Explained(g, o, s')
  {
    assert forall q :: Good(g, s', q) <==> Good(g, s, q);
    assert forall q :: Bad(g, s', q) <==> Bad(g, s, q);
  }

  // A held rule is not settled, and no other worker runs it.
  lemma HeldOnce(g: Graph, order: seq<string>, s: State, t: nat, r: string)
    requires Inv(g, order, s) && Holds(s.WorkerAt(t), r)
    ensures s.StateOf(r) == 0 && r in order
    ensures forall u: nat | Runs(s.WorkerAt(u), r) :: u == t
    ensures s.WorkerAt(t).Claimed? ==> r !in s.started
  {
    assert forall u: nat | Runs(s.WorkerAt(u), r) :: Holds(s.WorkerAt(u), r);
  }

  // Settling one rule changes no answer about the others.
  lemma SettleTold(g: Graph, o: Oracle, order: seq<string>, s: State, s': State, t: nat, r: string, v: int)
    requires Inv(g, order, s) && Told(g, o, s) && Ordered(g, order) && o.Hermetic(g)
    requires Holds(s.WorkerAt(t), r) && (v == 1 || v == -1)
    requires s'.states == s.states[r := v] && s'.started == s.started
    requires forall w | w != r :: SameFile(s.files, s'.files, w)
    requires forall u: nat | s'.WorkerAt(u).Running? :: s'.WorkerAt(u) == s.WorkerAt(u)
    requires if Good(g, s, r) then AsTold(o, s', r) else Bad(g, s, r) && v == -1 && r !in s'.files && r !in s.started
    ensures Told(g, o, s')
  {
    HeldOnce(g, order, s, t, r);
    forall q | q in order && Good(g, s, q)
      ensures o.SameAnswers(q, s.files, s'.files)
    {
      StillTold(g, o, order, s, s'.files, r, q);
    }
    hide Ordered, Starts;
    SettleExplained(g, o, order, s, s', r, v);
    forall u: nat | s'.WorkerAt(u).Running?
      ensures s'.WorkerAt(u).rule in order && Good(g, s, s'.WorkerAt(u).rule)
    {
      assert Holds(s.WorkerAt(u), s.WorkerAt(u).rule);
    }
  }

  lemma SettleExplained(g: Graph, o: Oracle, order: seq<string>, s: State, s': State, r: string, v: int)
    requires Explained(g, o, s) && s.StateOf(r) == 0 && (v == 1 || v == -1)
    requires forall q | s.StateOf(q) != 0 :: q in order
    requires s'.states == s.states[r := v]
    requires forall q | q != r :: q in s'.started <==> q in s.started
    requires forall w | w != r :: SameFile(s.files, s'.files, w)
    requires forall q | q in order && Good(g, s, q) :: o.SameAnswers(q, s.files, s'.files)
    requires if Good(g, s, r) then AsTold(o, s', r)
             else Bad(g, s, r) && v == -1 && r !in s'.files && r !in s'.started
    ensures Explained(g, o, s')
  {
    assert forall q :: s'.StateOf(q) == if q == r then v else s.StateOf(q);
    forall q | s'.StateOf(q) != 0
      ensures Good(g, s, q) ==> Good(g, s', q)
      ensures Bad(g, s, q) ==> Bad(g, s', q)
    {
      if Bad(g, s, q) {
        var d :| d in g[q] && s.StateOf(d) == -1;
        assert s'.StateOf(d) == -1;
      }
    }
    forall q | s'.StateOf(q) == 0
      ensures q !in s'.files
    {
      assert SameFile(s.files, s'.files, q);
    }
    forall q | s'.StateOf(q) != 0 && q != r
      ensures if Good(g, s', q) then AsTold(o, s', q) else FailedWith(g, s', q)
    {
      assert SameFile(s.files, s'.files, q);
    }
  }

  lemma FinishTold(g: Graph, o: Oracle, order: seq<string>, s: State, s': State, t: nat)
    requires Inv(g, order, s) && Told(g, o, s) && Ordered(g, order) && o.Valid() && o.Hermetic(g)
    requires Finish(o, s, s', t)
    ensures Told(g, o, s')
  {
    var r := s.WorkerAt(t).rule;
    HeldOnce(g, order, s, t, r);
    StillTold(g, o, order, s, s'.files, r, r);
    RunningKept(s, s', t);
    hide Ordered, Places, Starts, Explained, Broadcast;
    SettleTold(g, o, order, s, s', t, r, s'.states[r]);
  }

  lemma FailTold(g: Graph, o: Oracle, order: seq<string>, s: State, s': State, t: nat)
    requires Inv(g, order, s) && Told(g, o, s) && Ordered(g, order) && o.Hermetic(g)
    requires Fail(s, s', t)
    ensures Told(g, o, s')
  {
    var r := s.WorkerAt(t).rule;
    HeldOnce(g, order, s, t, r);
    assert s'.states[r] == -1 && Bad(g, s, r) && r !in s.files;
    RunningKept(s, s', t);
    hide Inv, Told, Ordered, Broadcast;
    SettleTold(g, o, order, s, s', t, r, -1);
  }

  lemma RunningKept(s: State, s': State, t: nat)
    requires s'.workers == Broadcast(s.workers[t := Top])
    ensures forall u: nat | s'.WorkerAt(u).Running? :: s'.WorkerAt(u) == s.WorkerAt(u)
  {
  }

  lemma StepTold(g: Graph, o: Oracle, order: seq<string>, s: State, s': State, t: nat, i: nat)
    requires Inv(g, order, s) && Told(g, o, s) && Ordered(g, order) && o.Valid() && o.Hermetic(g)
    requires Step(g, o, s, s', t, i)
    ensures Told(g, o, s')
  {
    hide Inv, Told, Ordered;
    if Begin(o, s, s', t) {
      BeginTold(g, o, order, s, s', t);
    } else if Finish(o, s, s', t) {
      FinishTold(g, o, order, s, s', t);
    } else if Fail(s, s', t) {
      FailTold(g, o, order, s, s', t);
    } else {
      IdleTold(g, o, s, s');
    }
  }

  lemma StartsTold(g: Graph, o: Oracle, order: seq<string>, n: nat)
    ensures Told(g, o, Initial(order, n))
  {
    assert forall t: nat :: !Initial(order, n).WorkerAt(t).Running?;
  }

  lemma {:induction false} TraceTold(g: Graph, o: Oracle, order: seq<string>, n: nat, tr: seq<State>, i: nat)
    requires Ordered(g, order) && o.Valid() && o.Hermetic(g)
    requires Trace(g, o, order, n, tr) && i < |tr|
    ensures Told(g, o, tr[i])
  {
    hide Inv, Told, Ordered, Step;
    if i == 0 {
      StartsTold(g, o, order, n);
    } else {
      TraceTold(g, o, order, n, tr, i - 1);
      TraceKeeps(g, o, order, n, tr, i - 1);
      var t: nat, k: nat :| Step(g, o, tr[i - 1], tr[i], t, k);
      StepTold(g, o, order, tr[i - 1], tr[i], t, k);
    }
  }

  // ---------- one outcome ----------

  ghost predicate SameOutcome(a: State, b: State, r: string) {
    a.StateOf(r) == b.StateOf(r) && SameFile(a.files, b.files, r) && (r in a.started <==> r in b.started)
  }

  // Two explained builds agree on every rule that both have settled.
  lemma {:induction false} Agree(g: Graph, o: Oracle, order: seq<string>, k: nat, a: State, b: State, r: string)
    requires Ordered(g, order) && o.Hermetic(g) && Explained(g, o, a) && Explained(g, o, b)
    requires k <= |order| && r in order[..k] && a.StateOf(r) != 0 && b.StateOf(r) != 0
    ensures SameOutcome(a, b, r)
    decreases k
  {
    var n :| 0 <= n < k && order[n] == r;
    forall d | d in g[r] && a.StateOf(d) != 0 && b.StateOf(d) != 0
      ensures a.StateOf(d) == b.StateOf(d)
    {
      assert d in order[..n];
      Agree(g, o, order, n, a, b, d);
    }
    if Good(g, a, r) && Good(g, b, r) {
      forall w | w in Below(g, r) && w != r
        ensures SameFile(a.files, b.files, w)
      {
        BelowGood(g, order, a, n + 1, r, w);
        BelowGood(g, order, b, n + 1, r, w);
        Agree(g, o, order, n, a, b, w);
      }
      assert SameBelow(g, r, a.files, b.files);
      assert o.SameAnswers(r, a.files, b.files);
    }
  }

  // Building the rules one after the other in the given order.
  function Sequential(g: Graph, o: Oracle, order: seq<string>): State {
    if order == [] then State([], map[], map[], map[], [])
    else BuiltNext(g, o, Sequential(g, o, order[..|order| - 1]), order[|order| - 1])
  }

  function BuiltNext(g: Graph, o: Oracle, s: State, r: string): State {
    if Good(g, s, r) then
      s.(states := s.states[r := o.Verdict(r, s.files)], files := s.files[r := o.left(r, s.files)],
         started := if o.file(r, s.files) == 0 then s.started + [r] else s.started)
    else s.(states := s.states[r := -1])
  }

  lemma SequentialLast(g: Graph, o: Oracle, order: seq<string>, k: nat)
    requires 0 < k <= |order|
    ensures Sequential(g, o, order[..k]) == BuiltNext(g, o, Sequential(g, o, order[..k - 1]), order[k - 1])
    ensures forall r :: r in order[..k] <==> r in order[..k - 1] || r == order[k - 1]
  {
    assert order[..k][..k - 1] == order[..k - 1];
    assert order[..k] == order[..k - 1] + [order[k - 1]];
  }

  // Exactly these rules are settled, one way or the other.
  ghost predicate Settled(order: seq<string>, s: State) {
    && (forall r :: r in s.states <==> r in order)
    && (forall r | r in s.states :: s.states[r] == 1 || s.states[r] == -1)
    && (forall r | r in s.started :: r in order)
  }

  lemma {:induction false} SequentialSettles(g: Graph, o: Oracle, order: seq<string>, k: nat)
    requires Ordered(g, order) && o.Valid() && k <= |order|
    ensures Settled(order[..k], Sequential(g, o, order[..k]))
  {
    if k > 0 {
      var s, r := Sequential(g, o, order[..k - 1]), order[k - 1];
      SequentialSettles(g, o, order, k - 1);
      SequentialLast(g, o, order, k);
      assert r !in order[..k - 1];
      BuiltNextStates(g, o, order[..k - 1], s, r, order[..k]);
    }
  }

  // A rule whose turn it is finds all its dependencies settled.
  lemma TurnSettles(g: Graph, o: Oracle, order: seq<string>, k: nat, s: State)
    requires Ordered(g, order) && k < |order| && Settled(order[..k], s)
    ensures s.StateOf(order[k]) == 0 && order[k] in g
    ensures Good(g, s, order[k]) || Bad(g, s, order[k])
    ensures forall d | d in g[order[k]] :: s.StateOf(d) == 1 || s.StateOf(d) == -1
  {
    assert order[k] !in order[..k];
    forall d | d in g[order[k]]
      ensures s.StateOf(d) == 1 || s.StateOf(d) == -1
    {
      assert d in order[..k] && d in s.states;
    }
  }

  lemma {:induction false} SequentialExplained(g: Graph, o: Oracle, order: seq<string>, k: nat)
    requires Ordered(g, order) && o.Valid() && o.Hermetic(g) && k <= |order|
    ensures Explained(g, o, Sequential(g, o, order[..k]))
  {
    if k > 0 {
      var s, r := Sequential(g, o, order[..k - 1]), order[k - 1];
      SequentialExplained(g, o, order, k - 1);
      SequentialSettles(g, o, order, k - 1);
      SequentialLast(g, o, order, k);
      hide Sequential;
      BuiltNextExplained(g, o, order, s, k);
    }
  }

  lemma BuiltNextExplained(g: Graph, o: Oracle, order: seq<string>, s: State, k: nat)
    requires Ordered(g, order) && o.Valid() && o.Hermetic(g) && 0 < k <= |order|
    requires Settled(order[..k - 1], s) && Explained(g, o, s)
    ensures Explained(g, o, BuiltNext(g, o, s, order[k - 1]))
  {
    var r, s' := order[k - 1], BuiltNext(g, o, s, order[k - 1]);
    TurnSettles(g, o, order, k - 1, s);
    forall q | q in order && Good(g, s, q)
      ensures o.SameAnswers(q, s.files, s'.files)
    {
      StillTold(g, o, order, s, s'.files, r, q);
    }
    assert r in order && r !in order[..k - 1] && forall q | q in order[..k - 1] :: q in order;
    hide Ordered;
    BuiltNextStates(g, o, order[..k - 1], s, r, order[..k - 1] + [r]);
    hide Good, Bad;
    SettleExplained(g, o, order, s, s', r, s'.states[r]);
  }

  lemma BuiltNextStates(g: Graph, o: Oracle, done: seq<string>, s: State, r: string, done': seq<string>)
    requires Settled(done, s) && o.Valid() && r !in done
    requires forall q :: q in done' <==> q in done || q == r
    ensures var s' := BuiltNext(g, o, s, r);
            && Settled(done', s') && (forall q | q != r :: q in s'.started <==> q in s.started)
            && (Good(g, s, r) ==>
                  && s'.StateOf(r) == o.Verdict(r, s.files) && s'.files[r] == o.left(r, s.files)
                  && (r in s'.started <==> o.file(r, s.files) == 0))
            && (!Good(g, s, r) ==> s'.states[r] == -1 && r !in s'.started)
  {
    hide Good;
  }

  // In every interleaving a settled rule is as sequential building would leave it.
  lemma SettledAsSequential(g: Graph, o: Oracle, order: seq<string>, s: State, r: string)
    requires Inv(g, order, s) && Told(g, o, s) && Ordered(g, order) && o.Valid() && o.Hermetic(g)
    requires s.StateOf(r) != 0
    ensures r in order && SameOutcome(s, Sequential(g, o, order), r)
  {
    assert r in order;
    assert order[..|order|] == order;
    SequentialSettles(g, o, order, |order|);
    SequentialExplained(g, o, order, |order|);
    hide Sequential;
    Agree(g, o, order, |order|, s, Sequential(g, o, order), r);
  }

  // The build is over: nothing in the list and nobody holds a rule.
  ghost predicate Over(s: State) {
    s.list == [] && forall r :: !Held(s, r)
  }

  lemma OverSettled(g: Graph, o: Oracle, order: seq<string>, n: nat, tr: seq<State>, i: nat)
    requires Ordered(g, order) && o.Valid()
    requires Trace(g, o, order, n, tr) && i < |tr| && Over(tr[i])
    ensures Settled(order, tr[i])
  {
    TraceKeeps(g, o, order, n, tr, i);
    var s := tr[i];
    forall r | r in order
      ensures r in s.states && s.states[r] != 0
    {
      assert !Held(s, r);
    }
    forall r | r in s.started
      ensures r in order
    {
      assert Starts(g, s);
      if u: nat :| Runs(s.WorkerAt(u), r) {
        assert Holds(s.WorkerAt(u), r);
      }
    }
  }

  // Whatever the interleaving, a build that is over is the sequential one: the same states
  // and files, and the commands of the same rules were run.
  lemma BuildIsDeterministic(g: Graph, o: Oracle, order: seq<string>, n: nat, tr: seq<State>, i: nat)
    requires Ordered(g, order) && o.Valid() && o.Hermetic(g)
    requires Trace(g, o, order, n, tr) && i < |tr| && Over(tr[i])
    ensures var s, b := tr[i], Sequential(g, o, order);
            s.states == b.states && s.files == b.files && forall r :: r in s.started <==> r in b.started
  {
    OverSettled(g, o, order, n, tr, i);
    TraceKeeps(g, o, order, n, tr, i);
    TraceTold(g, o, order, n, tr, i);
    assert order[..|order|] == order;
    SequentialSettles(g, o, order, |order|);
    SequentialExplained(g, o, order, |order|);
    hide Sequential, Inv, Ordered, Trace;
    var s, b := tr[i], Sequential(g, o, order);
    forall r
      ensures SameOutcome(s, b, r)
    {
      if r in order {
        SettledAsSequential(g, o, order, s, r);
      }
    }
    hide Told, Explained;
    SameEverywhere(order, s, b);
  }

  lemma SameEverywhere(order: seq<string>, a: State, b: State)
    requires Settled(order, a) && Settled(order, b) && forall r :: SameOutcome(a, b, r)
    ensures a.states == b.states && a.files == b.files && forall r :: r in a.started <==> r in b.started
  {
    forall r
      ensures r in a.states <==> r in b.states
      ensures r in a.states ==> a.states[r] == b.states[r]
      ensures r in a.files <==> r in b.files
      ensures r in a.files ==> a.files[r] == b.files[r]
      ensures r in a.started <==> r in b.started
    {
      assert SameOutcome(a, b, r);
    }
  }

  // One worker on its own builds sequentially, so a build can always be completed.
  lemma SequentialIsARun(g: Graph, o: Oracle, order: seq<string>) returns (tr: seq<State>)
    requires Ordered(g, order) && o.Valid()
    ensures Trace(g, o, order, 1, tr)
    ensures var s, b := tr[|tr| - 1], Sequential(g, o, order);
            s == State([], b.states, b.files, map[0 := Exited], b.started)
  {
    tr := SequentialSteps(g, o, order, |order|);
    var s := tr[|tr| - 1];
    assert order[..|order|] == order;
    hide Sequential;
    assert ScanExit(s, s.(workers := map[0 := Exited]), 0);
    tr := MoreTrace(g, o, order, 1, tr, s.(workers := map[0 := Exited]), 0, 0);
  }

  // Between the rules of that build.
  function Midway(s: State, list: seq<string>): State {
    s.(list := list, workers := map[0 := Top])
  }

  lemma MoreTrace(g: Graph, o: Oracle, order: seq<string>, n: nat, tr: seq<State>, s: State, t: nat, i: nat)
    returns (tr': seq<State>)
    requires Trace(g, o, order, n, tr) && Step(g, o, tr[|tr| - 1], s, t, i)
    ensures Trace(g, o, order, n, tr') && tr' == tr + [s]
  {
    hide Step;
    tr' := tr + [s];
    assert Next(g, o, tr[|tr| - 1], s);
  }

  lemma {:induction false} SequentialSteps(g: Graph, o: Oracle, order: seq<string>, k: nat) returns (tr: seq<State>)
    requires Ordered(g, order) && o.Valid() && k <= |order|
    ensures Trace(g, o, order, 1, tr)
    ensures tr[|tr| - 1] == Midway(Sequential(g, o, order[..k]), order[k..])
  {
    if k == 0 {
      tr := [Initial(order, 1)];
      assert Fresh(1) == map[0 := Top];
    } else {
      hide Sequential, Trace, Ordered, Settled, Good, Bad, Midway, BuiltNext;
      tr := SequentialSteps(g, o, order, k - 1);
      NextTurn(g, o, order, k);
      tr := BuildStep(g, o, order, tr, Sequential(g, o, order[..k - 1]), order[k - 1], order[k..]);
    }
  }

  lemma NextTurn(g: Graph, o: Oracle, order: seq<string>, k: nat)
    requires Ordered(g, order) && o.Valid() && 0 < k <= |order|
    ensures var s, r := Sequential(g, o, order[..k - 1]), order[k - 1];
            && r in g && (Good(g, s, r) || Bad(g, s, r))
            && (forall d | d in g[r] :: s.StateOf(d) == 1 || s.StateOf(d) == -1)
            && Sequential(g, o, order[..k]) == BuiltNext(g, o, s, r) && order[k - 1..] == [r] + order[k..]
  {
    SequentialSettles(g, o, order, k - 1);
    TurnSettles(g, o, order, k - 1, Sequential(g, o, order[..k - 1]));
    hide Ordered, Sequential, Settled, Good, Bad;
    SequentialLast(g, o, order, k);
  }

  lemma ReadyFirst(g: Graph, s: State, r: string)
    requires s.list != [] && s.list[0] == r && r in g && (Good(g, s, r) || Bad(g, s, r))
    requires forall d | d in g[r] :: s.StateOf(d) == 1 || s.StateOf(d) == -1
    ensures Ready(g, s, 0) == if Good(g, s, r) then 1 else -1
  {
  }

  // The three or two steps that settle the first rule of the list.
  lemma BuildStep(g: Graph, o: Oracle, order: seq<string>, tr: seq<State>, s: State, r: string, rest: seq<string>)
    returns (tr': seq<State>)
    requires Trace(g, o, order, 1, tr) && tr[|tr| - 1] == Midway(s, [r] + rest)
    requires r in g && (Good(g, s, r) || Bad(g, s, r))
    requires forall d | d in g[r] :: s.StateOf(d) == 1 || s.StateOf(d) == -1
    ensures Trace(g, o, order, 1, tr') && tr'[|tr'| - 1] == Midway(BuiltNext(g, o, s, r), rest)
  {
    var s0, end := Midway(s, [r] + rest), Midway(BuiltNext(g, o, s, r), rest);
    var s1 := s0.(list := rest, workers := map[0 := Claimed(r, if Good(g, s, r) then 1 else -1)]);
    ReadyFirst(g, s0, r);
    assert ScanClaim(g, s0, s1, 0, 0) by { assert EraseAt(s0.list, 0) == rest; }
    assert Broadcast(map[0 := Top]) == map[0 := Top];
    hide Good, Bad, Trace, ScanClaim, Broadcast, Ready;
    tr' := MoreTrace(g, o, order, 1, tr, s1, 0, 0);
    if Good(g, s, r) {
      var s2 := s1.(workers := map[0 := Running(r, o.file(r, s.files))],
                    started := if o.file(r, s.files) == 0 then s.started + [r] else s.started);
      assert Begin(o, s1, s2, 0);
      tr' := MoreTrace(g, o, order, 1, tr', s2, 0, 0);
      assert Finish(o, s2, end, 0);
      tr' := MoreTrace(g, o, order, 1, tr', end, 0, 0);
    } else {
      assert Fail(s1, end, 0);
      tr' := MoreTrace(g, o, order, 1, tr', end, 0, 0);
    }
  }

  // Two rules that name no dependencies, although b is built only if a's file is there.
  const UNDECLARED: Graph := map["a" := [], "b" := []]

  function Undeclared(): Oracle {
    Oracle((r, fs) => 0, (r, fs) => if r == "b" && "a" !in fs then -1 else 1, (r, fs) => "")
  }

  // Both are claimed, and the second worker is done with b before a is built.
  function Overtake(i: nat): State {
    if i == 0 then Initial(["a", "b"], 2)
    else if i == 1 then State(["b"], map[], map[], map[0 := Claimed("a", 1), 1 := Top], [])
    else if i == 2 then State([], map[], map[], map[0 := Claimed("a", 1), 1 := Claimed("b", 1)], [])
    else if i == 3 then State([], map[], map[], map[0 := Claimed("a", 1), 1 := Running("b", 0)], ["b"])
    else State([], map["b" := -1], map["b" := ""], map[0 := Claimed("a", 1), 1 := Top], ["b"])
  }

  lemma BothClaimed(i: nat)
    requires i < 2
    ensures ScanClaim(UNDECLARED, Overtake(i), Overtake(i + 1), i, 0)
  {
    assert Overtake(0).workers == map[0 := Top, 1 := Top];
    assert EraseAt(["a", "b"], 0) == ["b"] && EraseAt(["b"], 0) == [];
  }

  lemma BuiltTooEarly()
    ensures Begin(Undeclared(), Overtake(2), Overtake(3), 1) && Finish(Undeclared(), Overtake(3), Overtake(4), 1)
  {
    assert Overtake(4).workers == Broadcast(Overtake(3).workers[1 := Top]);
  }

  lemma OnePerTurn()
    ensures Undeclared().Valid() && Ordered(UNDECLARED, ["a", "b"])
    ensures Sequential(UNDECLARED, Undeclared(), ["a", "b"]).StateOf("b") == 1
  {
    assert ["a", "b"][..1] == ["a"] && ["a"][..0] == [];
  }

  // Where a rule looks at a file that none of its dependencies makes, the outcome depends on
  // the interleaving.
  lemma UndeclaredRead(tr: seq<State>)
    requires tr == [Overtake(0), Overtake(1), Overtake(2), Overtake(3), Overtake(4)]
    ensures Undeclared().Valid() && Ordered(UNDECLARED, ["a", "b"])
    ensures Trace(UNDECLARED, Undeclared(), ["a", "b"], 2, tr) && tr[4].StateOf("b") == -1
    ensures Sequential(UNDECLARED, Undeclared(), ["a", "b"]).StateOf("b") == 1
  {
    OnePerTurn();
    OvertakeStarts();
    hide Trace, Next, Overtake, Initial, Sequential, Ordered, Undeclared;
    forall i: nat | i < 4
      ensures Next(UNDECLARED, Undeclared(), tr[i], tr[i + 1])
    {
      OvertakeStep(i);
    }
    StepsAreTrace(UNDECLARED, Undeclared(), ["a", "b"], 2, tr);
  }

  lemma OvertakeStarts()
    ensures Overtake(0) == Initial(["a", "b"], 2) && Overtake(4).StateOf("b") == -1
  {
  }

  lemma OvertakeStep(i: nat)
    requires i < 4
    ensures Next(UNDECLARED, Undeclared(), Overtake(i), Overtake(i + 1))
  {
    if i < 2 {
      BothClaimed(i);
    } else {
      BuiltTooEarly();
    }
    hide ScanClaim, Begin, Finish, Overtake, Undeclared;
    assert Step(UNDECLARED, Undeclared(), Overtake(i), Overtake(i + 1), if i == 0 then 0 else 1, 0);
  }

  lemma StepsAreTrace(g: Graph, o: Oracle, order: seq<string>, n: nat, tr: seq<State>)
    requires |tr| > 0 && tr[0] == Initial(order, n)
    requires forall i: nat | i < |tr| - 1 :: Next(g, o, tr[i], tr[i + 1])
    ensures Trace(g, o, order, n, tr)
  {
  }

  // Any two builds agree on the rules they have in common, with whatever numbers of
  // workers, interleavings and admissible orders.
  lemma AnyTwoBuildsAgree(g: Graph, o: Oracle, order: seq<string>, n: nat, tr: seq<State>, i: nat,
                          order': seq<string>, n': nat, tr': seq<State>, i': nat, r: string)
    requires Ordered(g, order) && Ordered(g, order') && o.Valid() && o.Hermetic(g)
    requires Trace(g, o, order, n, tr) && i < |tr| && tr[i].StateOf(r) != 0
    requires Trace(g, o, order', n', tr') && i' < |tr'| && tr'[i'].StateOf(r) != 0
    ensures SameOutcome(tr[i], tr'[i'], r)
  {
    TraceKeeps(g, o, order, n, tr, i);
    TraceTold(g, o, order, n, tr, i);
    TraceTold(g, o, order', n', tr', i');
    assert r in order;
    assert order[..|order|] == order;
    hide Inv, Trace, Ordered;
    Agree(g, o, order, |order|, tr[i], tr'[i'], r);
  }

  // ---------- what is good in the end ----------

  // With these files there, every rule of the set checks out or builds.
  ghost predicate AllGood(o: Oracle, fs: Files, rules: set<string>) {
    forall w | w in rules :: ChecksOut(o, fs, w)
  }

  // Up to date by the file check, or out of date and its commands succeed.
  predicate ChecksOut(o: Oracle, fs: Files, w: string) {
    o.file(w, fs) == 1 || (o.file(w, fs) == 0 && o.exec(w, fs) == 1)
  }

  lemma {:induction false} BelowListed(g: Graph, order: seq<string>, k: nat, r: string, w: string)
    requires Ordered(g, order) && k <= |order| && r in order[..k] && w in Below(g, r)
    ensures w in order[..k]
    decreases k
  {
    var n :| 0 <= n < k && order[n] == r;
    BelowKids(g, r, w);
    if w != r {
      var i :| 0 <= i < |g[r]| && w in Below(g, g[r][i]);
      assert g[r][i] in order[..n];
      BelowListed(g, order, n, g[r][i], w);
    }
  }

  // What is strictly below a rule is what is below its dependencies.
  lemma BelowStrictly(g: Graph, order: seq<string>, r: string)
    requires Ordered(g, order) && r in order
    ensures forall w :: w in Below(g, r) - {r} <==> exists d :: d in g[r] && w in Below(g, d)
  {
    var n :| 0 <= n < |order| && order[n] == r;
    forall w
      ensures w in Below(g, r) - {r} <==> exists d :: d in g[r] && w in Below(g, d)
    {
      BelowKids(g, r, w);
      if d :| d in g[r] && w in Below(g, d) {
        var i :| 0 <= i < |g[r]| && g[r][i] == d;
        assert d in order[..n];
        BelowListed(g, order, n, d, w);
      }
    }
  }

  // A rule ends up good exactly when everything below it checks out or builds.
  lemma {:induction false} GoodExactly(g: Graph, o: Oracle, order: seq<string>, s: State, k: nat, r: string)
    requires Ordered(g, order) && Settled(order, s) && Explained(g, o, s)
    requires k <= |order| && r in order[..k]
    ensures s.StateOf(r) == 1 <==> AllGood(o, s.files, Below(g, r))
    ensures Good(g, s, r) <==> AllGood(o, s.files, Below(g, r) - {r})
    decreases k
  {
    var n :| 0 <= n < k && order[n] == r;
    forall d | d in g[r]
      ensures s.StateOf(d) == 1 <==> AllGood(o, s.files, Below(g, d))
    {
      assert d in order[..n];
      GoodExactly(g, o, order, s, n, d);
    }
    BelowStrictly(g, order, r);
    BelowSelf(g, r);
    hide Ordered, Below;
    GoodByDependencies(g, o, s, r, Below(g, r));
  }

  lemma GoodByDependencies(g: Graph, o: Oracle, s: State, r: string, below: set<string>)
    requires Explained(g, o, s) && s.StateOf(r) != 0 && r in g && r in below
    requires forall d | d in g[r] :: s.StateOf(d) == 1 <==> AllGood(o, s.files, Below(g, d))
    requires forall w :: w in below - {r} <==> exists d :: d in g[r] && w in Below(g, d)
    ensures s.StateOf(r) == 1 <==> AllGood(o, s.files, below)
    ensures Good(g, s, r) <==> AllGood(o, s.files, below - {r})
  {
    hide Below;
    assert AllGood(o, s.files, below - {r}) <==> forall d | d in g[r] :: AllGood(o, s.files, Below(g, d));
    assert AllGood(o, s.files, below) <==> AllGood(o, s.files, below - {r}) && ChecksOut(o, s.files, r);
  }

  // ---------- nobody sleeps for ever, and the last one out leaves nothing undone ----------

  ghost predicate Waits(w: Worker) {
    w == Drowsy || w == Parked
  }

  ghost predicate Holding(w: Worker) {
    w.Claimed? || w.Running?
  }

  // Somebody is up while anybody waits; with the list empty it is somebody with a rule,
  // whose set_state will wake the sleepers.
  ghost predicate Lively(s: State, n: nat) {
    && (forall t: nat :: t in s.workers <==> t < n)
    && ((exists t: nat :: s.WorkerAt(t) == Drowsy) ==> s.list != [])
    && ((exists t: nat :: Waits(s.WorkerAt(t))) ==> exists u: nat :: s.WorkerAt(u) == Top || Holding(s.WorkerAt(u)))
    && ((exists t: nat :: Waits(s.WorkerAt(t))) && s.list == [] ==> exists u: nat :: Holding(s.WorkerAt(u)))
    && ((exists t: nat :: t < n && s.WorkerAt(t) == Exited) ==> s.list == [])
  }

  // Only worker t moves.
  ghost predicate Moves(s: State, s': State, t: nat) {
    t in s.workers && s'.workers.Keys == s.workers.Keys && forall u: nat | u != t :: s'.WorkerAt(u) == s.WorkerAt(u)
  }

  lemma ExitLively(s: State, s': State, n: nat, t: nat)
    requires Lively(s, n) && ScanExit(s, s', t)
    ensures Lively(s', n)
  {
    assert Moves(s, s', t);
    if u: nat :| Waits(s'.WorkerAt(u)) {
      assert Waits(s.WorkerAt(u));
      var v: nat :| Holding(s.WorkerAt(v));
      assert Holding(s'.WorkerAt(v));
    }
  }

  lemma ClaimLively(g: Graph, s: State, s': State, n: nat, t: nat, i: nat)
    requires Lively(s, n) && ScanClaim(g, s, s', t, i)
    ensures Lively(s', n)
  {
    assert Moves(s, s', t);
    assert Holding(s'.WorkerAt(t));
    forall u: nat
      ensures s'.WorkerAt(u) != Drowsy
      ensures !(u < n && s'.WorkerAt(u) == Exited)
    {
      assert u != t ==> s'.WorkerAt(u) == s.WorkerAt(u);
    }
  }

  // The scan found nothing, so somebody holds a rule.
  lemma NothingLively(g: Graph, order: seq<string>, s: State, s': State, n: nat, t: nat)
    requires Lively(s, n) && Inv(g, order, s) && Ordered(g, order) && ScanNothing(g, s, s', t)
    ensures Lively(s', n)
  {
    assert Moves(s, s', t);
    if forall r :: !Held(s, r) {
      ScanFindsReady(g, order, s);
    }
    var r :| Held(s, r);
    var u: nat :| Holds(s.WorkerAt(u), r);
    assert u != t && Holding(s'.WorkerAt(u));
    forall v: nat
      ensures !(v < n && s'.WorkerAt(v) == Exited)
    {
      assert v != t ==> s'.WorkerAt(v) == s.WorkerAt(v);
    }
  }

  lemma SleepLively(s: State, s': State, n: nat, t: nat)
    requires Lively(s, n) && Sleep(s, s', t)
    ensures Lively(s', n)
  {
    assert Moves(s, s', t);
    assert Waits(s.WorkerAt(t));
    var u: nat :| s.WorkerAt(u) == Top || Holding(s.WorkerAt(u));
    assert s'.WorkerAt(u) == s.WorkerAt(u);
    StillLively(s, s', n, t);
  }

  lemma WakeLively(s: State, s': State, n: nat, t: nat)
    requires Lively(s, n) && Wake(s, s', t)
    ensures Lively(s', n)
  {
    assert Moves(s, s', t);
    assert Waits(s.WorkerAt(t)) && s'.WorkerAt(t) == Top;
    if s.list == [] {
      var v: nat :| Holding(s.WorkerAt(v));
      assert Holding(s'.WorkerAt(v));
    }
    StillLively(s, s', n, t);
  }

  lemma BeginLively(o: Oracle, s: State, s': State, n: nat, t: nat)
    requires Lively(s, n) && Begin(o, s, s', t)
    ensures Lively(s', n)
  {
    assert Moves(s, s', t);
    assert Holding(s'.WorkerAt(t));
    StillLively(s, s', n, t);
  }

  // A move of t to a state that is neither Drowsy nor Exited adds nobody there.
  lemma StillLively(s: State, s': State, n: nat, t: nat)
    requires Lively(s, n) && Moves(s, s', t) && s'.list == s.list
    requires s'.WorkerAt(t) != Drowsy && s'.WorkerAt(t) != Exited
    ensures forall u: nat :: t in s'.workers && (u in s'.workers <==> u < n)
    ensures (exists u: nat :: s'.WorkerAt(u) == Drowsy) ==> s'.list != []
    ensures (exists u: nat :: u < n && s'.WorkerAt(u) == Exited) ==> s'.list == []
  {
    if u: nat :| s'.WorkerAt(u) == Drowsy {
      assert s.WorkerAt(u) == Drowsy;
    }
    if u: nat :| u < n && s'.WorkerAt(u) == Exited {
      assert s.WorkerAt(u) == Exited;
    }
  }

  // set_state leaves nobody parked and its own worker up.
  lemma SettleLively(s: State, s': State, n: nat, t: nat)
    requires Lively(s, n) && Holding(s.WorkerAt(t))
    requires s'.list == s.list && s'.workers == Broadcast(s.workers[t := Top])
    ensures Lively(s', n)
  {
    assert t in s.workers;
    forall u: nat
      ensures s'.WorkerAt(u) == if u == t then Top else Roused(s.WorkerAt(u))
    {
    }
    hide Broadcast;
    assert s'.WorkerAt(t) == Top;
    forall u: nat
      ensures s'.WorkerAt(u) == Drowsy ==> s.WorkerAt(u) == Drowsy
      ensures u < n && s'.WorkerAt(u) == Exited ==> s.WorkerAt(u) == Exited
      ensures Waits(s'.WorkerAt(u)) ==> s'.list != []
    {
    }
  }

  lemma StepLively(g: Graph, o: Oracle, order: seq<string>, s: State, s': State, n: nat, t: nat, i: nat)
    requires Lively(s, n) && Inv(g, order, s) && Ordered(g, order) && Step(g, o, s, s', t, i)
    ensures Lively(s', n)
  {
    hide Lively, Inv, Ordered;
    if ScanExit(s, s', t) {
      ExitLively(s, s', n, t);
    } else if ScanClaim(g, s, s', t, i) {
      ClaimLively(g, s, s', n, t, i);
    } else if ScanNothing(g, s, s', t) {
      NothingLively(g, order, s, s', n, t);
    } else if Sleep(s, s', t) {
      SleepLively(s, s', n, t);
    } else if Wake(s, s', t) {
      WakeLively(s, s', n, t);
    } else if Begin(o, s, s', t) {
      BeginLively(o, s, s', n, t);
    } else {
      SettleLively(s, s', n, t);
    }
  }

  lemma StartsLively(order: seq<string>, n: nat)
    ensures Lively(Initial(order, n), n)
  {
    assert forall t: nat :: t < n ==> Initial(order, n).WorkerAt(t) == Top;
    assert forall t: nat :: t >= n ==> Initial(order, n).WorkerAt(t) == Exited;
  }

  lemma {:induction false} TraceLively(g: Graph, o: Oracle, order: seq<string>, n: nat, tr: seq<State>, i: nat)
    requires Ordered(g, order) && o.Valid()
    requires Trace(g, o, order, n, tr) && i < |tr|
    ensures Lively(tr[i], n)
  {
    if i == 0 {
      StartsLively(order, n);
    } else {
      hide Lively, Inv, Step, Ordered;
      TraceLively(g, o, order, n, tr, i - 1);
      TraceKeeps(g, o, order, n, tr, i - 1);
      var t: nat, k: nat :| Step(g, o, tr[i - 1], tr[i], t, k);
      StepLively(g, o, order, tr[i - 1], tr[i], n, t, k);
    }
  }

  // Over every run, although set_state broadcasts without target_mut and a worker can miss
  // it between its scan and its wait: while anybody waits, somebody is up, and it is never
  // the case that all who have not left are asleep.
  lemma NobodySleepsForever(g: Graph, o: Oracle, order: seq<string>, n: nat, tr: seq<State>, i: nat, t: nat)
    requires Ordered(g, order) && o.Valid()
    requires Trace(g, o, order, n, tr) && i < |tr| && Waits(tr[i].WorkerAt(t))
    ensures exists u: nat :: u < n && (tr[i].WorkerAt(u) == Top || Holding(tr[i].WorkerAt(u)))
    ensures tr[i].list == [] ==> exists u: nat :: u < n && Holding(tr[i].WorkerAt(u))
  {
    TraceLively(g, o, order, n, tr, i);
    var s := tr[i];
    var u: nat :| s.WorkerAt(u) == Top || Holding(s.WorkerAt(u));
    assert u < n;
    if s.list == [] {
      var v: nat :| Holding(s.WorkerAt(v));
      assert v < n;
    }
  }

  lemma LeftMeansOver(g: Graph, o: Oracle, order: seq<string>, n: nat, tr: seq<State>, i: nat)
    requires Ordered(g, order) && o.Valid()
    requires Trace(g, o, order, n, tr) && i < |tr|
    requires n > 0 && forall t: nat | t < n :: tr[i].WorkerAt(t) == Exited
    ensures Over(tr[i])
  {
    TraceLively(g, o, order, n, tr, i);
    var s := tr[i];
    assert s.WorkerAt(0) == Exited && s.list == [];
    forall r
      ensures !Held(s, r)
    {
      assert forall t: nat :: s.WorkerAt(t) == Exited;
    }
  }

  // When all workers have left, the rules that are good are exactly those below which
  // everything checks out or builds, and the commands that were run are exactly those of
  // the rules that were out of date above nothing but such rules.
  lemma LeftMeansBuilt(g: Graph, o: Oracle, order: seq<string>, n: nat, tr: seq<State>, i: nat, r: string)
    requires Ordered(g, order) && o.Valid() && o.Hermetic(g)
    requires Trace(g, o, order, n, tr) && i < |tr| && r in order
    requires n > 0 && forall t: nat | t < n :: tr[i].WorkerAt(t) == Exited
    ensures var s := tr[i];
            && (s.StateOf(r) == 1 <==> forall w | w in Below(g, r) :: ChecksOut(o, s.files, w))
            && (s.StateOf(r) == -1 <==> exists w :: w in Below(g, r) && !ChecksOut(o, s.files, w))
            && (r in s.started
                <==> o.file(r, s.files) == 0 && forall w | w in Below(g, r) - {r} :: ChecksOut(o, s.files, w))
  {
    var s := tr[i];
    LeftMeansOver(g, o, order, n, tr, i);
    OverSettled(g, o, order, n, tr, i);
    TraceTold(g, o, order, n, tr, i);
    assert order[..|order|] == order;
    hide Trace, Ordered, Over;
    GoodExactly(g, o, order, s, |order|, r);
    assert s.StateOf(r) != 0;
  }

  // Over every run: commands of a rule start at most once, and only while all its
  // dependencies are good; a rule with a failed dependency is never started and never
  // ends up good.
  lemma EveryRunIsSafe(g: Graph, o: Oracle, order: seq<string>, n: nat, tr: seq<State>, i: nat)
    requires Ordered(g, order) && o.Valid()
    requires Trace(g, o, order, n, tr) && i < |tr|
    ensures var s := tr[i];
            && (forall j, k | 0 <= j < k < |s.started| :: s.started[j] != s.started[k])
            && (forall r | r in s.started :: Good(g, s, r))
            && (forall r | Bad(g, s, r) :: r !in s.started && s.StateOf(r) != 1)
            && (forall r | s.StateOf(r) == 1 :: Good(g, s, r))
  {
    TraceKeeps(g, o, order, n, tr, i);
    var s := tr[i];
    forall r | Bad(g, s, r)
      ensures !Good(g, s, r)
    {
    }
  }

  // A rule leaves the list once, when it is claimed, and a state is written once.
  lemma ClaimedOnceSettledOnce(g: Graph, o: Oracle, order: seq<string>, s: State, s': State)
    requires Inv(g, order, s) && Ordered(g, order)
    requires Next(g, o, s, s')
    ensures forall r | r in s'.list :: r in s.list
    ensures forall r | s.StateOf(r) != 0 :: s'.StateOf(r) == s.StateOf(r)
    ensures forall r | r in s.list && r !in s'.list :: Held(s', r)
    ensures forall r | r in s'.started && r !in s.started :: Good(g, s, r) && o.file(r, s.files) == 0
  {
    hide Places, Starts, Ordered, Good, Bad;
    var t: nat, i: nat :| Step(g, o, s, s', t, i);
    if ScanClaim(g, s, s', t, i) {
      ErasedOnly(s, s', t, i);
    } else if Begin(o, s, s', t) {
      assert Good(g, s, s.WorkerAt(t).rule);
    } else if Finish(o, s, s', t) || Fail(s, s', t) {
      HeldUnsettled(order, s, t);
    }
  }

  // One move of one worker.
  ghost predicate Turn(s: State, s': State, w: Worker, w': Worker) {
    match w
    case Top => w' == Exited || w' == Drowsy || (w'.Claimed? && w'.rule in s.list)
    case Drowsy => w' == Parked
    case Parked => w' == Top
    case Claimed(r, deps) => (deps == 1 && Runs(w', r)) || (w' == Top && s'.StateOf(r) != 0)
    case Running(r, _) => w' == Top && s'.StateOf(r) != 0
    case Exited => false
  }

  // A worker that has claimed a rule stays with it until that rule is settled, then starts
  // over; one that has left stays away, and a parked one wakes to a new round.
  lemma WorkersFollowThrough(g: Graph, o: Oracle, order: seq<string>, s: State, s': State, t: nat)
    requires Inv(g, order, s) && o.Valid() && Next(g, o, s, s')
    ensures s'.WorkerAt(t) == s.WorkerAt(t) || Turn(s, s', s.WorkerAt(t), s'.WorkerAt(t))
  {
    var u: nat, i: nat :| Step(g, o, s, s', u, i);
    assert Verdicts(g, s);
    hide Inv, Next, Turn, Verdicts, ScanExit, ScanClaim, ScanNothing, Sleep, Wake, Begin, Finish, Fail;
    if Finish(o, s, s', u) || Fail(s, s', u) {
      SettleTurn(g, o, s, s', u, t);
    } else if ScanClaim(g, s, s', u, i) {
      ClaimTurn(g, s, s', u, i, t);
    } else {
      PlainTurn(g, o, s, s', u, t);
    }
  }

  lemma SettleTurn(g: Graph, o: Oracle, s: State, s': State, u: nat, t: nat)
    requires Verdicts(g, s) && o.Valid() && (Finish(o, s, s', u) || Fail(s, s', u))
    ensures s'.WorkerAt(t) == s.WorkerAt(t) || Turn(s, s', s.WorkerAt(t), s'.WorkerAt(t))
  {
    hide Good, Bad, Broadcast;
    BroadcastMoves(s, s', u, t);
  }

  lemma ClaimTurn(g: Graph, s: State, s': State, u: nat, i: nat, t: nat)
    requires ScanClaim(g, s, s', u, i)
    ensures s'.WorkerAt(t) == s.WorkerAt(t) || Turn(s, s', s.WorkerAt(t), s'.WorkerAt(t))
  {
    hide Ready, Unlocked, EraseAt;
  }

  lemma PlainTurn(g: Graph, o: Oracle, s: State, s': State, u: nat, t: nat)
    requires ScanExit(s, s', u) || ScanNothing(g, s, s', u) || Sleep(s, s', u) || Wake(s, s', u) || Begin(o, s, s', u)
    ensures s'.WorkerAt(t) == s.WorkerAt(t) || Turn(s, s', s.WorkerAt(t), s'.WorkerAt(t))
  {
    hide Ready, Unlocked;
    assert u != t ==> s'.WorkerAt(t) == s.WorkerAt(t);
  }

  lemma BroadcastMoves(s: State, s': State, u: nat, t: nat)
    requires s'.workers == Broadcast(s.workers[u := Top])
    ensures s'.WorkerAt(t) == if t == u then Top else Roused(s.WorkerAt(t))
  {
  }

  // The rule that a step takes off the list has its dependencies settled, good or with a
  // failed one, and each rule before it in the list still waits for one.
  lemma ClaimsFirstReady(g: Graph, o: Oracle, order: seq<string>, s: State, s': State, i: nat, j: nat)
    requires Inv(g, order, s) && Ordered(g, order) && Next(g, o, s, s')
    requires j < i < |s.list| && s.list[i] !in s'.list
    ensures Good(g, s, s.list[i]) || Bad(g, s, s.list[i])
    ensures s.list[j] in g && exists d :: d in g[s.list[j]] && s.StateOf(d) == 0
  {
    var t: nat, k: nat :| Step(g, o, s, s', t, k);
    assert s.list[i] in s.list && s.list[j] in s.list;
    assert ScanClaim(g, s, s', t, k) by { hide Inv, Ordered, Ready; }
    assert s.list[i] in order && s.list[j] in order && Places(order, s);
    ListedRules(g, order);
    hide Inv, Places, Ordered, Step, Next;
    if i != k {
      StillListed(s.list, k, i);
    }
    assert Ready(g, s, j) == 0;
    ReadyVerdict(g, order, s, i);
    WaitsForOne(s, g[s.list[j]]);
  }

  lemma ListedRules(g: Graph, order: seq<string>)
    requires Ordered(g, order)
    ensures forall r | r in order :: r in g
  {
  }

  lemma StillListed(list: seq<string>, k: nat, i: nat)
    requires k < |list| && i < |list| && i != k
    ensures list[i] in EraseAt(list, k)
  {
    assert EraseAt(list, k)[if i < k then i else i - 1] == list[i];
  }

  lemma WaitsForOne(s: State, deps: seq<string>)
    requires CheckDependencies(s, deps) == 0
    ensures exists d :: d in deps && s.StateOf(d) == 0
  {
    var i: nat :| Decides(s, deps, i, 0);
    assert deps[i] in deps;
  }

  lemma ErasedOnly(s: State, s': State, t: nat, i: nat)
    requires i < |s.list| && s'.list == EraseAt(s.list, i)
    requires Holds(s'.WorkerAt(t), s.list[i])
    ensures forall r | r in s'.list :: r in s.list
    ensures forall r | r in s.list && r !in s'.list :: Held(s', r)
  {
    forall r | r in s.list && r != s.list[i]
      ensures r in s'.list
    {
      var j :| 0 <= j < |s.list| && s.list[j] == r;
      assert s'.list[if j < i then j else j - 1] == r;
    }
  }

  lemma HeldUnsettled(order: seq<string>, s: State, t: nat)
    requires Places(order, s)
    requires s.WorkerAt(t).Claimed? || s.WorkerAt(t).Running?
    ensures s.StateOf(s.WorkerAt(t).rule) == 0
  {
    assert Holds(s.WorkerAt(t), s.WorkerAt(t).rule);
  }

  // ---------- the code ----------

  class Make {
    const g: Graph
    const o: Oracle
    var list: seq<string>
    var states: map<string, int>
    var files: Files
    ghost var workers: map<nat, Worker>
    ghost var started: seq<string>

    ghost function Now(): State
      reads this
    {
      State(list, states, files, workers, started)
    }

    constructor (g: Graph, o: Oracle, order: seq<string>, ghost n: nat)
      ensures this.g == g && this.o == o && Now() == Initial(order, n)
    {
      this.g, this.o := g, o;
      list, states, files, workers, started := order, map[], map[], Initial(order, n).workers, [];
    }

    method GetState(r: string) returns (v: int)
      ensures v == Now().StateOf(r)
    {
      v := if r in states then states[r] else 0;
    }

    method CheckDeps(neighbors: seq<string>) returns (r: int)
      ensures r == CheckDependencies(Now(), neighbors)
    {
      var i := 0;
      while i < |neighbors|
        invariant 0 <= i <= |neighbors|
        invariant CheckDependencies(Now(), neighbors) == CheckDependencies(Now(), neighbors[i..])
      {
        var v := GetState(neighbors[i]);
        if v == -1 {
          return -1;
        } else if v == 0 {
          return 0;
        }
        i := i + 1;
      }
      return 1;
    }

    // One round of `run` up to the unlock of target_mut or the wait: leave, claim a rule or
    // find nothing. The result is the claimed rule, if any, and the scan's verdict on it.
    method Scan(t: nat) returns (claimed: bool, rule: string, deps: int)
      requires Unlocked(Now()) && Now().WorkerAt(t) == Top
      modifies this`list, this`workers
      ensures claimed ==>
                (exists i: nat :: ScanClaim(g, old(Now()), Now(), t, i)) && Now().WorkerAt(t) == Claimed(rule, deps)
      ensures !claimed ==> ScanExit(old(Now()), Now(), t) || ScanNothing(g, old(Now()), Now(), t)
    {
      claimed, rule, deps := false, "", 0;
      if |list| == 0 {
        workers := workers[t := Exited];
        return;
      }
      var initSize := |list|;
      var i := 0;
      while i < initSize
        invariant 0 <= i <= initSize && !claimed
        invariant list == old(list) && workers == old(workers)
        invariant forall j | 0 <= j < i :: Ready(g, old(Now()), j) == 0
      {
        rule := list[i];
        deps := CheckDeps(if rule in g then g[rule] else []);
        if deps != 0 {
          list := list[..i] + list[i + 1..];
          claimed := true;
          workers := workers[t := Claimed(rule, deps)];
          assert ScanClaim(g, old(Now()), Now(), t, i);
          return;
        }
        i := i + 1;
      }
      workers := workers[t := Drowsy];
    }

    // The wait at the end of a fruitless round.
    method Wait(t: nat)
      requires Now().WorkerAt(t) == Drowsy
      modifies this`workers
      ensures Sleep(old(Now()), Now(), t)
    {
      workers := workers[t := Parked];
    }

    // The file check, and the commands when it says 0 (they run before the next step).
    method BeginRule(t: nat)
      requires Now().WorkerAt(t).Claimed? && Now().WorkerAt(t).deps == 1
      modifies this`workers, this`started
      ensures Begin(o, old(Now()), Now(), t)
    {
      ghost var r := workers[t].rule;
      started := if o.file(r, files) == 0 then started + [r] else started;
      workers := workers[t := Running(r, o.file(r, files))];
    }

    method SetState(t: nat, rule: string, newState: int)
      requires Holds(Now().WorkerAt(t), rule)
      modifies this`states, this`workers
      ensures Now() == old(Now()).(states := old(states)[rule := newState],
                                   workers := Broadcast(old(workers)[t := Top]))
    {
      states := states[rule := newState];
      workers := Broadcast(workers[t := Top]);
    }

    // The rest of the round of a worker that claimed a rule, without interference.
    method FinishRule(t: nat, rule: string, deps: int)
      requires Now().WorkerAt(t) == Claimed(rule, deps)
      modifies this`states, this`files, this`workers, this`started
      ensures deps != 1 ==> Fail(old(Now()), Now(), t)
      ensures deps == 1 ==> exists s1 :: Begin(o, old(Now()), s1, t) && Finish(o, s1, Now(), t)
    {
      if deps == 1 {
        BeginRule(t);
        ghost var s1 := Now();
        var state := o.file(rule, files);
        if state == 0 {
          state := o.exec(rule, files);
        }
        files := files[rule := o.left(rule, files)];
        SetState(t, rule, state);
        assert Begin(o, old(Now()), s1, t) && Finish(o, s1, Now(), t);
      } else {
        SetState(t, rule, deps);
      }
    }
  }
}
