/**
 * The reusable barrier of critical_concurrency/barrier.c. A thread that does not complete
 * its use of the barrier sleeps on the condition variable once, without testing anything
 * when it wakes, so the protocol below wakes threads only by broadcast.
 */
module Barrier {

  datatype Thread =
    | Out
    | Parked(k: nat)     // asleep, in the k-th use of the barrier
    | Released(k: nat)   // may leave that use

  datatype State = State(
    n: nat,
    count: nat,
    timesUsed: nat,
    threads: map<nat, Thread>,
    entered: seq<set<nat>>   // who entered each use, the unfinished one last
  ) {
    function At(t: nat): Thread {
      if t in threads then threads[t] else Out
    }
  }

  function Initial(n: nat): State {
    State(n, 0, 0, map[], [{}])
  }

  function Wake(w: Thread): Thread {
    if w.Parked? then Released(w.k) else w
  }

  function Broadcast(threads: map<nat, Thread>): map<nat, Thread> {
    map t | t in threads :: Wake(threads[t])
  }

  function Entered(s: State, t: nat): State
    requires |s.entered| == s.timesUsed + 1
  {
    var entered := s.entered[s.timesUsed := s.entered[s.timesUsed] + {t}];
    var threads := s.threads[t := Parked(s.timesUsed)];
    if s.count + 1 < s.n then
      s.(count := s.count + 1, entered := entered, threads := threads)
    else
      s.(count := 0, timesUsed := s.timesUsed + 1, entered := entered + [{}], threads := Broadcast(threads))
  }

  // One critical section of barrier_wait, up to the sleep or to the unlock.
  ghost predicate Enter(s: State, s': State, t: nat) {
    s.At(t) == Out && |s.entered| == s.timesUsed + 1 && s' == Entered(s, t)
  }

  ghost predicate Leave(s: State, s': State, t: nat) {
    s.At(t).Released? && s' == s.(threads := s.threads[t := Out])
  }

  // A wake-up nobody asked for; it is not a step of the protocol.
  ghost predicate Spurious(s: State, s': State, t: nat) {
    s.At(t).Parked? && s' == s.(threads := s.threads[t := Wake(s.At(t))])
  }

  ghost predicate Next(s: State, s': State) {
    exists t: nat :: Enter(s, s', t) || Leave(s, s', t)
  }

  ghost predicate Trace(n: nat, tr: seq<State>) {
    && |tr| > 0 && tr[0] == Initial(n)
    && forall i | 0 <= i < |tr| - 1 :: Next(tr[i], tr[i + 1])
  }

  // How many threads complete one use.
  function Party(n: nat): nat {
    if n == 0 then 1 else n
  }

  ghost predicate Inv(s: State) {
    && |s.entered| == s.timesUsed + 1
    && s.count == |s.entered[s.timesUsed]| < Party(s.n)
    // the threads in the unfinished use are exactly the sleeping ones
    && (forall t: nat :: t in s.entered[s.timesUsed] <==> s.At(t).Parked?)
    && (forall t: nat | s.At(t).Parked? :: s.At(t).k == s.timesUsed)
    // whoever may leave a use leaves a finished one
    && (forall t: nat | s.At(t).Released? :: s.At(t).k < s.timesUsed && t in s.entered[s.At(t).k])
    && (forall k | 0 <= k < s.timesUsed :: |s.entered[k]| == Party(s.n))
  }

  lemma EnterKeeps(s: State, s': State, t: nat)
    requires Inv(s) && Enter(s, s', t)
    ensures Inv(s')
  {
    var use := s.timesUsed;
    assert t !in s.entered[use];
    assert |s.entered[use] + {t}| == s.count + 1;
    forall u: nat
      ensures u != t ==> s'.At(u) == if s'.timesUsed == use then s.At(u) else Wake(s.At(u))
    {
    }
  }

  lemma LeaveKeeps(s: State, s': State, t: nat)
    requires Inv(s) && Leave(s, s', t)
    ensures Inv(s')
  {
    assert forall u: nat :: u != t ==> s'.At(u) == s.At(u);
    assert s'.entered == s.entered && s'.At(t) == Out;
    assert forall u: nat :: s'.At(u).Parked? <==> s.At(u).Parked?;
  }

  lemma NextKeeps(s: State, s': State)
    requires Inv(s) && Next(s, s')
    ensures Inv(s') && s'.n == s.n
    ensures s.timesUsed <= s'.timesUsed
  {
    hide Inv;
    var t: nat :| Enter(s, s', t) || Leave(s, s', t);
    if Enter(s, s', t) {
      EnterKeeps(s, s', t);
    } else {
      LeaveKeeps(s, s', t);
    }
  }

  lemma {:induction false} TraceKeeps(n: nat, tr: seq<State>, i: nat)
    requires Trace(n, tr) && i < |tr|
    ensures Inv(tr[i]) && tr[i].n == n
  {
    if i == 0 {
      assert tr[0] == Initial(n);
    } else {
      TraceKeeps(n, tr, i - 1);
      NextKeeps(tr[i - 1], tr[i]);
    }
  }

  // Over every run, a thread may leave the k-th use only once n distinct threads, itself
  // among them, have entered it; and a thread still asleep is in a use that fewer than n
  // threads have entered, so no wake-up is lost even when fast threads re-enter at once.
  lemma EveryRunMeets(n: nat, tr: seq<State>, i: nat, t: nat)
    requires Trace(n, tr) && i < |tr| && n > 0
    ensures |tr[i].entered| == tr[i].timesUsed + 1
    ensures var s := tr[i]; match s.At(t)
            case Released(k) => k < s.timesUsed && t in s.entered[k] && |s.entered[k]| == n
            case Parked(k) => k == s.timesUsed && t in s.entered[k] && |s.entered[k]| < n
            case Out => t !in s.entered[s.timesUsed]
  {
    TraceKeeps(n, tr, i);
  }

  // Every thread goes round in turn: it comes in by being counted in the unfinished use, goes
  // to sleep there unless it completes it, is let go of the same use by whoever does, all
  // sleepers at once, and only then leaves.
  lemma EveryThreadInTurn(n: nat, tr: seq<State>, i: nat, t: nat)
    requires Trace(n, tr) && i + 1 < |tr| && n > 0
    ensures var s, s' := tr[i], tr[i + 1];
            match s.At(t)
            case Out =>
              || s'.At(t) == Out
              || ((s'.At(t) == Parked(s.timesUsed) || s'.At(t) == Released(s.timesUsed))
                  && s.timesUsed < |s'.entered| && t in s'.entered[s.timesUsed])
            case Parked(k) =>
              s'.At(t) == (if s'.timesUsed > k then Released(k) else Parked(k))
            case Released(k) => s'.At(t) == Released(k) || s'.At(t) == Out
  {
    TraceKeeps(n, tr, i);
    var s, s' := tr[i], tr[i + 1];
    var u: nat :| Enter(s, s', u) || Leave(s, s', u);
    if Enter(s, s', u) {
      EnterMoves(s, s', u, t);
      hide Trace, Inv, Enter;
    } else {
      hide Trace, Enter;
      assert u != t ==> s'.At(t) == s.At(t);
    }
  }

  lemma EnterMoves(s: State, s': State, u: nat, t: nat)
    requires Inv(s) && Enter(s, s', u)
    ensures s'.timesUsed == s.timesUsed || s'.timesUsed == s.timesUsed + 1
    ensures s.At(t).Parked? ==> s.At(t).k == s.timesUsed
    ensures var w := if t == u then Parked(s.timesUsed) else s.At(t);
            s'.At(t) == if s'.timesUsed == s.timesUsed then w else Wake(w)
    ensures s.timesUsed < |s'.entered| && u in s'.entered[s.timesUsed]
  {
  }

  // The barrier depends on signal-only wake-ups: in every reachable state, waking any
  // sleeping thread for no reason lets it leave a use that fewer than n threads entered.
  lemma SpuriousAlwaysBreaks(n: nat, tr: seq<State>, i: nat, t: nat, s': State)
    requires Trace(n, tr) && i < |tr| && Spurious(tr[i], s', t)
    ensures s'.At(t).Released? && s'.At(t).k < |s'.entered| && |s'.entered[s'.At(t).k]| < n
    ensures exists s'' :: Leave(s', s'', t)
  {
    TraceKeeps(n, tr, i);
    assert Leave(s', s'.(threads := s'.threads[t := Out]), t);
  }

  // ---------- the object ----------

  class Barrier {
    var nThreads: nat
    var count: nat
    var timesUsed: nat
    ghost var world: State   // the protocol state this object is part of

    ghost predicate Valid()
      reads this
    {
      && Inv(world)
      && nThreads == world.n && count == world.count && timesUsed == world.timesUsed
    }

    // All arrivals so far.
    function Arrivals(): nat
      reads this
    {
      timesUsed * Party(nThreads) + count
    }

    constructor Init(numThreads: nat)
      ensures Valid() && world == Initial(numThreads) && Arrivals() == 0
    {
      nThreads, count, timesUsed := numThreads, 0, 0;
      world := Initial(numThreads);
    }

    // barrier_wait by thread t, up to its sleep or its unlock: every n-th arrival goes
    // straight through, all the others sleep.
    method Wait(t: nat) returns (sleeps: bool)
      requires Valid() && world.At(t) == Out
      modifies this
      ensures Valid() && Enter(old(world), world, t)
      ensures Arrivals() == old(Arrivals()) + 1
      ensures sleeps <==> Arrivals() % Party(nThreads) != 0
      ensures sleeps <==> world.At(t).Parked?
    {
      ghost var s := world;
      count := count + 1;
      sleeps := count < nThreads;
      if !sleeps {
        count := 0;
        timesUsed := timesUsed + 1;
      }
      world := Entered(s, t);
      EnterKeeps(s, world, t);
      Remainder(timesUsed, Party(nThreads), count);
      if !sleeps {
        Distribute(s.timesUsed, Party(nThreads));
      }
    }
  }

  lemma Distribute(q: int, d: int)
    ensures (q + 1) * d == q * d + d
  {
  }

  lemma Remainder(q: nat, d: nat, r: nat)
    requires r < d
    ensures (q * d + r) % d == r
  {
    var m := q * d + r;
    var e := m / d - q;
    assert e * d == r - m % d by {
      assert m == (m / d) * d + m % d;
      assert e * d == (m / d) * d - q * d;
    }
    NoMultipleBetween(e, d);
  }

  lemma NoMultipleBetween(e: int, d: int)
    requires d > 0
    ensures e > 0 ==> e * d >= d
    ensures e < 0 ==> e * d <= -d
  {
  }
}
