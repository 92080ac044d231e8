/**
 * The bounded semaphore of critical_concurrency/semamore.c, for any number of threads and
 * any spurious wake-ups.
 */
module Semaphore {

  datatype Thread =
    | Out
    | WantWait     // about to test semm_wait's condition with the mutex
    | WantPost
    | ParkedWait   // asleep on the condition variable
    | ParkedPost

  datatype State = State(
    value: int,
    maxVal: int,
    waits: nat,   // completed calls
    posts: nat,
    threads: map<nat, Thread>
  ) {
    function At(t: nat): Thread {
      if t in threads then threads[t] else Out
    }

    function Move(t: nat, w: Thread): State {
      this.(threads := threads[t := w])
    }
  }

  function Initial(value: int, maxVal: int): State {
    State(value, maxVal, 0, 0, map[])
  }

  function Wake(w: Thread): Thread {
    match w
    case ParkedWait => WantWait
    case ParkedPost => WantPost
    case _ => w
  }

  function Broadcast(threads: map<nat, Thread>): map<nat, Thread> {
    map t | t in threads :: Wake(threads[t])
  }

  ghost predicate Call(s: State, s': State, t: nat) {
    s.At(t) == Out && (s' == s.Move(t, WantWait) || s' == s.Move(t, WantPost))
  }

  ghost predicate Wait(s: State, s': State, t: nat) {
    && s.At(t) == WantWait
    && if s.value == 0 then s' == s.Move(t, ParkedWait)
       else s' == s.(value := s.value - 1, waits := s.waits + 1, threads := Broadcast(s.threads[t := Out]))
  }

  ghost predicate Post(s: State, s': State, t: nat) {
    && s.At(t) == WantPost
    && if s.value == s.maxVal then s' == s.Move(t, ParkedPost)
       else s' == s.(value := s.value + 1, posts := s.posts + 1, threads := Broadcast(s.threads[t := Out]))
  }

  ghost predicate Spurious(s: State, s': State, t: nat) {
    (s.At(t).ParkedWait? || s.At(t).ParkedPost?) && s' == s.Move(t, Wake(s.At(t)))
  }

  ghost predicate Step(s: State, s': State, t: nat) {
    Call(s, s', t) || Wait(s, s', t) || Post(s, s', t) || Spurious(s, s', t)
  }

  ghost predicate Next(s: State, s': State) {
    exists t: nat :: Step(s, s', t)
  }

  ghost predicate Trace(value: int, maxVal: int, tr: seq<State>) {
    && |tr| > 0 && tr[0] == Initial(value, maxVal)
    && forall i | 0 <= i < |tr| - 1 :: Next(tr[i], tr[i + 1])
  }

  ghost predicate Inv(s: State, value: int, maxVal: int) {
    && s.maxVal == maxVal
    && s.value == value + s.posts - s.waits
    && (0 <= value <= maxVal ==> 0 <= s.value <= maxVal)
    // no wake-up is lost: whoever is parked still has to be
    && (forall t: nat | s.At(t) == ParkedWait :: s.value == 0)
    && (forall t: nat | s.At(t) == ParkedPost :: s.value == maxVal)
  }

  lemma StepKeeps(s: State, s': State, t: nat, value: int, maxVal: int)
    requires Inv(s, value, maxVal) && Step(s, s', t)
    ensures Inv(s', value, maxVal)
  {
    assert forall u: nat :: u != t ==> s'.At(u) == s.At(u) || s'.At(u) == Wake(s.At(u));
  }

  lemma {:induction false} TraceKeeps(value: int, maxVal: int, tr: seq<State>, i: nat)
    requires Trace(value, maxVal, tr) && i < |tr|
    ensures Inv(tr[i], value, maxVal)
  {
    if i > 0 {
      TraceKeeps(value, maxVal, tr, i - 1);
      var t: nat :| Step(tr[i - 1], tr[i], t);
      StepKeeps(tr[i - 1], tr[i], t, value, maxVal);
    }
  }

  ghost predicate Waiting(w: Thread) {
    w == WantWait || w == ParkedWait
  }

  ghost predicate Posting(w: Thread) {
    w == WantPost || w == ParkedPost
  }

  // Every call takes effect exactly once, however often it is put to sleep and woken: a
  // thread in semm_wait leaves only by taking one from the value, one in semm_post only by
  // adding one, and until then each stays in its call. Nothing else changes the value.
  lemma EveryCallTakesEffect(value: int, maxVal: int, tr: seq<State>, i: nat)
    requires Trace(value, maxVal, tr) && i + 1 < |tr|
    ensures var s, s' := tr[i], tr[i + 1];
            && (forall t: nat | Waiting(s.At(t)) ::
                  if s'.At(t) == Out then s'.value == s.value - 1 && s'.waits == s.waits + 1 else Waiting(s'.At(t)))
            && (forall t: nat | Posting(s.At(t)) ::
                  if s'.At(t) == Out then s'.value == s.value + 1 && s'.posts == s.posts + 1 else Posting(s'.At(t)))
            && (s'.waits != s.waits ==> exists t: nat :: Waiting(s.At(t)) && s'.At(t) == Out)
            && (s'.posts != s.posts ==> exists t: nat :: Posting(s.At(t)) && s'.At(t) == Out)
            && (s'.waits == s.waits && s'.posts == s.posts ==> s'.value == s.value)
  {
    var s, s' := tr[i], tr[i + 1];
    var t: nat :| Step(s, s', t);
    assert forall u: nat :: u != t ==> s'.At(u) == s.At(u) || s'.At(u) == Wake(s.At(u));
    assert Waiting(s.At(t)) || Posting(s.At(t)) || s.At(t) == Out;
  }

  // Over every run: the value counts the completed calls, and a sleeping thread has the
  // reason it went to sleep for, so waiters and posters never sleep together unless the
  // semaphore has no room at all.
  lemma EveryRunCounts(value: int, maxVal: int, tr: seq<State>, i: nat, t: nat, u: nat)
    requires Trace(value, maxVal, tr) && i < |tr|
    ensures tr[i].value == value + tr[i].posts - tr[i].waits
    ensures tr[i].At(t) == ParkedWait ==> tr[i].value == 0
    ensures tr[i].At(t) == ParkedPost ==> tr[i].value == maxVal
    ensures tr[i].At(t) == ParkedWait && tr[i].At(u) == ParkedPost ==> maxVal == 0
  {
    TraceKeeps(value, maxVal, tr, i);
  }

  ghost predicate AlwaysInRange(value: int, maxVal: int) {
    forall tr: seq<State>, i: nat :: Trace(value, maxVal, tr) && i < |tr| ==> 0 <= tr[i].value <= maxVal
  }

  // The value is confined to [0, maxVal] on all runs exactly when it starts there: both
  // waits test for equality with their bound, not for an inequality.
  lemma StaysInRangeExactly(value: int, maxVal: int)
    ensures AlwaysInRange(value, maxVal) <==> 0 <= value <= maxVal
  {
    if 0 <= value <= maxVal {
      forall tr: seq<State>, i: nat | Trace(value, maxVal, tr) && i < |tr|
        ensures 0 <= tr[i].value <= maxVal
      {
        TraceKeeps(value, maxVal, tr, i);
      }
    } else {
      var tr := [Initial(value, maxVal)];
      assert Trace(value, maxVal, tr) && 0 < |tr|;
      assert !(0 <= tr[0].value <= maxVal);
    }
  }

  // ---------- the object ----------

  class Semamore {
    var value: int
    var maxVal: int
    ghost const start: int
    ghost var world: State   // the protocol state this object is part of

    ghost predicate Valid()
      reads this
    {
      Inv(world, start, maxVal) && value == world.value
    }

    constructor Init(value: int, maxVal: int)
      ensures Valid() && world == Initial(value, maxVal) && start == value && this.maxVal == maxVal
    {
      this.value, this.maxVal, this.start := value, maxVal, value;
      world := Initial(value, maxVal);
    }

    // The test of semm_wait's loop and, when it fails, the rest of the critical section.
    method TryWait(t: nat) returns (done: bool)
      requires Valid() && world.At(t) == WantWait
      modifies this
      ensures Valid() && maxVal == old(maxVal) && Wait(old(world), world, t)
      ensures done <==> world.waits == old(world.waits) + 1
      ensures value == start + world.posts - world.waits
    {
      done := value != 0;
      if done {
        value := value - 1;
        world := world.(value := value, waits := world.waits + 1, threads := Broadcast(world.threads[t := Out]));
      } else {
        world := world.Move(t, ParkedWait);
      }
      StepKeeps(old(world), world, t, start, maxVal);
    }

    // The same for semm_post.
    method TryPost(t: nat) returns (done: bool)
      requires Valid() && world.At(t) == WantPost
      modifies this
      ensures Valid() && maxVal == old(maxVal) && Post(old(world), world, t)
      ensures done <==> world.posts == old(world.posts) + 1
      ensures value == start + world.posts - world.waits
    {
      done := value != maxVal;
      if done {
        value := value + 1;
        world := world.(value := value, posts := world.posts + 1, threads := Broadcast(world.threads[t := Out]));
      } else {
        world := world.Move(t, ParkedPost);
      }
      StepKeeps(old(world), world, t, start, maxVal);
    }
  }
}
