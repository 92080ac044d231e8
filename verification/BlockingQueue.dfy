/**
 * The blocking queue of critical_concurrency/queue.c: its linked list, and the protocol of
 * any number of pushers and pullers around its one condition variable.
 */
module BlockingQueue {

  predicate Full(maxSize: int, size: int) {
    maxSize > 0 && size >= maxSize
  }

  // ---------- the linked list ----------

  class Node<V> {
    const data: V
    var next: Node?<V>

    constructor (data: V)
      ensures this.data == data && next == null
    {
      this.data, next := data, null;
    }
  }

  ghost predicate LinkAt<V>(nodes: seq<Node<V>>, i: nat)
    requires i < |nodes|
    reads nodes
  {
    nodes[i].next == if i + 1 < |nodes| then nodes[i + 1] else null
  }

  ghost function Values<V>(nodes: seq<Node<V>>): (c: seq<V>)
    ensures |c| == |nodes| && forall i | 0 <= i < |c| :: c[i] == nodes[i].data
  {
    if nodes == [] then [] else [nodes[0].data] + Values(nodes[1..])
  }

  // ---------- the protocol ----------

  datatype Thread<V> =
    | Out                 // not in the queue's code
    | WantPush(v: V)      // about to test push's condition with the mutex
    | WantPull
    | ParkedPush(v: V)    // waiting on the condition variable
    | ParkedPull

  datatype State<V> = State(
    contents: seq<V>,
    maxSize: int,
    threads: map<nat, Thread<V>>,
    pushed: seq<V>,       // values in the order their pushes took effect
    pulled: seq<V>
  ) {
    function At(t: nat): Thread<V> {
      if t in threads then threads[t] else Out
    }
  }

  function Unpark<V>(w: Thread<V>): Thread<V> {
    match w
    case ParkedPush(v) => WantPush(v)
    case ParkedPull => WantPull
    case _ => w
  }

  function Broadcast<V>(threads: map<nat, Thread<V>>): map<nat, Thread<V>> {
    map t | t in threads :: Unpark(threads[t])
  }

  ghost predicate Call<V(!new)>(s: State<V>, s': State<V>, t: nat) {
    && s.At(t) == Out
    && exists w :: (w == WantPull || w.WantPush?) && s' == s.(threads := s.threads[t := w])
  }

  ghost predicate Push<V>(s: State<V>, s': State<V>, t: nat) {
    && s.At(t).WantPush?
    && var v := s.At(t).v;
       if Full(s.maxSize, |s.contents|) then
         s' == s.(threads := s.threads[t := ParkedPush(v)])
       else
         s' == s.(contents := s.contents + [v], pushed := s.pushed + [v], threads := Broadcast(s.threads[t := Out]))
  }

  ghost predicate Pull<V>(s: State<V>, s': State<V>, t: nat) {
    && s.At(t) == WantPull
    && if s.contents == [] then
         s' == s.(threads := s.threads[t := ParkedPull])
       else
         s' == s.(contents := s.contents[1..], pulled := s.pulled + [s.contents[0]],
                  threads := Broadcast(s.threads[t := Out]))
  }

  // A wake-up nobody asked for.
  ghost predicate Spurious<V>(s: State<V>, s': State<V>, t: nat) {
    (s.At(t).ParkedPush? || s.At(t).ParkedPull?) && s' == s.(threads := s.threads[t := Unpark(s.At(t))])
  }

  ghost predicate Next<V(!new)>(s: State<V>, s': State<V>) {
    exists t: nat :: Call(s, s', t) || Push(s, s', t) || Pull(s, s', t) || Spurious(s, s', t)
  }

  ghost predicate Trace<V(!new)>(maxSize: int, tr: seq<State<V>>) {
    && |tr| > 0 && tr[0] == State([], maxSize, map[], [], [])
    && forall i | 0 <= i < |tr| - 1 :: Next(tr[i], tr[i + 1])
  }

  ghost predicate Inv<V(!new)>(s: State<V>) {
    // first in, first out
    && s.pushed == s.pulled + s.contents
    && (s.maxSize > 0 ==> |s.contents| <= s.maxSize)
    // no wake-up is lost: whoever is parked still has to be
    && (forall t: nat | s.At(t).ParkedPush? :: Full(s.maxSize, |s.contents|))
    && (forall t: nat | s.At(t).ParkedPull? :: s.contents == [])
  }

  // A thread other than the one that moves is as it was, or has been woken.
  ghost predicate OthersWoken<V(!new)>(s: State<V>, s': State<V>, t: nat) {
    forall u: nat :: u != t ==> s'.At(u) == s.At(u) || s'.At(u) == Unpark(s.At(u))
  }

  lemma PushKeeps<V(!new)>(s: State<V>, s': State<V>, t: nat)
    requires Inv(s) && Push(s, s', t)
    ensures Inv(s') && s'.maxSize == s.maxSize
  {
    assert !Full(s.maxSize, |s.contents|) ==> forall u: nat :: !s'.At(u).ParkedPush? && !s'.At(u).ParkedPull?;
    assert OthersWoken(s, s', t);
  }

  lemma PullKeeps<V(!new)>(s: State<V>, s': State<V>, t: nat)
    requires Inv(s) && Pull(s, s', t)
    ensures Inv(s') && s'.maxSize == s.maxSize
  {
    assert s.contents != [] ==> forall u: nat :: !s'.At(u).ParkedPush? && !s'.At(u).ParkedPull?;
    assert OthersWoken(s, s', t);
    assert s.contents != [] ==> s.contents == [s.contents[0]] + s.contents[1..];
  }

  lemma NextKeeps<V(!new)>(s: State<V>, s': State<V>)
    requires Inv(s) && Next(s, s')
    ensures Inv(s') && s'.maxSize == s.maxSize
  {
    var t: nat :| Call(s, s', t) || Push(s, s', t) || Pull(s, s', t) || Spurious(s, s', t);
    if Push(s, s', t) {
      PushKeeps(s, s', t);
    } else if Pull(s, s', t) {
      PullKeeps(s, s', t);
    } else {
      hide Push, Pull;
      assert OthersWoken(s, s', t);
    }
  }

  lemma {:induction false} TraceKeeps<V(!new)>(maxSize: int, tr: seq<State<V>>, i: nat)
    requires Trace(maxSize, tr) && i < |tr|
    ensures Inv(tr[i]) && tr[i].maxSize == maxSize
  {
    if i > 0 {
      TraceKeeps(maxSize, tr, i - 1);
      NextKeeps(tr[i - 1], tr[i]);
    }
  }

  ghost predicate Pushing<V>(w: Thread<V>, v: V) {
    w == WantPush(v) || w == ParkedPush(v)
  }

  ghost predicate Pulling<V>(w: Thread<V>) {
    w == WantPull || w == ParkedPull
  }

  // Every call takes effect exactly once, however often it is put to sleep and woken: a
  // thread that has called push leaves only by adding its own value behind all others, one
  // that has called pull only by taking the oldest value, and until then each stays what it
  // is. Nothing is pushed or pulled but by such a thread.
  lemma EveryCallTakesEffect<V(!new)>(maxSize: int, tr: seq<State<V>>, i: nat)
    requires Trace(maxSize, tr) && i + 1 < |tr|
    ensures var s, s' := tr[i], tr[i + 1];
            && (forall t: nat, v | Pushing(s.At(t), v) ::
                  if s'.At(t) == Out then s'.pushed == s.pushed + [v] && s'.contents == s.contents + [v]
                  else Pushing(s'.At(t), v))
            && (forall t: nat | Pulling(s.At(t)) ::
                  if s'.At(t) == Out then
                    s.contents != [] && s'.pulled == s.pulled + [s.contents[0]] && s'.contents == s.contents[1..]
                  else Pulling(s'.At(t)))
            && (s'.pushed != s.pushed ==>
                  exists t: nat, v :: s'.pushed == s.pushed + [v] && Pushing(s.At(t), v) && s'.At(t) == Out)
            && (s'.pulled != s.pulled ==>
                  exists t: nat :: |s'.pulled| == |s.pulled| + 1 && Pulling(s.At(t)) && s'.At(t) == Out)
  {
    var s, s' := tr[i], tr[i + 1];
    var t: nat :| Call(s, s', t) || Push(s, s', t) || Pull(s, s', t) || Spurious(s, s', t);
    if Push(s, s', t) {
      PushTakesEffect(s, s', t);
    } else if Pull(s, s', t) {
      PullTakesEffect(s, s', t);
    } else {
      hide Push, Pull;
      assert s'.pushed == s.pushed && s'.pulled == s.pulled;
      forall u: nat
        ensures u != t ==> s'.At(u) == s.At(u)
      {
      }
    }
  }

  lemma PushTakesEffect<V(!new)>(s: State<V>, s': State<V>, t: nat)
    requires Push(s, s', t)
    ensures forall u: nat, v | Pushing(s.At(u), v) :: if u == t && s'.At(u) == Out then v == s.At(t).v
                                                      else Pushing(s'.At(u), v)
    ensures forall u: nat | Pulling(s.At(u)) :: Pulling(s'.At(u))
    ensures s'.pulled == s.pulled
    ensures if s'.At(t) == Out then s'.pushed == s.pushed + [s.At(t).v] && s'.contents == s.contents + [s.At(t).v]
            else s'.pushed == s.pushed
  {
    assert OthersWoken(s, s', t);
  }

  lemma PullTakesEffect<V(!new)>(s: State<V>, s': State<V>, t: nat)
    requires Pull(s, s', t)
    ensures forall u: nat, v | Pushing(s.At(u), v) :: Pushing(s'.At(u), v)
    ensures forall u: nat | Pulling(s.At(u)) :: (u == t && s'.At(u) == Out) || Pulling(s'.At(u))
    ensures s'.pushed == s.pushed
    ensures if s'.At(t) == Out then
              s.contents != [] && s'.pulled == s.pulled + [s.contents[0]] && s'.contents == s.contents[1..]
            else s'.pulled == s.pulled
  {
    assert OthersWoken(s, s', t);
  }

  // Over every run: values come out in the order they went in, the bound is respected,
  // nobody sleeps without a reason, and pushers and pullers never sleep together.
  lemma EveryRunIsFifo<V(!new)>(maxSize: int, tr: seq<State<V>>, i: nat)
    requires Trace(maxSize, tr) && i < |tr|
    ensures tr[i].pulled <= tr[i].pushed
    ensures maxSize > 0 ==> |tr[i].contents| <= maxSize
    ensures forall t: nat :: tr[i].At(t).ParkedPush? ==> maxSize > 0 && |tr[i].contents| == maxSize
    ensures forall t: nat :: tr[i].At(t).ParkedPull? ==> tr[i].contents == []
    ensures forall t: nat, u: nat :: !(tr[i].At(t).ParkedPush? && tr[i].At(u).ParkedPull?)
  {
    TraceKeeps(maxSize, tr, i);
  }

  // ---------- the object ----------

  class Queue<V> {
    var head: Node?<V>
    var tail: Node?<V>
    var size: int
    const maxSize: int
    ghost var nodes: seq<Node<V>>
    ghost var world: State<V>   // the protocol state this object is part of

    ghost predicate Valid()
      reads this, nodes
    {
      && world.contents == Contents() && world.maxSize == maxSize
      && size == |nodes|
      && head == (if nodes == [] then null else nodes[0])
      && tail == (if nodes == [] then null else nodes[|nodes| - 1])
      && (forall i | 0 <= i < |nodes| :: LinkAt(nodes, i))
      && (forall i, j | 0 <= i < j < |nodes| :: nodes[i] != nodes[j])
    }

    // The queued values, oldest first.
    ghost function Contents(): (c: seq<V>)
      reads this
      ensures |c| == |nodes|
    {
      Values(nodes)
    }

    constructor Create(maxSize: int)
      ensures Valid() && Contents() == [] && this.maxSize == maxSize && nodes == []
      ensures world == State([], maxSize, map[], [], [])
    {
      head, tail, size, this.maxSize, nodes := null, null, 0, maxSize, [];
      world := State([], maxSize, map[], [], []);
    }

    // The test of push's wait loop and, when it fails, the rest of the critical section.
    method TryPush(t: nat, data: V) returns (done: bool)
      requires Valid() && world.At(t) == WantPush(data)
      modifies this, nodes
      ensures Push(old(world), world, t)
      ensures Valid() && fresh(set n | n in nodes && n !in old(nodes))
      ensures done <==> maxSize <= 0 || |old(Contents())| < maxSize
      ensures Contents() == if done then old(Contents()) + [data] else old(Contents())
    {
      hide Broadcast, Values;
      if maxSize > 0 && size >= maxSize {
        world := world.(threads := world.threads[t := ParkedPush(data)]);
        return false;
      }
      var newNode := new Node(data);
      if tail != null {
        tail.next := newNode;
      } else {
        head := newNode;
      }
      tail := newNode;
      size := size + 1;
      nodes := nodes + [newNode];
      assert Contents() == old(Contents()) + [data];
      world := world.(contents := Contents(), pushed := world.pushed + [data],
                      threads := Broadcast(world.threads[t := Out]));
      forall i | 0 <= i < |nodes|
        ensures LinkAt(nodes, i)
      {
        assert i < |old(nodes)| ==> old(LinkAt(nodes, i));
      }
      done := true;
    }

    // The same for pull.
    method TryPull(t: nat) returns (done: bool, data: seq<V>)
      requires Valid() && world.At(t) == WantPull
      modifies this
      ensures Pull(old(world), world, t)
      ensures Valid() && forall n | n in nodes :: n in old(nodes)
      ensures done <==> old(Contents()) != []
      ensures done ==> data == [old(Contents())[0]] && Contents() == old(Contents())[1..]
      ensures !done ==> data == [] && Contents() == old(Contents())
    {
      if head == null {
        world := world.(threads := world.threads[t := ParkedPull]);
        return false, [];
      }
      assert LinkAt(nodes, 0);
      data := [head.data];
      if head.next == null {
        head := null;
        tail := null;
      } else {
        head := head.next;
      }
      size := size - 1;
      nodes := nodes[1..];
      world := world.(contents := Contents(), pulled := world.pulled + data,
                      threads := Broadcast(world.threads[t := Out]));
      forall i | 0 <= i < |nodes|
        ensures LinkAt(nodes, i)
      {
        assert old(LinkAt(nodes, i + 1));
      }
      done := true;
    }
  }
}
