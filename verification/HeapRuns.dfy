/**
 * Whole runs: any sequence of malloc, calloc, realloc, free and stores by a program that
 * keeps its pointers in numbered slots.
 */
module HeapRuns {
  import opened HeapLayout
  import opened HeapSteps
  import opened HeapFacts
  import opened HeapShape
  import opened Allocator

  datatype Call =
    | Malloc(slot: nat, size: nat, grant: bool)
    | Calloc(slot: nat, num: nat, size: nat, grant: bool)
    | Realloc(slot: nat, size: nat, grant: bool)
    | Free(slot: nat)
    | Store(slot: nat, at: nat, value: int)

  datatype Byte = Known(value: int) | Unknown

  // What the program may rely on: the bytes of every buffer it holds.
  type Buffers = map<nat, seq<Byte>>

  function Resize(s: seq<Byte>, n: nat): seq<Byte> {
    seq(n, i requires 0 <= i => if i < |s| then s[i] else Unknown)
  }

  // The promise of each call to a program that ignores the allocator's insides: buffers
  // are independent, calloc zeroes, realloc keeps what fits. A slot in use is not
  // allocated over; stores outside the buffer are not made.
  function Promise(k: Buffers, c: Call, got: bool): Buffers {
    match c
    case Malloc(slot, size, _) =>
      if slot !in k && got then k[slot := Resize([], size)] else k
    case Calloc(slot, num, size, _) =>
      if slot !in k && got then k[slot := seq(num * size, _ => Known(0))] else k
    case Realloc(slot, size, _) =>
      if slot !in k then (if got then k[slot := Resize([], size)] else k)
      else if size == 0 then k - {slot}
      else if got then k[slot := Resize(k[slot], size)]
      else k
    case Free(slot) =>
      k - {slot}
    case Store(slot, at, value) =>
      if slot in k && at < |k[slot]| then k[slot := k[slot][at := Known(value)]] else k
  }

  // got[i] tells whether call i returned a pointer.
  function Promises(calls: seq<Call>, got: seq<bool>): Buffers
    requires |calls| == |got|
  {
    if calls == [] then map[]
    else
      var last := |calls| - 1;
      Promise(Promises(calls[..last], got[..last]), calls[last], got[last])
  }

  ghost predicate Backs(payload: seq<int>, b: seq<Byte>) {
    && |b| <= |payload|
    && forall i | 0 <= i < |b| && b[i].Known? :: payload[i] == b[i].value
  }

  ghost predicate SlotOk(b: seq<Byte>, ptr: int, l: map<int, seq<int>>) {
    && ptr != NULL
    && ptr - STRUCT_SIZE in l
    && Backs(l[ptr - STRUCT_SIZE], b)
  }

  ghost predicate Owned(table: map<nat, int>, x: int) {
    exists s :: s in table && table[s] == x + STRUCT_SIZE
  }

  ghost predicate SlotsOk(k: Buffers, table: map<nat, int>, l: map<int, seq<int>>) {
    table.Keys == k.Keys && forall s | s in k :: SlotOk(k[s], table[s], l)
  }

  ghost predicate AllOwned(table: map<nat, int>, l: map<int, seq<int>>) {
    forall x | x in l :: Owned(table, x)
  }

  ghost predicate DistinctSlots(table: map<nat, int>) {
    forall s, t | s in table && t in table && s != t :: table[s] != table[t]
  }

  // The slots hold distinct live pointers, no live block is unowned, and every byte the
  // program relies on is in memory.
  ghost predicate Kept(k: Buffers, table: map<nat, int>, l: map<int, seq<int>>) {
    SlotsOk(k, table, l) && DistinctSlots(table) && AllOwned(table, l)
  }

  lemma AddedKept(k: Buffers, table: map<nat, int>, l: map<int, seq<int>>, l': map<int, seq<int>>, slot: nat, ptr: int,
                  b: seq<Byte>)
    requires Kept(k, table, l)
    requires slot !in k && ptr != NULL
    requires ptr - STRUCT_SIZE !in l && ptr - STRUCT_SIZE in l' && l' - {ptr - STRUCT_SIZE} == l
    requires Backs(l'[ptr - STRUCT_SIZE], b)
    ensures Kept(k[slot := b], table[slot := ptr], l')
  {
    KeptKeys(k, table, l);
    DistinctAdded(table, slot, ptr);
    hide Backs, DistinctSlots, SlotsOk, AllOwned;
    SlotsAdded(k, table, l, l', slot, ptr, b);
    OwnedAdded(table, l, l', slot, ptr);
  }

  lemma SlotsAdded(k: Buffers, table: map<nat, int>, l: map<int, seq<int>>, l': map<int, seq<int>>, slot: nat, ptr: int,
                   b: seq<Byte>)
    requires SlotsOk(k, table, l)
    requires slot !in k && ptr != NULL && ptr - STRUCT_SIZE !in l && ptr - STRUCT_SIZE in l'
    requires l' - {ptr - STRUCT_SIZE} == l && Backs(l'[ptr - STRUCT_SIZE], b)
    ensures SlotsOk(k[slot := b], table[slot := ptr], l')
  {
    hide Backs;
    var k', t' := k[slot := b], table[slot := ptr];
    forall s | s in k'
      ensures SlotOk(k'[s], t'[s], l')
    {
      if s != slot {
        assert SlotOk(k[s], table[s], l);
        SlotStill(k[s], table[s], l, l', ptr - STRUCT_SIZE);
      }
    }
  }

  lemma OwnedAdded(table: map<nat, int>, l: map<int, seq<int>>, l': map<int, seq<int>>, slot: nat, ptr: int)
    requires slot !in table && l' - {ptr - STRUCT_SIZE} == l && AllOwned(table, l)
    ensures AllOwned(table[slot := ptr], l')
  {
    hide Owned;
    forall y | y in l'
      ensures Owned(table[slot := ptr], y)
    {
      assert y != ptr - STRUCT_SIZE ==> y in l' - {ptr - STRUCT_SIZE};
      StillOwned(table, slot, ptr, y);
    }
  }

  lemma DistinctAdded(table: map<nat, int>, slot: nat, ptr: int)
    requires DistinctSlots(table) && slot !in table && forall s | s in table :: table[s] != ptr
    ensures DistinctSlots(table[slot := ptr])
  {
  }

  lemma SlotStill(b: seq<Byte>, ptr: int, l: map<int, seq<int>>, l': map<int, seq<int>>, x: int)
    requires SlotOk(b, ptr, l) && x !in l && l' - {x} == l
    ensures SlotOk(b, ptr, l')
  {
    assert l[ptr - STRUCT_SIZE] == (l' - {x})[ptr - STRUCT_SIZE];
  }

  lemma StillOwned(table: map<nat, int>, slot: nat, ptr: int, y: int)
    requires slot !in table && (y == ptr - STRUCT_SIZE || Owned(table, y))
    ensures Owned(table[slot := ptr], y)
  {
    if y == ptr - STRUCT_SIZE {
      assert table[slot := ptr][slot] == y + STRUCT_SIZE;
    } else {
      var s :| s in table && table[s] == y + STRUCT_SIZE;
      assert table[slot := ptr][s] == y + STRUCT_SIZE;
    }
  }

  lemma RemovedKept(k: Buffers, table: map<nat, int>, l: map<int, seq<int>>, slot: nat)
    requires Kept(k, table, l)
    requires slot in k
    ensures Kept(k - {slot}, table - {slot}, l - {table[slot] - STRUCT_SIZE})
  {
    KeptKeys(k, table, l);
    hide SlotsOk, AllOwned, DistinctSlots;
    DistinctRemoved(table, slot);
    SlotsRemoved(k, table, l, slot);
    OwnedRemoved(table, l, slot);
  }

  lemma DistinctRemoved(table: map<nat, int>, slot: nat)
    requires DistinctSlots(table)
    ensures DistinctSlots(table - {slot})
  {
  }

  lemma SlotsRemoved(k: Buffers, table: map<nat, int>, l: map<int, seq<int>>, slot: nat)
    requires SlotsOk(k, table, l) && DistinctSlots(table) && slot in k
    ensures SlotsOk(k - {slot}, table - {slot}, l - {table[slot] - STRUCT_SIZE})
  {
    hide Backs;
    var k', t', l' := k - {slot}, table - {slot}, l - {table[slot] - STRUCT_SIZE};
    forall s | s in k'
      ensures SlotOk(k'[s], t'[s], l')
    {
      assert SlotOk(k[s], table[s], l);
    }
  }

  lemma OwnedRemoved(table: map<nat, int>, l: map<int, seq<int>>, slot: nat)
    requires AllOwned(table, l) && slot in table
    ensures AllOwned(table - {slot}, l - {table[slot] - STRUCT_SIZE})
  {
    var t', l' := table - {slot}, l - {table[slot] - STRUCT_SIZE};
    forall y | y in l'
      ensures Owned(t', y)
    {
      assert Owned(table, y);
      var s :| s in table && table[s] == y + STRUCT_SIZE;
      assert s in t' && t'[s] == y + STRUCT_SIZE;
    }
  }

  lemma MovedKept(k: Buffers, table: map<nat, int>, l: map<int, seq<int>>, l': map<int, seq<int>>, slot: nat, ptr: int,
                  size: nat)
    requires Kept(k, table, l)
    requires slot in k && ptr != NULL
    requires Moved(l, l', table[slot] - STRUCT_SIZE, ptr - STRUCT_SIZE, size)
    ensures Kept(k[slot := Resize(k[slot], size)], table[slot := ptr], l')
  {
    hide Kept, Owned;
    SlotBacked(k, table, l, slot);
    var x, y := table[slot] - STRUCT_SIZE, ptr - STRUCT_SIZE;
    RemovedKept(k, table, l, slot);
    AddedKept(k - {slot}, table - {slot}, l - {x}, l', slot, ptr, Resize(k[slot], size));
    assert k[slot := Resize(k[slot], size)] == (k - {slot})[slot := Resize(k[slot], size)];
    assert table[slot := ptr] == (table - {slot})[slot := ptr];
  }

  lemma KeptKeys(k: Buffers, table: map<nat, int>, l: map<int, seq<int>>)
    requires Kept(k, table, l)
    ensures table.Keys == k.Keys
    ensures forall s | s in k :: table[s] != NULL && table[s] - STRUCT_SIZE in l
  {
    forall s | s in k
      ensures table[s] != NULL && table[s] - STRUCT_SIZE in l
    {
      assert SlotOk(k[s], table[s], l);
    }
  }

  lemma SlotBacked(k: Buffers, table: map<nat, int>, l: map<int, seq<int>>, slot: nat)
    requires Kept(k, table, l)
    requires slot in k
    ensures table.Keys == k.Keys && SlotOk(k[slot], table[slot], l)
  {
  }

  lemma StoredKept(k: Buffers, table: map<nat, int>, l: map<int, seq<int>>, slot: nat, at: nat, value: int)
    requires Kept(k, table, l)
    requires slot in k && at < |k[slot]|
    ensures var x := table[slot] - STRUCT_SIZE;
            && x in l && at < |l[x]|
            && Kept(k[slot := k[slot][at := Known(value)]], table, l[x := l[x][at := value]])
  {
    hide Owned;
    SlotBacked(k, table, l, slot);
    var x := table[slot] - STRUCT_SIZE;
    var k', l' := k[slot := k[slot][at := Known(value)]], l[x := l[x][at := value]];
    assert Backs(l'[x], k'[slot]);
    hide Backs;
    forall s | s in k'
      ensures SlotOk(k'[s], table[s], l')
    {
      assert SlotOk(k[s], table[s], l);
      assert s != slot ==> table[s] != table[slot];
    }
  }

  // ---------- what every call does, and when it succeeds ----------

  // The heap's shape and the program's pointers between two calls.
  datatype Config = Config(shape: Shape, table: map<nat, int>) {
    function Held(slot: nat): int {
      if slot in table then table[slot] else NULL
    }
  }

  ghost predicate AllocatedAt(c: Config, c': Config, slot: nat, size: nat, grant: bool, ok: bool, ptr: int) {
    && MallocStep(c.shape, c'.shape, size, grant, ptr)
    && (ok <==> ptr != NULL)
    && c'.table == if ok then c.table[slot := ptr] else c.table
  }

  ghost predicate Allocated(c: Config, c': Config, slot: nat, size: nat, grant: bool, ok: bool) {
    if slot in c.table then !ok && c' == c
    else exists ptr :: AllocatedAt(c, c', slot, size, grant, ok, ptr)
  }

  ghost predicate ReallocatedAt(c: Config, c': Config, slot: nat, size: nat, grant: bool, ok: bool, ptr: int) {
    && ReallocStep(c.shape, c'.shape, c.Held(slot), size, grant, ptr)
    && (ok <==> ptr != NULL)
    && c'.table == if ok then c.table[slot := ptr] else if size == 0 then c.table - {slot} else c.table
  }

  ghost predicate CallStep(call: Call, c: Config, c': Config, ok: bool) {
    match call
    case Malloc(slot, size, grant) => Allocated(c, c', slot, size, grant, ok)
    case Calloc(slot, num, size, grant) => Allocated(c, c', slot, num * size, grant, ok)
    case Realloc(slot, size, grant) => exists ptr :: ReallocatedAt(c, c', slot, size, grant, ok, ptr)
    case Free(slot) =>
      && !ok && c'.table == c.table - {slot}
      && if slot in c.table then FreeStep(c.shape, c'.shape, c.table[slot] - STRUCT_SIZE) else c'.shape == c.shape
    case Store(_, _, _) => !ok && c' == c
  }

  // Exactly when a call returns a pointer.
  ghost predicate Succeeds(call: Call, c: Config) {
    match call
    case Malloc(slot, size, grant) => slot !in c.table && Servable(c.shape.blk, size, grant)
    case Calloc(slot, num, size, grant) => slot !in c.table && Servable(c.shape.blk, num * size, grant)
    case Realloc(slot, size, grant) =>
      Servable(c.shape.blk, size, grant) || (size > 0 && HasRoom(c, slot, size))
    case _ => false
  }

  ghost predicate HasRoom(c: Config, slot: nat, size: nat) {
    && slot in c.table && c.table[slot] - STRUCT_SIZE in c.shape.blk
    && c.shape.blk[c.table[slot] - STRUCT_SIZE].size >= size
  }

  ghost predicate Stepped(calls: seq<Call>, tr: seq<Config>, got: seq<bool>, i: nat)
    requires i < |calls| && i < |got| && i + 1 < |tr|
  {
    CallStep(calls[i], tr[i], tr[i + 1], got[i]) && (got[i] <==> Succeeds(calls[i], tr[i]))
  }

  // A heap has this shape: blocks that tile it and a list of exactly the free ones.
  ghost predicate Sound(s: Shape) {
    exists m: Memory, head: int, start: int :: |m| == s.brk && Inv(m, head, start, s.blk, s.fl)
  }

  lemma SoundTiles(s: Shape) returns (start: int)
    requires Sound(s)
    ensures Tiling(s.blk, start, s.brk) && NULL !in s.blk
  {
    var m: Memory, head: int, st: int :| |m| == s.brk && Inv(m, head, st, s.blk, s.fl);
    start := st;
    assert NULL in s.blk ==> HeaderOk(m, NULL, s.blk[NULL]);
  }

  // free puts a block together with its free neighbours, before it and after it: a malloc
  // right after the free gets what the three of them and the overhead between them hold,
  // without the system.
  lemma JoinedIsReusable(calls: seq<Call>, tr: seq<Config>, got: seq<bool>, i: nat, slot: nat, lo: int, hi: int)
    requires i + 1 < |calls| && |got| == |calls| && |tr| == |calls| + 1
    requires Stepped(calls, tr, got, i) && Stepped(calls, tr, got, i + 1) && Sound(tr[i].shape)
    requires calls[i] == Free(slot) && slot in tr[i].table && tr[i].table[slot] - STRUCT_SIZE in tr[i].shape.blk
    requires Begins(tr[i].shape.blk, tr[i].table[slot] - STRUCT_SIZE, lo)
    requires Ends(tr[i].shape.blk, tr[i].table[slot] - STRUCT_SIZE, tr[i].shape.brk, hi)
    requires calls[i + 1].Malloc? && 0 < calls[i + 1].size <= hi - lo - OVERHEAD
    requires calls[i + 1].slot == slot || calls[i + 1].slot !in tr[i].table
    ensures got[i + 1]
  {
    hide Stepped, FreeStep, Servable, Begins, Ends, Tiling, Sound;
    var start := SoundTiles(tr[i].shape);
    FreeTaken(calls, tr, got, i);
    MallocAnswered(calls, tr, got, i + 1);
    JoinServes(start, tr[i].shape, tr[i + 1].shape, tr[i].table[slot] - STRUCT_SIZE, lo, hi, calls[i + 1].size,
               calls[i + 1].grant);
  }

  lemma FreeTaken(calls: seq<Call>, tr: seq<Config>, got: seq<bool>, i: nat)
    requires i < |calls| && i < |got| && i + 1 < |tr| && Stepped(calls, tr, got, i)
    requires calls[i].Free? && calls[i].slot in tr[i].table
    ensures FreeStep(tr[i].shape, tr[i + 1].shape, tr[i].table[calls[i].slot] - STRUCT_SIZE)
    ensures tr[i + 1].table == tr[i].table - {calls[i].slot}
  {
    hide FreeStep, Succeeds;
  }

  lemma MallocAnswered(calls: seq<Call>, tr: seq<Config>, got: seq<bool>, i: nat)
    requires i < |calls| && i < |got| && i + 1 < |tr| && Stepped(calls, tr, got, i)
    requires calls[i].Malloc? && calls[i].slot !in tr[i].table
    ensures got[i] <==> Servable(tr[i].shape.blk, calls[i].size, calls[i].grant)
  {
    hide CallStep, Servable;
  }

  lemma MallocTaken(calls: seq<Call>, tr: seq<Config>, got: seq<bool>, i: nat)
    requires i < |calls| && i < |got| && i + 1 < |tr| && Stepped(calls, tr, got, i)
    requires calls[i].Malloc? && got[i]
    ensures calls[i].slot in tr[i + 1].table && tr[i + 1].table[calls[i].slot] != NULL
    ensures MallocStep(tr[i].shape, tr[i + 1].shape, calls[i].size, calls[i].grant, tr[i + 1].table[calls[i].slot])
  {
    hide MallocStep, Servable;
  }

  // And what a malloc leaves of the free block it was served from is there for the next.
  lemma RestIsReusable(calls: seq<Call>, tr: seq<Config>, got: seq<bool>, i: nat)
    requires i + 1 < |calls| && |got| == |calls| && |tr| == |calls| + 1
    requires Stepped(calls, tr, got, i) && Stepped(calls, tr, got, i + 1) && Sound(tr[i].shape)
    requires calls[i].Malloc? && got[i] && calls[i].slot in tr[i + 1].table
    requires var x := tr[i + 1].table[calls[i].slot] - STRUCT_SIZE;
             && x in tr[i].shape.blk
             && calls[i + 1].Malloc? && calls[i + 1].slot !in tr[i + 1].table
             && 0 < calls[i + 1].size <= tr[i].shape.blk[x].size - calls[i].size - OVERHEAD
    ensures got[i + 1]
  {
    hide Stepped, Inv, MallocStep;
    var s, call := tr[i].shape, calls[i];
    var m: Memory, head: int, start: int :| |m| == s.brk && Inv(m, head, start, s.blk, s.fl);
    MallocTaken(calls, tr, got, i);
    MallocAnswered(calls, tr, got, i + 1);
    MallocSpares(m, head, start, s, tr[i + 1].shape, call.size, call.grant, tr[i + 1].table[call.slot]);
    assert Servable(tr[i + 1].shape.blk, calls[i + 1].size, false);
  }

  // Memory that is given back is good for the next request that fits it: malloc right after
  // free needs nothing from the system, whatever free merged.
  lemma FreedIsReusable(calls: seq<Call>, tr: seq<Config>, got: seq<bool>, i: nat, slot: nat)
    requires i + 1 < |calls| && |got| == |calls| && |tr| == |calls| + 1
    requires Stepped(calls, tr, got, i) && Stepped(calls, tr, got, i + 1)
    requires calls[i] == Free(slot) && slot in tr[i].table
    requires calls[i + 1].Malloc? && calls[i + 1].size > 0 && HasRoom(tr[i], slot, calls[i + 1].size)
    requires calls[i + 1].slot == slot || calls[i + 1].slot !in tr[i].table
    ensures got[i + 1]
  {
    hide Stepped, FreeStep, Servable;
    FreeTaken(calls, tr, got, i);
    MallocAnswered(calls, tr, got, i + 1);
    FreedServes(tr[i].shape, tr[i + 1].shape, tr[i].table[slot] - STRUCT_SIZE, calls[i + 1].size, calls[i + 1].grant);
  }

  lemma FormSound(h: Heap)
    requires h.Valid()
    ensures Sound(h.Form())
  {
    hide Inv;
    assert |h.mem| == h.Form().brk && Inv(h.mem, h.head, h.HeapStart(), h.Form().blk, h.Form().fl);
  }

  // The allocator keeps every promise over any sequence of calls, every call does to the
  // heap what its step says, and it returns a pointer exactly when it should. `tr` is the
  // heap and the program's pointers before each call and at the end.
  method Run(h: Heap, calls: seq<Call>) returns (table: map<nat, int>, got: seq<bool>, ghost tr: seq<Config>)
    requires h.Valid() && h.Payloads() == map[]
    modifies h
    ensures h.Valid()
    ensures |got| == |calls| && |tr| == |calls| + 1
    ensures Kept(Promises(calls, got), table, h.Payloads())
    ensures tr[0] == Config(old(h.Form()), map[]) && tr[|calls|] == Config(h.Form(), table)
    ensures forall i: nat | i < |calls| :: Stepped(calls, tr, got, i)
    ensures forall i: nat | i <= |calls| :: Sound(tr[i].shape)
  {
    hide Inv, Promise, CallStep, Succeeds, Sound;
    table, got := map[], [];
    tr := [Config(h.Form(), table)];
    FormSound(h);
    var i := 0;
    var k: Buffers := map[];
    while i < |calls|
      invariant 0 <= i <= |calls| && |got| == i && |tr| == i + 1
      invariant h.Valid()
      invariant k == Promises(calls[..i], got)
      invariant Kept(k, table, h.Payloads())
      invariant tr[0] == Config(old(h.Form()), map[]) && tr[i] == Config(h.Form(), table)
      invariant forall j: nat | j < i :: Stepped(calls, tr, got, j)
      invariant forall j: nat | j <= i :: Sound(tr[j].shape)
    {
      var ok;
      ghost var tr0, got0 := tr, got;
      table, ok := Step(h, calls[i], table, k);
      assert calls[..i + 1][..i] == calls[..i] && (got + [ok])[..i] == got;
      k := Promise(k, calls[i], ok);
      got := got + [ok];
      tr := tr + [Config(h.Form(), table)];
      FormSound(h);
      assert forall j: nat | j < i :: Stepped(calls, tr0, got0, j) ==> Stepped(calls, tr, got, j);
      i := i + 1;
    }
    assert calls[..i] == calls;
  }

  method Step(h: Heap, c: Call, table: map<nat, int>, k: Buffers) returns (table': map<nat, int>, ok: bool)
    requires h.Valid()
    requires Kept(k, table, h.Payloads())
    modifies h
    ensures h.Valid()
    ensures Kept(Promise(k, c, ok), table', h.Payloads())
    ensures CallStep(c, Config(old(h.Form()), table), Config(h.Form(), table'), ok)
    ensures ok <==> Succeeds(c, Config(old(h.Form()), table))
  {
    hide Kept, Inv, Freed, LiveKept, FreeLeft, FreeRight, Moved, MallocStep, FreeStep, Servable;
    KeptKeys(k, table, h.Payloads());
    table', ok := table, false;
    ghost var l := h.Payloads();
    match c {
      case Malloc(slot, size, grant) =>
        if slot !in table {
          table', ok := StepMalloc(h, slot, size, grant, table, k);
        }
      case Calloc(slot, num, size, grant) =>
        if slot !in table {
          table', ok := StepCalloc(h, slot, num, size, grant, table, k);
        }
      case Realloc(slot, size, grant) =>
        table', ok := StepRealloc(h, slot, size, grant, table, k);
      case Free(slot) =>
        table' := StepFree(h, slot, table, k);
      case Store(slot, at, value) =>
        if slot in table && at < |k[slot]| {
          StoredKept(k, table, l, slot, at, value);
          h.Store(table[slot], at, value);
        }
    }
  }

  method StepMalloc(h: Heap, slot: nat, size: nat, grant: bool, table: map<nat, int>, k: Buffers)
    returns (table': map<nat, int>, ok: bool)
    requires h.Valid() && Kept(k, table, h.Payloads()) && slot !in table
    modifies h
    ensures h.Valid()
    ensures Kept(Promise(k, Malloc(slot, size, grant), ok), table', h.Payloads())
    ensures Allocated(Config(old(h.Form()), table), Config(h.Form(), table'), slot, size, grant, ok)
    ensures ok <==> Servable(old(h.blk), size, grant)
  {
    hide Kept, Inv, MallocStep, Servable;
    KeptKeys(k, table, h.Payloads());
    ghost var l := h.Payloads();
    var ptr := h.MallocServes(size, grant);
    ok := ptr != NULL;
    table' := if ok then table[slot := ptr] else table;
    assert AllocatedAt(Config(old(h.Form()), table), Config(h.Form(), table'), slot, size, grant, ok, ptr);
    if ok {
      AddedKept(k, table, l, h.Payloads(), slot, ptr, Resize([], size));
    }
  }

  method StepCalloc(h: Heap, slot: nat, num: nat, size: nat, grant: bool, table: map<nat, int>, k: Buffers)
    returns (table': map<nat, int>, ok: bool)
    requires h.Valid() && Kept(k, table, h.Payloads()) && slot !in table
    modifies h
    ensures h.Valid()
    ensures Kept(Promise(k, Calloc(slot, num, size, grant), ok), table', h.Payloads())
    ensures Allocated(Config(old(h.Form()), table), Config(h.Form(), table'), slot, num * size, grant, ok)
    ensures ok <==> Servable(old(h.blk), num * size, grant)
  {
    hide Kept, Inv, MallocStep, Servable;
    KeptKeys(k, table, h.Payloads());
    ghost var l := h.Payloads();
    var ptr := h.Calloc(num, size, grant);
    ok := ptr != NULL;
    table' := if ok then table[slot := ptr] else table;
    assert AllocatedAt(Config(old(h.Form()), table), Config(h.Form(), table'), slot, num * size, grant, ok, ptr);
    if ok {
      AddedKept(k, table, l, h.Payloads(), slot, ptr, seq(num * size, _ => Known(0)));
    }
  }

  method StepFree(h: Heap, slot: nat, table: map<nat, int>, k: Buffers) returns (table': map<nat, int>)
    requires h.Valid() && Kept(k, table, h.Payloads())
    modifies h
    ensures h.Valid()
    ensures Kept(k - {slot}, table', h.Payloads())
    ensures CallStep(Free(slot), Config(old(h.Form()), table), Config(h.Form(), table'), false)
  {
    hide Kept, Inv, Freed, LiveKept, FreeLeft, FreeRight, FreeStep;
    KeptKeys(k, table, h.Payloads());
    ghost var l := h.Payloads();
    ghost var left, right;
    var held := if slot in table then table[slot] else NULL;
    left, right := h.Free(held);
    table' := table - {slot};
    if slot in table {
      RemovedKept(k, table, l, slot);
      FreedIsStep(old(h.blk), h.blk, old(h.fl), h.fl, |h.mem|, held - STRUCT_SIZE, left, right);
    } else {
      assert k - {slot} == k && table - {slot} == table;
    }
  }

  method StepRealloc(h: Heap, slot: nat, size: nat, grant: bool, table: map<nat, int>, k: Buffers)
    returns (table': map<nat, int>, ok: bool)
    requires h.Valid()
    requires Kept(k, table, h.Payloads())
    modifies h
    ensures h.Valid()
    ensures Kept(Promise(k, Realloc(slot, size, grant), ok), table', h.Payloads())
    ensures CallStep(Realloc(slot, size, grant), Config(old(h.Form()), table), Config(h.Form(), table'), ok)
    ensures ok <==> Succeeds(Realloc(slot, size, grant), Config(old(h.Form()), table))
  {
    hide Kept, Inv, Moved, ReallocStep, Servable;
    KeptKeys(k, table, h.Payloads());
    table' := table;
    ghost var l := h.Payloads();
    var held := if slot in table then table[slot] else NULL;
    if slot in table {
      PayloadRangeInv(h.mem, h.head, h.HeapStart(), h.blk, h.fl, held - STRUCT_SIZE);
    }
    var ptr := h.Realloc(held, size, grant);
    ok := ptr != NULL;
    if slot !in table {
      if ok {
        table' := table[slot := ptr];
        AddedKept(k, table, l, h.Payloads(), slot, ptr, Resize([], size));
      } else if size == 0 {
        assert table - {slot} == table;
      }
    } else if size == 0 {
      table' := table - {slot};
      RemovedKept(k, table, l, slot);
    } else if ok {
      table' := table[slot := ptr];
      MovedKept(k, table, l, h.Payloads(), slot, ptr, size);
    }
    assert ReallocatedAt(Config(old(h.Form()), table), Config(h.Form(), table'), slot, size, grant, ok, ptr);
  }
}
