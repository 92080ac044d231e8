/**
 * The memory system behind ideal_indirection/mmu.c as values: physical frames holding page
 * directories, page tables and pages, the swap files, and the frames the kernel has free.
 */
module MmuModel {
  import opened Basics

  type Frame = nat
  type Pid = nat

  const NUM_ENTRIES: nat := 1024
  const PAGE_SIZE: nat := 4096

  datatype Pde = Pde(present: bool, base: Frame)
  datatype Pte = Pte(present: bool, base: Frame, accessed: bool, dirty: bool)

  const NO_PDE := Pde(false, 0)
  const NO_PTE := Pte(false, 0, false, false)

  datatype Content =
    | Directory(pdes: seq<Pde>)
    | Table(ptes: seq<Pte>)
    | Page(bytes: seq<int>)

  // A page table entry is identified by where it lies: its table's frame and its index.
  type PtePtr = (Frame, nat)

  datatype Sys = Sys(
    dirs: map<Pid, Frame>,
    phys: map<Frame, Content>,
    swap: map<PtePtr, seq<int>>,
    free: set<Frame>
  )

  // What a frame is in use for.
  datatype Owner = DirOf(p: Pid) | TabOf(p: Pid, i: nat) | PageOf(p: Pid, i: nat, j: nat)
  type Owners = map<Frame, Owner>

  // ---------- walking ----------

  function PdeAt(s: Sys, p: Pid, i: nat): Pde {
    if p in s.dirs && s.dirs[p] in s.phys && s.phys[s.dirs[p]].Directory? && i < |s.phys[s.dirs[p]].pdes|
    then s.phys[s.dirs[p]].pdes[i]
    else NO_PDE
  }

  function PteIn(s: Sys, f: Frame, j: nat): Pte {
    if f in s.phys && s.phys[f].Table? && j < |s.phys[f].ptes| then s.phys[f].ptes[j] else NO_PTE
  }

  function PteAt(s: Sys, p: Pid, i: nat, j: nat): Pte {
    if PdeAt(s, p, i).present then PteIn(s, PdeAt(s, p, i).base, j) else NO_PTE
  }

  // What process p sees in its page (i, j): the frame when the page is present, else the
  // swap file, else nothing yet.
  ghost function PageView(s: Sys, p: Pid, i: nat, j: nat): Option<seq<int>> {
    var d, e := PdeAt(s, p, i), PteAt(s, p, i, j);
    if !d.present then None
    else if e.present then
      if e.base in s.phys && s.phys[e.base].Page? then Some(s.phys[e.base].bytes) else None
    else if (d.base, j) in s.swap then Some(s.swap[(d.base, j)])
    else None
  }

  // ---------- the invariant ----------

  ghost predicate DirOk(s: Sys, own: Owners, p: Pid)
    requires p in s.dirs
  {
    var f := s.dirs[p];
    && f in own && own[f] == DirOf(p)
    && f in s.phys && s.phys[f].Directory? && |s.phys[f].pdes| == NUM_ENTRIES
  }

  ghost predicate TabOk(s: Sys, own: Owners, p: Pid, i: nat) {
    PdeAt(s, p, i).present ==>
      var f := PdeAt(s, p, i).base;
      && f in own && own[f] == TabOf(p, i)
      && f in s.phys && s.phys[f].Table? && |s.phys[f].ptes| == NUM_ENTRIES
  }

  ghost predicate PageOk(s: Sys, own: Owners, p: Pid, i: nat, j: nat) {
    PteAt(s, p, i, j).present ==>
      var f := PteAt(s, p, i, j).base;
      && f in own && own[f] == PageOf(p, i, j)
      && f in s.phys && s.phys[f].Page? && |s.phys[f].bytes| == PAGE_SIZE
  }

  // The slot that o names holds the frame f.
  ghost predicate OwnerOk(s: Sys, o: Owner, f: Frame) {
    match o
    case DirOf(p) => p in s.dirs && s.dirs[p] == f
    case TabOf(p, i) => PdeAt(s, p, i).present && PdeAt(s, p, i).base == f
    case PageOf(p, i, j) => PteAt(s, p, i, j).present && PteAt(s, p, i, j).base == f
  }

  ghost predicate SwapOk(s: Sys, own: Owners, k: PtePtr)
    requires k in s.swap
  {
    k.0 in own && own[k.0].TabOf? && k.1 < NUM_ENTRIES && |s.swap[k]| == PAGE_SIZE
  }

  // Every frame is free or owned by exactly one directory slot, present PDE or present PTE.
  ghost predicate Inv(s: Sys, own: Owners, pool: set<Frame>) {
    && (forall p | p in s.dirs :: DirOk(s, own, p))
    && (forall p, i: nat :: TabOk(s, own, p, i))
    && (forall p, i: nat, j: nat :: PageOk(s, own, p, i, j))
    && (forall f | f in own :: OwnerOk(s, own[f], f))
    && (forall k | k in s.swap :: SwapOk(s, own, k))
    && s.phys.Keys == own.Keys
    && own.Keys !! s.free
    && own.Keys + s.free == pool
  }

  // Pages that existed look the same.
  ghost predicate ViewsKept(s: Sys, s': Sys) {
    forall p: Pid, i: nat, j: nat :: PageView(s', p, i, j) == PageView(s, p, i, j)
  }

  // ---------- counting frames ----------

  // The present directory entries.
  ghost function Tables(s: Sys): set<(Pid, nat)> {
    set p, i | p in s.dirs && 0 <= i < NUM_ENTRIES && PdeAt(s, p, i).present :: (p, i)
  }

  // The frames that hold no directory and no table: all that pages can have.
  ghost function Spare(s: Sys, pool: set<Frame>): int {
    |pool| - |s.dirs| - |Tables(s)|
  }

  ghost function Pinned(own: Owners): set<Frame> {
    set f | f in own && !own[f].PageOf?
  }

  ghost function DirSlots(s: Sys): set<Owner> {
    set p | p in s.dirs :: DirOf(p)
  }

  ghost function TabSlots(s: Sys): set<Owner> {
    set t | t in Tables(s) :: TabOf(t.0, t.1)
  }

  // What directories and tables there are decides how many frames they take.
  lemma PinnedSize(s: Sys, own: Owners, pool: set<Frame>)
    requires Inv(s, own, pool)
    ensures |Pinned(own)| == |s.dirs| + |Tables(s)|
  {
    var dirs, tabs := DirSlots(s), TabSlots(s);
    DirSlotsSize(s);
    TabSlotsSize(s);
    PinnedPairs(s, own, pool);
    hide Inv, DirSlots, TabSlots, Tables, Pinned;
    PairsSize(Pinned(own), dirs + tabs, own);
    assert dirs * tabs == {} by { SlotsDiffer(s); }
  }

  lemma SlotsDiffer(s: Sys)
    ensures DirSlots(s) * TabSlots(s) == {}
  {
  }

  lemma DirSlotsSize(s: Sys)
    ensures |DirSlots(s)| == |s.dirs|
  {
    var r := map p | p in s.dirs :: DirOf(p);
    forall z | z in DirSlots(s)
      ensures exists p :: p in s.dirs.Keys && r[p] == z
    {
      var p :| p in s.dirs && DirOf(p) == z;
      assert p in s.dirs.Keys && r[p] == z;
    }
    assert forall x, y | x in s.dirs.Keys && y in s.dirs.Keys && r[x] == r[y] :: x == y;
    PairsSize(s.dirs.Keys, DirSlots(s), r);
  }

  lemma TabSlotsSize(s: Sys)
    ensures |TabSlots(s)| == |Tables(s)|
  {
    hide Tables;
    var r := map t | t in Tables(s) :: TabOf(t.0, t.1);
    forall z | z in TabSlots(s)
      ensures exists t :: t in Tables(s) && r[t] == z
    {
      var t :| t in Tables(s) && TabOf(t.0, t.1) == z;
      assert t in Tables(s) && r[t] == z;
    }
    forall t, u | t in Tables(s) && u in Tables(s) && r[t] == r[u]
      ensures t == u
    {
      assert t.0 == u.0 && t.1 == u.1;
    }
    PairsSize(Tables(s), TabSlots(s), r);
  }

  lemma PinnedPairs(s: Sys, own: Owners, pool: set<Frame>)
    requires Inv(s, own, pool)
    ensures Pairs(Pinned(own), DirSlots(s) + TabSlots(s), own)
  {
    hide PdeAt, PteAt;
    forall f | f in Pinned(own)
      ensures own[f] in DirSlots(s) + TabSlots(s)
    {
      PinnedSlot(s, own, pool, f);
    }
    forall f, g | f in Pinned(own) && g in Pinned(own) && own[f] == own[g]
      ensures f == g
    {
      assert OwnerOk(s, own[f], f) && OwnerOk(s, own[g], g);
    }
    forall o | o in DirSlots(s) + TabSlots(s)
      ensures exists f :: f in Pinned(own) && own[f] == o
    {
      SlotPinned(s, own, pool, o);
    }
  }

  lemma PinnedSlot(s: Sys, own: Owners, pool: set<Frame>, f: Frame)
    requires Inv(s, own, pool) && f in Pinned(own)
    ensures own[f] in DirSlots(s) + TabSlots(s)
  {
    assert OwnerOk(s, own[f], f);
    if own[f].TabOf? {
      TableInRange(s, own, pool, own[f].p, own[f].i);
      assert TabOf((own[f].p, own[f].i).0, (own[f].p, own[f].i).1) in TabSlots(s);
    }
  }

  lemma SlotPinned(s: Sys, own: Owners, pool: set<Frame>, o: Owner)
    requires Inv(s, own, pool) && o in DirSlots(s) + TabSlots(s)
    ensures exists f :: f in Pinned(own) && own[f] == o
  {
    if o.DirOf? {
      assert o.p in s.dirs && DirOk(s, own, o.p);
      assert s.dirs[o.p] in Pinned(own) && own[s.dirs[o.p]] == o;
    } else {
      var t :| t in Tables(s) && TabOf(t.0, t.1) == o;
      assert TabOk(s, own, t.0, t.1);
      var f := PdeAt(s, t.0, t.1).base;
      assert f in Pinned(own) && own[f] == o;
    }
  }

  lemma TableInRange(s: Sys, own: Owners, pool: set<Frame>, p: Pid, i: nat)
    requires Inv(s, own, pool) && PdeAt(s, p, i).present
    ensures p in s.dirs && i < NUM_ENTRIES && (p, i) in Tables(s)
  {
    assert DirOk(s, own, p);
  }

  // Directories, tables and pages have room in the pool; a free frame is a spare one.
  lemma SpareFrames(s: Sys, own: Owners, pool: set<Frame>)
    requires Inv(s, own, pool)
    ensures Spare(s, pool) >= 0
    ensures s.free != {} ==> Spare(s, pool) > 0
    ensures forall p: Pid, i: nat, j: nat | PteAt(s, p, i, j).present :: Spare(s, pool) > 0
    // with none free and no page in memory, there is none to spare
    ensures s.free == {} && (forall t, j | t in s.phys :: !PteIn(s, t, j).present) ==> Spare(s, pool) == 0
  {
    PinnedSize(s, own, pool);
    var pins := Pinned(own);
    assert pins <= pool;
    SubsetSize(pins, pool);
    if s.free != {} {
      assert pins != pool;
    }
    forall p: Pid, i: nat, j: nat | PteAt(s, p, i, j).present
      ensures Spare(s, pool) > 0
    {
      assert PageOk(s, own, p, i, j);
      assert PteAt(s, p, i, j).base in pool - pins;
    }
    if s.free == {} && forall t, j | t in s.phys :: !PteIn(s, t, j).present {
      forall f | f in own
        ensures !own[f].PageOf?
      {
        if own[f].PageOf? {
          PageOwnerPresent(s, own, pool, f);
        }
      }
      assert pins == own.Keys == pool;
    }
  }

  lemma PageOwnerPresent(s: Sys, own: Owners, pool: set<Frame>, f: Frame)
    requires Inv(s, own, pool) && f in own && own[f].PageOf?
    ensures exists t, j :: t in s.phys && PteIn(s, t, j).present
  {
    var o := own[f];
    assert OwnerOk(s, o, f);
    assert TabOk(s, own, o.p, o.i);
    assert PteIn(s, PdeAt(s, o.p, o.i).base, o.j).present;
  }

  // ---------- changing one thing ----------

  // The entry of p's directory at i now points to table f.
  function SetPde(s: Sys, p: Pid, i: nat, d: Pde): Sys
    requires p in s.dirs && s.dirs[p] in s.phys && s.phys[s.dirs[p]].Directory? && i < |s.phys[s.dirs[p]].pdes|
  {
    var f := s.dirs[p];
    s.(phys := s.phys[f := Directory(s.phys[f].pdes[i := d])])
  }

  function SetPte(s: Sys, at: PtePtr, e: Pte): Sys
    requires at.0 in s.phys && s.phys[at.0].Table? && at.1 < |s.phys[at.0].ptes|
  {
    s.(phys := s.phys[at.0 := Table(s.phys[at.0].ptes[at.1 := e])])
  }

  // The kernel hands out the free frame f with content c.
  function Hand(s: Sys, f: Frame, c: Content): Sys {
    s.(phys := s.phys[f := c], free := s.free - {f})
  }

  lemma WalkAfterSetPte(s: Sys, own: Owners, pool: set<Frame>, p: Pid, i: nat, j: nat, e: Pte)
    requires Inv(s, own, pool)
    requires PdeAt(s, p, i).present && j < NUM_ENTRIES
    ensures PdeAt(s, p, i).base in s.phys && s.phys[PdeAt(s, p, i).base].Table?
    ensures j < |s.phys[PdeAt(s, p, i).base].ptes|
    ensures var s' := SetPte(s, (PdeAt(s, p, i).base, j), e);
            && (forall q: Pid, k: nat :: PdeAt(s', q, k) == PdeAt(s, q, k))
            && (forall q: Pid, k: nat, l: nat ::
                  PteAt(s', q, k, l) == if q == p && k == i && l == j then e else PteAt(s, q, k, l))
  {
    var f := PdeAt(s, p, i).base;
    assert TabOk(s, own, p, i);
    var s' := SetPte(s, (f, j), e);
    forall q: Pid, k: nat
      ensures PdeAt(s', q, k) == PdeAt(s, q, k)
    {
      assert q in s.dirs ==> DirOk(s, own, q);
    }
    forall q: Pid, k: nat, l: nat
      ensures PteAt(s', q, k, l) == if q == p && k == i && l == j then e else PteAt(s, q, k, l)
    {
      assert TabOk(s, own, q, k);
    }
  }

  lemma WalkAfterHand(s: Sys, own: Owners, pool: set<Frame>, f: Frame, c: Content)
    requires Inv(s, own, pool)
    requires f in s.free
    ensures var s' := Hand(s, f, c);
            && (forall q: Pid, k: nat :: PdeAt(s', q, k) == PdeAt(s, q, k))
            && (forall q: Pid, k: nat, l: nat :: PteAt(s', q, k, l) == PteAt(s, q, k, l))
            && f !in own && f !in s.phys
  {
    var s' := Hand(s, f, c);
    forall q: Pid, k: nat
      ensures PdeAt(s', q, k) == PdeAt(s, q, k)
    {
      assert q in s.dirs ==> DirOk(s, own, q);
    }
    forall q: Pid, k: nat, l: nat
      ensures PteAt(s', q, k, l) == PteAt(s, q, k, l)
    {
      assert TabOk(s, own, q, k);
    }
  }
}
