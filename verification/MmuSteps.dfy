/**
 * The ways frames change hands in ideal_indirection/mmu.c and in the kernel below it. Each
 * keeps the ownership of frames exclusive and complete, and says whose view of which page
 * changes.
 *
 * The kernel is known only by this contract: it hands out frames that nobody owns, zeroed
 * when they are to hold a directory or a table; it may save a page to its swap file and
 * take the frame; it never takes a directory or a table.
 */
module MmuSteps {
  import opened Basics
  import opened MmuModel

  function Zeroed<E>(e: E, n: nat): (r: seq<E>)
    ensures |r| == n && forall k | 0 <= k < n :: r[k] == e
  {
    if n == 0 then [] else [e] + Zeroed(e, n - 1)
  }

  const NEW_DIRECTORY: Content := Directory(Zeroed(NO_PDE, NUM_ENTRIES))
  const NEW_TABLE: Content := Table(Zeroed(NO_PTE, NUM_ENTRIES))

  // A page whose entry is the same looks the same, unless f is the frame it is in.
  lemma ViewElsewhere(s: Sys, s': Sys, own: Owners, pool: set<Frame>, q: Pid, k: nat, l: nat, f: Frame)
    requires Inv(s, own, pool)
    requires PdeAt(s', q, k) == PdeAt(s, q, k) && PteAt(s', q, k, l) == PteAt(s, q, k, l)
    requires PdeAt(s, q, k).present ==> SameSave(s, s', (PdeAt(s, q, k).base, l))
    requires f in own ==> own[f] != PageOf(q, k, l)
    requires forall g | g in s.phys && g != f && s.phys[g].Page? :: g in s'.phys && s'.phys[g] == s.phys[g]
    ensures PageView(s', q, k, l) == PageView(s, q, k, l)
  {
    hide PdeAt, PteAt;
    assert PageOk(s, own, q, k, l);
  }

  ghost predicate SameSave(s: Sys, s': Sys, at: PtePtr) {
    (at in s'.swap <==> at in s.swap) && (at in s.swap ==> s'.swap[at] == s.swap[at])
  }

  // ---------- eviction ----------

  ghost predicate Evictable(s: Sys, p: Pid, i: nat, j: nat) {
    && PteAt(s, p, i, j).present
    && j < NUM_ENTRIES
  }

  // The page's bytes go to its swap file and its frame back to the kernel.
  function Evict(s: Sys, at: PtePtr): Sys
    requires at.0 in s.phys && s.phys[at.0].Table? && at.1 < |s.phys[at.0].ptes|
    requires PteIn(s, at.0, at.1).base in s.phys && s.phys[PteIn(s, at.0, at.1).base].Page?
  {
    var e := PteIn(s, at.0, at.1);
    var s1 := SetPte(s, at, e.(present := false));
    s1.(phys := s1.phys - {e.base}, swap := s.swap[at := s.phys[e.base].bytes], free := s.free + {e.base})
  }

  lemma EvictReady(s: Sys, own: Owners, pool: set<Frame>, p: Pid, i: nat, j: nat)
    requires Inv(s, own, pool)
    requires Evictable(s, p, i, j)
    ensures var f := PdeAt(s, p, i).base;
            && PdeAt(s, p, i).present
            && f in s.phys && s.phys[f].Table? && j < |s.phys[f].ptes|
            && PteIn(s, f, j) == PteAt(s, p, i, j)
            && PteIn(s, f, j).base in s.phys && s.phys[PteIn(s, f, j).base].Page?
            && PteIn(s, f, j).base in own && own[PteIn(s, f, j).base] == PageOf(p, i, j)
            && f in own && own[f] == TabOf(p, i)
            && |s.phys[PteIn(s, f, j).base].bytes| == PAGE_SIZE
  {
    assert TabOk(s, own, p, i) && PageOk(s, own, p, i, j);
  }

  lemma WalkAfterEvict(s: Sys, own: Owners, pool: set<Frame>, p: Pid, i: nat, j: nat)
    requires Inv(s, own, pool)
    requires Evictable(s, p, i, j)
    ensures PdeAt(s, p, i).base in s.phys && s.phys[PdeAt(s, p, i).base].Table?
    ensures j < |s.phys[PdeAt(s, p, i).base].ptes|
    ensures PteIn(s, PdeAt(s, p, i).base, j).base in s.phys && s.phys[PteIn(s, PdeAt(s, p, i).base, j).base].Page?
    ensures var e := PteAt(s, p, i, j);
            var s' := Evict(s, (PdeAt(s, p, i).base, j));
            && (forall q: Pid, k: nat :: PdeAt(s', q, k) == PdeAt(s, q, k))
            && (forall q: Pid, k: nat, l: nat ::
                  PteAt(s', q, k, l) == if q == p && k == i && l == j then e.(present := false) else PteAt(s, q, k, l))
  {
    EvictReady(s, own, pool, p, i, j);
    var e := PteAt(s, p, i, j);
    var at := (PdeAt(s, p, i).base, j);
    WalkAfterSetPte(s, own, pool, p, i, j, e.(present := false));
    var s1, s' := SetPte(s, at, e.(present := false)), Evict(s, at);
    forall q: Pid, k: nat
      ensures PdeAt(s', q, k) == PdeAt(s, q, k)
    {
      assert q in s.dirs ==> DirOk(s, own, q);
      assert PdeAt(s1, q, k) == PdeAt(s, q, k);
    }
    forall q: Pid, k: nat, l: nat
      ensures PteAt(s', q, k, l) == PteAt(s1, q, k, l)
    {
      assert TabOk(s, own, q, k);
      assert PdeAt(s', q, k) == PdeAt(s, q, k) == PdeAt(s1, q, k);
    }
  }

  lemma EvictKeeps(s: Sys, own: Owners, pool: set<Frame>, p: Pid, i: nat, j: nat)
    requires Inv(s, own, pool)
    requires Evictable(s, p, i, j)
    requires PdeAt(s, p, i).base in s.phys && s.phys[PdeAt(s, p, i).base].Table?
    requires j < |s.phys[PdeAt(s, p, i).base].ptes|
    requires PteIn(s, PdeAt(s, p, i).base, j).base in s.phys && s.phys[PteIn(s, PdeAt(s, p, i).base, j).base].Page?
    ensures var s' := Evict(s, (PdeAt(s, p, i).base, j));
            && Inv(s', own - {PteAt(s, p, i, j).base}, pool)
            && ViewsKept(s, s')
  {
    EvictReady(s, own, pool, p, i, j);
    WalkAfterEvict(s, own, pool, p, i, j);
    var s', own' := Evict(s, (PdeAt(s, p, i).base, j)), own - {PteAt(s, p, i, j).base};
    EvictInv(s, s', own, own', pool, p, i, j);
    EvictViews(s, s', own, pool, p, i, j);
  }

  lemma EvictViews(s: Sys, s': Sys, own: Owners, pool: set<Frame>, p: Pid, i: nat, j: nat)
    requires Inv(s, own, pool)
    requires Evictable(s, p, i, j)
    requires PdeAt(s, p, i).base in s.phys && s.phys[PdeAt(s, p, i).base].Table?
    requires j < |s.phys[PdeAt(s, p, i).base].ptes|
    requires PteIn(s, PdeAt(s, p, i).base, j).base in s.phys && s.phys[PteIn(s, PdeAt(s, p, i).base, j).base].Page?
    requires s' == Evict(s, (PdeAt(s, p, i).base, j))
    ensures ViewsKept(s, s')
  {
    EvictReady(s, own, pool, p, i, j);
    WalkAfterEvict(s, own, pool, p, i, j);
    assert PageView(s', p, i, j) == PageView(s, p, i, j);
    forall q: Pid, k: nat, l: nat | q != p || k != i || l != j
      ensures PdeAt(s, q, k).present ==> SameSave(s, s', (PdeAt(s, q, k).base, l))
    {
      assert TabOk(s, own, q, k);
    }
    hide Inv, PdeAt, PteAt, PageView;
    forall q: Pid, k: nat, l: nat | q != p || k != i || l != j
      ensures PageView(s', q, k, l) == PageView(s, q, k, l)
    {
      ViewElsewhere(s, s', own, pool, q, k, l, PteAt(s, p, i, j).base);
    }
  }

  // s' is s after the eviction of page (i, j) of p.
  ghost predicate Evicting(s: Sys, s': Sys, own: Owners, own': Owners, pool: set<Frame>, p: Pid, i: nat, j: nat) {
    && Inv(s, own, pool)
    && Evictable(s, p, i, j)
    && PdeAt(s, p, i).base in s.phys && s.phys[PdeAt(s, p, i).base].Table?
    && j < |s.phys[PdeAt(s, p, i).base].ptes|
    && PteIn(s, PdeAt(s, p, i).base, j).base in s.phys && s.phys[PteIn(s, PdeAt(s, p, i).base, j).base].Page?
    && s' == Evict(s, (PdeAt(s, p, i).base, j)) && own' == own - {PteAt(s, p, i, j).base}
    && (forall q: Pid, k: nat :: PdeAt(s', q, k) == PdeAt(s, q, k))
    && (forall q: Pid, k: nat, l: nat ::
          PteAt(s', q, k, l) == if q == p && k == i && l == j then PteAt(s, p, i, j).(present := false)
                                else PteAt(s, q, k, l))
  }

  lemma EvictInv(s: Sys, s': Sys, own: Owners, own': Owners, pool: set<Frame>, p: Pid, i: nat, j: nat)
    requires Evicting(s, s', own, own', pool, p, i, j)
    ensures Inv(s', own', pool)
  {
    EvictReady(s, own, pool, p, i, j);
    EvictPages(s, s', own, own', pool, p, i, j);
    EvictSlots(s, s', own, own', pool, p, i, j);
    forall q | q in s'.dirs
      ensures DirOk(s', own', q)
    {
      assert DirOk(s, own, q);
    }
    forall k | k in s'.swap
      ensures SwapOk(s', own', k)
    {
      assert k in s.swap ==> SwapOk(s, own, k);
    }
  }

  lemma EvictPages(s: Sys, s': Sys, own: Owners, own': Owners, pool: set<Frame>, p: Pid, i: nat, j: nat)
    requires Evicting(s, s', own, own', pool, p, i, j)
    ensures forall q: Pid, k: nat :: TabOk(s', own', q, k)
    ensures forall q: Pid, k: nat, l: nat :: PageOk(s', own', q, k, l)
  {
    EvictReady(s, own, pool, p, i, j);
    forall q: Pid, k: nat
      ensures TabOk(s', own', q, k)
    {
      assert TabOk(s, own, q, k);
    }
    forall q: Pid, k: nat, l: nat
      ensures PageOk(s', own', q, k, l)
    {
      assert PageOk(s, own, q, k, l);
    }
  }

  lemma EvictSlots(s: Sys, s': Sys, own: Owners, own': Owners, pool: set<Frame>, p: Pid, i: nat, j: nat)
    requires Evicting(s, s', own, own', pool, p, i, j)
    ensures forall f | f in own' :: OwnerOk(s', own'[f], f)
  {
    EvictReady(s, own, pool, p, i, j);
    forall f | f in own'
      ensures OwnerOk(s', own'[f], f)
    {
      assert OwnerOk(s, own[f], f);
    }
  }

  // ---------- a directory for a new process ----------

  function AddDir(s: Sys, p: Pid, f: Frame): Sys {
    Hand(s, f, NEW_DIRECTORY).(dirs := s.dirs[p := f])
  }

  lemma AddDirKeeps(s: Sys, own: Owners, pool: set<Frame>, p: Pid, f: Frame)
    requires Inv(s, own, pool)
    requires p !in s.dirs && f in s.free
    ensures Inv(AddDir(s, p, f), own[f := DirOf(p)], pool)
    ensures ViewsKept(s, AddDir(s, p, f))
    ensures forall q: Pid, k: nat :: PdeAt(AddDir(s, p, f), q, k) == PdeAt(s, q, k)
  {
    WalkAfterHand(s, own, pool, f, NEW_DIRECTORY);
    var s1, s', own' := Hand(s, f, NEW_DIRECTORY), AddDir(s, p, f), own[f := DirOf(p)];
    forall q: Pid, k: nat
      ensures PdeAt(s', q, k) == PdeAt(s1, q, k)
    {
      assert q in s.dirs ==> DirOk(s, own, q);
    }
    forall q: Pid, k: nat, l: nat
      ensures PteAt(s', q, k, l) == PteAt(s, q, k, l)
    {
      assert PdeAt(s', q, k) == PdeAt(s1, q, k);
      assert PteAt(s1, q, k, l) == PteAt(s, q, k, l);
    }
    AddDirInv(s, s', own, own', pool, p, f);
    SameWalkViews(s, s', own, own', pool);
  }

  lemma AddDirInv(s: Sys, s': Sys, own: Owners, own': Owners, pool: set<Frame>, p: Pid, f: Frame)
    requires Inv(s, own, pool)
    requires p !in s.dirs && f in s.free
    requires s' == AddDir(s, p, f) && own' == own[f := DirOf(p)]
    requires forall q: Pid, k: nat :: PdeAt(s', q, k) == PdeAt(s, q, k)
    requires forall q: Pid, k: nat, l: nat :: PteAt(s', q, k, l) == PteAt(s, q, k, l)
    ensures Inv(s', own', pool)
  {
    assert f !in own && f !in s.phys;
    forall q | q in s'.dirs
      ensures DirOk(s', own', q)
    {
      assert q in s.dirs ==> DirOk(s, own, q);
    }
    forall q: Pid, k: nat
      ensures TabOk(s', own', q, k)
    {
      assert TabOk(s, own, q, k);
    }
    forall q: Pid, k: nat, l: nat
      ensures PageOk(s', own', q, k, l)
    {
      assert PageOk(s, own, q, k, l);
    }
    forall g | g in own'
      ensures OwnerOk(s', own'[g], g)
    {
      assert g in own ==> OwnerOk(s, own[g], g);
    }
    forall k | k in s'.swap
      ensures SwapOk(s', own', k)
    {
      assert SwapOk(s, own, k);
    }
  }

  lemma SameWalkViews(s: Sys, s': Sys, own: Owners, own': Owners, pool: set<Frame>)
    requires Inv(s, own, pool)
    requires s'.swap == s.swap
    requires forall q: Pid, k: nat :: PdeAt(s', q, k) == PdeAt(s, q, k)
    requires forall q: Pid, k: nat, l: nat :: PteAt(s', q, k, l) == PteAt(s, q, k, l)
    requires forall g | g in s.phys :: g in s'.phys && s'.phys[g] == s.phys[g]
    ensures ViewsKept(s, s')
  {
    forall q: Pid, k: nat, l: nat
      ensures PageView(s', q, k, l) == PageView(s, q, k, l)
    {
      assert PageOk(s, own, q, k, l);
    }
  }

  // ---------- a table for a directory entry ----------

  function AddTable(s: Sys, p: Pid, i: nat, f: Frame): Sys
    requires p in s.dirs && s.dirs[p] != f
    requires s.dirs[p] in s.phys && s.phys[s.dirs[p]].Directory? && i < |s.phys[s.dirs[p]].pdes|
  {
    SetPde(Hand(s, f, NEW_TABLE), p, i, Pde(true, f))
  }

  lemma AddTableKeeps(s: Sys, own: Owners, pool: set<Frame>, p: Pid, i: nat, f: Frame)
    requires Inv(s, own, pool)
    requires p in s.dirs && i < NUM_ENTRIES && !PdeAt(s, p, i).present && f in s.free
    ensures s.dirs[p] != f && s.dirs[p] in s.phys && s.phys[s.dirs[p]].Directory? && i < |s.phys[s.dirs[p]].pdes|
    ensures var s' := AddTable(s, p, i, f);
            && Inv(s', own[f := TabOf(p, i)], pool)
            && ViewsKept(s, s')
            && (forall q: Pid, k: nat :: PdeAt(s', q, k) == if q == p && k == i then Pde(true, f) else PdeAt(s, q, k))
  {
    assert DirOk(s, own, p);
    var s', own' := AddTable(s, p, i, f), own[f := TabOf(p, i)];
    AddTableWalk(s, own, pool, p, i, f);
    AddTableInv(s, s', own, own', pool, p, i, f);
    forall q: Pid, k: nat, l: nat
      ensures PageView(s', q, k, l) == PageView(s, q, k, l)
    {
      assert (f, l) in s.swap ==> SwapOk(s, own, (f, l));
      assert PageOk(s, own, q, k, l);
    }
  }

  lemma AddTableWalk(s: Sys, own: Owners, pool: set<Frame>, p: Pid, i: nat, f: Frame)
    requires Inv(s, own, pool)
    requires p in s.dirs && i < NUM_ENTRIES && !PdeAt(s, p, i).present && f in s.free
    ensures DirOk(s, own, p) && s.dirs[p] != f
    ensures var s' := AddTable(s, p, i, f);
            && (forall q: Pid, k: nat :: PdeAt(s', q, k) == if q == p && k == i then Pde(true, f) else PdeAt(s, q, k))
            && (forall q: Pid, k: nat, l: nat :: PteAt(s', q, k, l).present ==> q != p || k != i)
            && (forall q: Pid, k: nat, l: nat :: q != p || k != i ==> PteAt(s', q, k, l) == PteAt(s, q, k, l))
            && (forall g | g in s.phys && g != s.dirs[p] :: s'.phys[g] == s.phys[g])
  {
    assert DirOk(s, own, p);
    var s' := AddTable(s, p, i, f);
    forall q: Pid, k: nat
      ensures PdeAt(s', q, k) == if q == p && k == i then Pde(true, f) else PdeAt(s, q, k)
    {
      assert q in s.dirs ==> DirOk(s, own, q);
    }
    forall q: Pid, k: nat, l: nat
      ensures q != p || k != i ==> PteAt(s', q, k, l) == PteAt(s, q, k, l)
      ensures PteAt(s', q, k, l).present ==> q != p || k != i
    {
      assert TabOk(s, own, q, k);
      assert PteIn(s', f, l) == NO_PTE;
    }
  }

  lemma AddTableInv(s: Sys, s': Sys, own: Owners, own': Owners, pool: set<Frame>, p: Pid, i: nat, f: Frame)
    requires Inv(s, own, pool)
    requires p in s.dirs && i < NUM_ENTRIES && !PdeAt(s, p, i).present && f in s.free
    requires DirOk(s, own, p) && s.dirs[p] != f
    requires s' == AddTable(s, p, i, f) && own' == own[f := TabOf(p, i)]
    requires forall q: Pid, k: nat :: PdeAt(s', q, k) == if q == p && k == i then Pde(true, f) else PdeAt(s, q, k)
    requires forall q: Pid, k: nat, l: nat :: PteAt(s', q, k, l).present ==> q != p || k != i
    requires forall q: Pid, k: nat, l: nat :: q != p || k != i ==> PteAt(s', q, k, l) == PteAt(s, q, k, l)
    ensures Inv(s', own', pool)
  {
    forall q | q in s'.dirs
      ensures DirOk(s', own', q)
    {
      assert DirOk(s, own, q);
    }
    forall q: Pid, k: nat
      ensures TabOk(s', own', q, k)
    {
      assert TabOk(s, own, q, k);
    }
    forall q: Pid, k: nat, l: nat
      ensures PageOk(s', own', q, k, l)
    {
      assert PageOk(s, own, q, k, l);
    }
    forall g | g in own'
      ensures OwnerOk(s', own'[g], g)
    {
      assert g in own ==> OwnerOk(s, own[g], g);
    }
    forall k | k in s'.swap
      ensures SwapOk(s', own', k)
    {
      assert SwapOk(s, own, k);
    }
  }

  // ---------- a frame for a page ----------

  // The absent page (i, j) gets frame f holding `bytes`; its other flags stay.
  function AddPage(s: Sys, at: PtePtr, f: Frame, bytes: seq<int>): Sys
    requires at.0 in s.phys && s.phys[at.0].Table? && at.1 < |s.phys[at.0].ptes| && at.0 != f
  {
    SetPte(Hand(s, f, Page(bytes)), at, PteIn(s, at.0, at.1).(present := true, base := f))
  }

  lemma AddPageKeeps(s: Sys, own: Owners, pool: set<Frame>, p: Pid, i: nat, j: nat, f: Frame, bytes: seq<int>)
    requires Inv(s, own, pool)
    requires PdeAt(s, p, i).present && j < NUM_ENTRIES && !PteAt(s, p, i, j).present
    requires f in s.free && |bytes| == PAGE_SIZE
    ensures var t := PdeAt(s, p, i).base;
            && t in s.phys && s.phys[t].Table? && j < |s.phys[t].ptes| && t != f
            && var s' := AddPage(s, (t, j), f, bytes);
               && Inv(s', own[f := PageOf(p, i, j)], pool)
               && (forall q: Pid, k: nat :: PdeAt(s', q, k) == PdeAt(s, q, k))
               && PteAt(s', p, i, j).present && PteAt(s', p, i, j).base == f
               && PageView(s', p, i, j) == Some(bytes)
               && (forall q: Pid, k: nat, l: nat | q != p || k != i || l != j ::
                     PageView(s', q, k, l) == PageView(s, q, k, l))
  {
    var t := PdeAt(s, p, i).base;
    assert TabOk(s, own, p, i);
    var s', own' := AddPage(s, (t, j), f, bytes), own[f := PageOf(p, i, j)];
    AddPageWalk(s, own, pool, p, i, j, f, bytes);
    AddPageInv(s, s', own, own', pool, p, i, j, f, bytes);
    AddPageViews(s, s', own, pool, p, i, j, f, bytes);
  }

  lemma AddPageViews(s: Sys, s': Sys, own: Owners, pool: set<Frame>, p: Pid, i: nat, j: nat, f: Frame, bytes: seq<int>)
    requires Inv(s, own, pool)
    requires PdeAt(s, p, i).present && j < NUM_ENTRIES && !PteAt(s, p, i, j).present
    requires f in s.free && f != PdeAt(s, p, i).base
    requires PdeAt(s, p, i).base in s.phys && s.phys[PdeAt(s, p, i).base].Table?
    requires j < |s.phys[PdeAt(s, p, i).base].ptes|
    requires s' == AddPage(s, (PdeAt(s, p, i).base, j), f, bytes)
    ensures PageView(s', p, i, j) == Some(bytes)
    ensures forall q: Pid, k: nat, l: nat | q != p || k != i || l != j :: PageView(s', q, k, l) == PageView(s, q, k, l)
  {
    AddPageWalk(s, own, pool, p, i, j, f, bytes);
    assert f !in own;
    assert PageView(s', p, i, j) == Some(bytes);
    hide Inv, PdeAt, PteAt, PageView;
    forall q: Pid, k: nat, l: nat | q != p || k != i || l != j
      ensures PageView(s', q, k, l) == PageView(s, q, k, l)
    {
      ViewElsewhere(s, s', own, pool, q, k, l, f);
    }
  }

  lemma AddPageWalk(s: Sys, own: Owners, pool: set<Frame>, p: Pid, i: nat, j: nat, f: Frame, bytes: seq<int>)
    requires Inv(s, own, pool)
    requires PdeAt(s, p, i).present && j < NUM_ENTRIES && f in s.free
    ensures var t := PdeAt(s, p, i).base;
            && t in s.phys && s.phys[t].Table? && j < |s.phys[t].ptes| && t != f
            && var s' := AddPage(s, (t, j), f, bytes);
               && (forall q: Pid, k: nat :: PdeAt(s', q, k) == PdeAt(s, q, k))
               && (forall q: Pid, k: nat, l: nat ::
                     PteAt(s', q, k, l) == if q == p && k == i && l == j
                                           then PteAt(s, p, i, j).(present := true, base := f) else PteAt(s, q, k, l))
  {
    var t := PdeAt(s, p, i).base;
    assert TabOk(s, own, p, i);
    var s' := AddPage(s, (t, j), f, bytes);
    forall q: Pid, k: nat
      ensures PdeAt(s', q, k) == PdeAt(s, q, k)
    {
      assert q in s.dirs ==> DirOk(s, own, q);
    }
    forall q: Pid, k: nat, l: nat
      ensures PteAt(s', q, k, l) == if q == p && k == i && l == j
                                    then PteAt(s, p, i, j).(present := true, base := f) else PteAt(s, q, k, l)
    {
      assert TabOk(s, own, q, k);
    }
  }

  lemma AddPageInv(s: Sys, s': Sys, own: Owners, own': Owners, pool: set<Frame>, p: Pid, i: nat, j: nat, f: Frame,
                   bytes: seq<int>)
    requires Inv(s, own, pool)
    requires PdeAt(s, p, i).present && j < NUM_ENTRIES && !PteAt(s, p, i, j).present
    requires f in s.free && |bytes| == PAGE_SIZE
    requires var t := PdeAt(s, p, i).base;
             && t in s.phys && s.phys[t].Table? && j < |s.phys[t].ptes| && t != f
             && s' == AddPage(s, (t, j), f, bytes)
    requires own' == own[f := PageOf(p, i, j)]
    requires forall q: Pid, k: nat :: PdeAt(s', q, k) == PdeAt(s, q, k)
    requires forall q: Pid, k: nat, l: nat ::
               PteAt(s', q, k, l) == if q == p && k == i && l == j
                                     then PteAt(s, p, i, j).(present := true, base := f) else PteAt(s, q, k, l)
    ensures Inv(s', own', pool)
  {
    assert TabOk(s, own, p, i);
    forall q | q in s'.dirs
      ensures DirOk(s', own', q)
    {
      assert DirOk(s, own, q);
    }
    forall q: Pid, k: nat
      ensures TabOk(s', own', q, k)
    {
      assert TabOk(s, own, q, k);
    }
    forall q: Pid, k: nat, l: nat
      ensures PageOk(s', own', q, k, l)
    {
      assert PageOk(s, own, q, k, l);
    }
    forall g | g in own'
      ensures OwnerOk(s', own'[g], g)
    {
      assert g in own ==> OwnerOk(s, own[g], g);
    }
    forall k | k in s'.swap
      ensures SwapOk(s', own', k)
    {
      assert SwapOk(s, own, k);
    }
  }

  // ---------- reading and writing a present page ----------

  function SetBytes(s: Sys, f: Frame, bytes: seq<int>): Sys {
    s.(phys := s.phys[f := Page(bytes)])
  }

  lemma SetBytesKeeps(s: Sys, own: Owners, pool: set<Frame>, p: Pid, i: nat, j: nat, bytes: seq<int>)
    requires Inv(s, own, pool)
    requires PteAt(s, p, i, j).present && |bytes| == PAGE_SIZE
    ensures var s' := SetBytes(s, PteAt(s, p, i, j).base, bytes);
            && Inv(s', own, pool)
            && (forall q: Pid, k: nat :: PdeAt(s', q, k) == PdeAt(s, q, k))
            && (forall q: Pid, k: nat, l: nat :: PteAt(s', q, k, l) == PteAt(s, q, k, l))
            && PageView(s', p, i, j) == Some(bytes)
            && (forall q: Pid, k: nat, l: nat | q != p || k != i || l != j ::
                  PageView(s', q, k, l) == PageView(s, q, k, l))
  {
    var s' := SetBytes(s, PteAt(s, p, i, j).base, bytes);
    SetBytesWalk(s, s', own, pool, p, i, j, bytes);
    SetBytesInv(s, s', own, pool, p, i, j, bytes);
    SetBytesViews(s, s', own, pool, p, i, j, bytes);
  }

  lemma SetBytesWalk(s: Sys, s': Sys, own: Owners, pool: set<Frame>, p: Pid, i: nat, j: nat, bytes: seq<int>)
    requires Inv(s, own, pool)
    requires PteAt(s, p, i, j).present && s' == SetBytes(s, PteAt(s, p, i, j).base, bytes)
    ensures forall q: Pid, k: nat :: PdeAt(s', q, k) == PdeAt(s, q, k)
    ensures forall q: Pid, k: nat, l: nat :: PteAt(s', q, k, l) == PteAt(s, q, k, l)
  {
    assert PageOk(s, own, p, i, j);
    forall q: Pid, k: nat
      ensures PdeAt(s', q, k) == PdeAt(s, q, k)
    {
      assert q in s.dirs ==> DirOk(s, own, q);
    }
    forall q: Pid, k: nat, l: nat
      ensures PteAt(s', q, k, l) == PteAt(s, q, k, l)
    {
      assert TabOk(s, own, q, k);
    }
  }

  lemma SetBytesInv(s: Sys, s': Sys, own: Owners, pool: set<Frame>, p: Pid, i: nat, j: nat, bytes: seq<int>)
    requires Inv(s, own, pool)
    requires PteAt(s, p, i, j).present && s' == SetBytes(s, PteAt(s, p, i, j).base, bytes) && |bytes| == PAGE_SIZE
    requires forall q: Pid, k: nat :: PdeAt(s', q, k) == PdeAt(s, q, k)
    requires forall q: Pid, k: nat, l: nat :: PteAt(s', q, k, l) == PteAt(s, q, k, l)
    ensures Inv(s', own, pool)
  {
    assert PageOk(s, own, p, i, j);
    SameSlotsInv(s, s', own, pool);
  }

  lemma SetBytesViews(s: Sys, s': Sys, own: Owners, pool: set<Frame>, p: Pid, i: nat, j: nat, bytes: seq<int>)
    requires Inv(s, own, pool)
    requires PteAt(s, p, i, j).present && s' == SetBytes(s, PteAt(s, p, i, j).base, bytes)
    requires forall q: Pid, k: nat :: PdeAt(s', q, k) == PdeAt(s, q, k)
    requires forall q: Pid, k: nat, l: nat :: PteAt(s', q, k, l) == PteAt(s, q, k, l)
    ensures PageView(s', p, i, j) == Some(bytes)
    ensures forall q: Pid, k: nat, l: nat | q != p || k != i || l != j :: PageView(s', q, k, l) == PageView(s, q, k, l)
  {
    assert PageOk(s, own, p, i, j);
    assert PageView(s', p, i, j) == Some(bytes);
    hide Inv, PdeAt, PteAt, PageView;
    forall q: Pid, k: nat, l: nat | q != p || k != i || l != j
      ensures PageView(s', q, k, l) == PageView(s, q, k, l)
    {
      ViewElsewhere(s, s', own, pool, q, k, l, PteAt(s, p, i, j).base);
    }
  }

  // Frames keep their kinds and slots keep their frames.
  lemma SameSlotsInv(s: Sys, s': Sys, own: Owners, pool: set<Frame>)
    requires Inv(s, own, pool)
    requires s'.dirs == s.dirs && s'.phys.Keys == s.phys.Keys && s'.free == s.free && s'.swap == s.swap
    requires forall f | f in s.phys :: SameKind(s.phys[f], s'.phys[f])
    requires forall q: Pid, k: nat :: PdeAt(s', q, k) == PdeAt(s, q, k)
    requires forall q: Pid, k: nat, l: nat :: SameSlot(PteAt(s', q, k, l), PteAt(s, q, k, l))
    ensures Inv(s', own, pool)
  {
    forall q | q in s'.dirs
      ensures DirOk(s', own, q)
    {
      assert DirOk(s, own, q);
    }
    forall q: Pid, k: nat
      ensures TabOk(s', own, q, k)
    {
      assert TabOk(s, own, q, k);
    }
    forall q: Pid, k: nat, l: nat
      ensures PageOk(s', own, q, k, l)
    {
      assert PageOk(s, own, q, k, l);
    }
    forall g | g in own
      ensures OwnerOk(s', own[g], g)
    {
      assert OwnerOk(s, own[g], g);
    }
    forall k | k in s'.swap
      ensures SwapOk(s', own, k)
    {
      assert SwapOk(s, own, k);
    }
  }

  ghost predicate SameKind(c: Content, c': Content) {
    match c
    case Directory(pdes) => c'.Directory? && |c'.pdes| == |pdes|
    case Table(ptes) => c'.Table? && |c'.ptes| == |ptes|
    case Page(bytes) => c'.Page? && |c'.bytes| == |bytes|
  }

  ghost predicate SameSlot(e: Pte, e': Pte) {
    e.present == e'.present && e.base == e'.base
  }

  // Setting `accessed` or `dirty` changes nothing anybody sees.
  lemma SetFlagsKeeps(s: Sys, own: Owners, pool: set<Frame>, p: Pid, i: nat, j: nat, e: Pte)
    requires Inv(s, own, pool)
    requires PdeAt(s, p, i).present && j < NUM_ENTRIES && SameSlot(e, PteAt(s, p, i, j))
    ensures var t := PdeAt(s, p, i).base;
            && t in s.phys && s.phys[t].Table? && j < |s.phys[t].ptes|
            && var s' := SetPte(s, (t, j), e);
               && Inv(s', own, pool) && ViewsKept(s, s')
               && (forall q: Pid, k: nat :: PdeAt(s', q, k) == PdeAt(s, q, k))
  {
    WalkAfterSetPte(s, own, pool, p, i, j, e);
    var s' := SetPte(s, (PdeAt(s, p, i).base, j), e);
    SameSlotsInv(s, s', own, pool);
    forall q: Pid, k: nat, l: nat
      ensures PageView(s', q, k, l) == PageView(s, q, k, l)
    {
      assert PageOk(s, own, q, k, l) && SameSlot(PteAt(s', q, k, l), PteAt(s, q, k, l));
    }
  }

  // ---------- the end of a process ----------

  // Frames of p that the loops of mmu_remove_process have returned once they have passed
  // all entries before (i, j).
  ghost predicate Passed(o: Owner, p: Pid, i: nat, j: nat) {
    match o
    case DirOf(q) => false
    case TabOf(q, k) => q == p && k < i
    case PageOf(q, k, l) => q == p && (k < i || (k == i && l < j))
  }

  ghost function Returned(own: Owners, p: Pid, i: nat, j: nat): set<Frame> {
    set f | f in own && Passed(own[f], p, i, j)
  }

  // Swap files removed by then.
  ghost function Unswapped(s: Sys, own: Owners, p: Pid, i: nat, j: nat): set<PtePtr> {
    set k | k in s.swap && k.0 in own && own[k.0].TabOf? && own[k.0].p == p
            && (own[k.0].i < i || (own[k.0].i == i && k.1 < j))
  }

  ghost function FramesOf(own: Owners, p: Pid): set<Frame> {
    set f | f in own && own[f].p == p
  }

  ghost function SwapsOf(s: Sys, own: Owners, p: Pid): set<PtePtr> {
    set k | k in s.swap && k.0 in own && own[k.0].p == p
  }

  // The system while the loops are at (i, j).
  ghost predicate Removing(s0: Sys, s: Sys, own: Owners, p: Pid, i: nat, j: nat) {
    var r := Returned(own, p, i, j);
    && s.dirs == s0.dirs
    && s.phys == s0.phys - r
    && s.free == s0.free + r
    && s.swap == s0.swap - Unswapped(s0, own, p, i, j)
  }

  ghost function Slot(present: bool, f: Frame): set<Frame> {
    if present then {f} else {}
  }

  // Passing entry (i, j) returns its page, if it has one, for the first time.
  lemma PassPage(s0: Sys, own: Owners, pool: set<Frame>, p: Pid, i: nat, j: nat)
    requires Inv(s0, own, pool)
    ensures var e := PteAt(s0, p, i, j);
            && (e.present ==>
                  e.base in own && e.base !in Returned(own, p, i, j) && e.base in s0.phys && e.base !in s0.free)
            && Returned(own, p, i, j + 1) == Returned(own, p, i, j) + Slot(e.present, e.base)
  {
    assert PageOk(s0, own, p, i, j);
    var e := PteAt(s0, p, i, j);
    forall f | f in own
      ensures f in Returned(own, p, i, j + 1) <==> f in Returned(own, p, i, j) + Slot(e.present, e.base)
    {
      assert OwnerOk(s0, own[f], f);
    }
  }

  lemma PassSwap(s0: Sys, own: Owners, pool: set<Frame>, p: Pid, i: nat, j: nat)
    requires Inv(s0, own, pool)
    requires PdeAt(s0, p, i).present
    ensures var at := (PdeAt(s0, p, i).base, j);
            Unswapped(s0, own, p, i, j + 1) == Unswapped(s0, own, p, i, j) + (if at in s0.swap then {at} else {})
  {
    var at := (PdeAt(s0, p, i).base, j);
    assert TabOk(s0, own, p, i);
    forall k | k in s0.swap
      ensures k in Unswapped(s0, own, p, i, j + 1) <==>
              k in Unswapped(s0, own, p, i, j) + (if at in s0.swap then {at} else {})
    {
      assert SwapOk(s0, own, k);
      assert OwnerOk(s0, own[k.0], k.0);
    }
  }

  // Passing row i returns its table, if it has one, after all its pages.
  lemma PassRow(s0: Sys, own: Owners, pool: set<Frame>, p: Pid, i: nat)
    requires Inv(s0, own, pool)
    ensures var d := PdeAt(s0, p, i);
            var j := if d.present then NUM_ENTRIES else 0;
            && (d.present ==>
                  d.base in own && d.base !in Returned(own, p, i, j) && d.base in s0.phys && d.base !in s0.free)
            && Returned(own, p, i + 1, 0) == Returned(own, p, i, j) + Slot(d.present, d.base)
            && Unswapped(s0, own, p, i + 1, 0) == Unswapped(s0, own, p, i, j)
  {
    assert TabOk(s0, own, p, i);
    var d := PdeAt(s0, p, i);
    var j := if d.present then NUM_ENTRIES else 0;
    forall f | f in own
      ensures f in Returned(own, p, i + 1, 0) <==> f in Returned(own, p, i, j) + Slot(d.present, d.base)
    {
      assert OwnerOk(s0, own[f], f);
    }
    forall k | k in s0.swap
      ensures k in Unswapped(s0, own, p, i + 1, 0) <==> k in Unswapped(s0, own, p, i, j)
    {
      assert SwapOk(s0, own, k);
      assert OwnerOk(s0, own[k.0], k.0);
    }
  }

  // After the last row only the directory itself is left to return.
  lemma PassAll(s0: Sys, own: Owners, pool: set<Frame>, p: Pid)
    requires Inv(s0, own, pool)
    requires p in s0.dirs
    ensures s0.dirs[p] in own && s0.dirs[p] !in Returned(own, p, NUM_ENTRIES, 0) && s0.dirs[p] !in s0.free
    ensures FramesOf(own, p) == Returned(own, p, NUM_ENTRIES, 0) + {s0.dirs[p]}
    ensures SwapsOf(s0, own, p) == Unswapped(s0, own, p, NUM_ENTRIES, 0)
  {
    assert DirOk(s0, own, p);
    forall f | f in own
      ensures f in FramesOf(own, p) <==> f in Returned(own, p, NUM_ENTRIES, 0) + {s0.dirs[p]}
    {
      assert OwnerOk(s0, own[f], f);
      assert f in FramesOf(own, p) && !own[f].DirOf? ==> PdeAt(s0, p, own[f].i).present;
      assert f in FramesOf(own, p) && own[f].DirOf? ==> f == s0.dirs[p];
    }
    forall k | k in s0.swap
      ensures k in SwapsOf(s0, own, p) <==> k in Unswapped(s0, own, p, NUM_ENTRIES, 0)
    {
      assert SwapOk(s0, own, k);
      assert OwnerOk(s0, own[k.0], k.0);
    }
  }

  // All of p's frames are free, its swap files gone, its directory forgotten.
  ghost function RemoveProcess(s: Sys, own: Owners, p: Pid): Sys {
    var r := FramesOf(own, p);
    Sys(s.dirs - {p}, s.phys - r, s.swap - SwapsOf(s, own, p), s.free + r)
  }

  lemma RemoveProcessWalk(s: Sys, own: Owners, pool: set<Frame>, p: Pid)
    requires Inv(s, own, pool)
    ensures var s' := RemoveProcess(s, own, p);
            && (forall q: Pid, k: nat :: PdeAt(s', q, k) == if q == p then NO_PDE else PdeAt(s, q, k))
            && (forall q: Pid, k: nat, l: nat :: PteAt(s', q, k, l) == if q == p then NO_PTE else PteAt(s, q, k, l))
  {
    var s' := RemoveProcess(s, own, p);
    forall q: Pid, k: nat
      ensures PdeAt(s', q, k) == if q == p then NO_PDE else PdeAt(s, q, k)
    {
      assert q in s.dirs ==> DirOk(s, own, q);
    }
    forall q: Pid, k: nat, l: nat
      ensures PteAt(s', q, k, l) == if q == p then NO_PTE else PteAt(s, q, k, l)
    {
      assert TabOk(s, own, q, k);
      assert PdeAt(s', q, k) == if q == p then NO_PDE else PdeAt(s, q, k);
    }
  }

  lemma RemoveProcessKeeps(s: Sys, own: Owners, pool: set<Frame>, p: Pid)
    requires Inv(s, own, pool)
    ensures var s' := RemoveProcess(s, own, p);
            && Inv(s', own - FramesOf(own, p), pool)
            && (forall i: nat, j: nat :: PageView(s', p, i, j) == None)
            && (forall q: Pid, i: nat, j: nat | q != p :: PageView(s', q, i, j) == PageView(s, q, i, j))
            && (forall q: Pid, k: nat | q != p :: PdeAt(s', q, k) == PdeAt(s, q, k))
  {
    var s', own' := RemoveProcess(s, own, p), own - FramesOf(own, p);
    RemoveProcessWalk(s, own, pool, p);
    RemoveProcessInv(s, s', own, own', pool, p);
    forall q: Pid, i: nat, j: nat | q != p
      ensures PageView(s', q, i, j) == PageView(s, q, i, j)
    {
      assert TabOk(s, own, q, i) && PageOk(s, own, q, i, j);
    }
  }

  lemma RemoveProcessInv(s: Sys, s': Sys, own: Owners, own': Owners, pool: set<Frame>, p: Pid)
    requires Inv(s, own, pool)
    requires s' == RemoveProcess(s, own, p) && own' == own - FramesOf(own, p)
    requires forall q: Pid, k: nat :: PdeAt(s', q, k) == if q == p then NO_PDE else PdeAt(s, q, k)
    requires forall q: Pid, k: nat, l: nat :: PteAt(s', q, k, l) == if q == p then NO_PTE else PteAt(s, q, k, l)
    ensures Inv(s', own', pool)
  {
    forall q | q in s'.dirs
      ensures DirOk(s', own', q)
    {
      assert DirOk(s, own, q);
    }
    forall q: Pid, k: nat
      ensures TabOk(s', own', q, k)
    {
      assert TabOk(s, own, q, k);
    }
    forall q: Pid, k: nat, l: nat
      ensures PageOk(s', own', q, k, l)
    {
      assert PageOk(s, own, q, k, l);
    }
    forall g | g in own'
      ensures OwnerOk(s', own'[g], g)
    {
      assert OwnerOk(s, own[g], g);
    }
    forall k | k in s'.swap
      ensures SwapOk(s', own', k)
    {
      assert SwapOk(s, own, k);
    }
  }
}
