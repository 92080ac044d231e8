/**
 * The memory management unit of ideal_indirection/mmu.c, with the kernel below it.
 *
 * A virtual address is split by arithmetic: page number va / 4096, directory entry
 * va / 2^22, table entry (va / 4096) % 1024, offset va % 4096. A frame handed out by the
 * kernel leaves `free` when its slot is filled, which is the very next thing that happens.
 * When the kernel has nothing left to hand out the call stops there (OutOfFrames).
 */
module Mmu {
  import opened Basics
  import opened MmuModel
  import opened MmuSteps

  datatype Segment = Segment(start: nat, end: nat, read: bool, write: bool)

  // Every process gets the same segments.
  const SEGMENTS: seq<Segment> := [
    Segment(0xBFFFE000, 0xC07FE000, true, true),    // stack
    Segment(0xC07FE000, 0xC07FE000, true, true),    // mmap
    Segment(0x08072000, 0x08072000, true, true),    // heap
    Segment(0x0805A000, 0x08072000, true, true),    // bss
    Segment(0x08052000, 0x0805A000, true, true),    // data
    Segment(0x08048000, 0x08052000, true, false),   // text
    Segment(PAGE_SIZE, 3 * PAGE_SIZE, true, true)   // testing
  ]

  const ADDRESSES: nat := 0x1_0000_0000

  function FindIn(segs: seq<Segment>, va: nat): (r: Option<Segment>)
    ensures r.Some? ==> r.value in segs && r.value.start <= va < r.value.end
    ensures r.None? ==> forall g | g in segs :: !(g.start <= va < g.end)
  {
    if segs == [] then None
    else if segs[0].start <= va < segs[0].end then Some(segs[0])
    else FindIn(segs[1..], va)
  }

  function FindSegment(va: nat): Option<Segment> {
    FindIn(SEGMENTS, va)
  }

  predicate Readable(va: nat) {
    FindSegment(va).Some? && FindSegment(va).value.read
  }

  predicate Writable(va: nat) {
    FindSegment(va).Some? && FindSegment(va).value.write
  }

  datatype Outcome<T> = Done(value: T) | SegFault | OutOfFrames

  function Vpn1(v: nat): nat { v / NUM_ENTRIES }
  function Vpn2(v: nat): nat { v % NUM_ENTRIES }

  ghost function ViewOf(s: Sys, p: Pid, v: nat): Option<seq<int>> {
    PageView(s, p, Vpn1(v), Vpn2(v))
  }

  ghost predicate OthersKept(s: Sys, s': Sys, p: Pid, v: nat) {
    forall q: Pid, k: nat, l: nat | q != p || k != Vpn1(v) || l != Vpn2(v) ::
      PageView(s', q, k, l) == PageView(s, q, k, l)
  }

  // Page v of p is there now, with its old content if it had any; nothing else differs.
  ghost predicate Touched(s: Sys, s': Sys, p: Pid, v: nat) {
    && OthersKept(s, s', p, v)
    && ViewOf(s', p, v).Some?
    && (ViewOf(s, p, v).Some? ==> ViewOf(s', p, v) == ViewOf(s, p, v))
  }

  ghost predicate PdesKept(s: Sys, s': Sys) {
    forall q: Pid, k: nat :: PdeAt(s, q, k).present ==> PdeAt(s', q, k) == PdeAt(s, q, k)
  }

  ghost predicate WalksKept(s: Sys, s': Sys) {
    s'.dirs == s.dirs && PdesKept(s, s')
  }

  // How many frames an access to page v needs besides the tables that are there: one for
  // the page, which may be another page's until then, and one for a missing table.
  ghost function Needed(s: Sys, p: Pid, v: nat): int {
    if PdeAt(s, p, Vpn1(v)).present then 1 else 2
  }

  // The access finds or gets the table of page v.
  ghost predicate TableSettled(s: Sys, room: int, p: Pid, v: nat) {
    PdeAt(s, p, Vpn1(v)).present || room > 0
  }

  ghost function Settled(s: Sys, room: int, p: Pid, v: nat): set<(Pid, nat)> {
    if TableSettled(s, room, p, v) then {(p, Vpn1(v))} else {}
  }

  // The table an access to address va finds or gets, the TLB misses and the page faults it
  // counts.
  ghost function Reached(s: Sys, room: int, p: Pid, va: nat): set<(Pid, nat)> {
    if FindSegment(va).None? then {} else Settled(s, room, p, va / PAGE_SIZE)
  }

  ghost function Misses(currPid: Pid, tlb: map<nat, PtePtr>, p: Pid, va: nat): nat {
    if FindSegment(va).None? || (currPid == p && va / PAGE_SIZE in tlb) then 0 else 1
  }

  ghost function Faults(s: Sys, room: int, p: Pid, va: nat): nat {
    var v := va / PAGE_SIZE;
    if FindSegment(va).None? then 0
    else (if PdeAt(s, p, Vpn1(v)).present then 0 else 1)
         + if TableSettled(s, room, p, v) && !PteAt(s, p, Vpn1(v), Vpn2(v)).present then 1 else 0
  }

  // An access to the page now counts no miss and no page fault.
  ghost predicate FreeOfCharge(s: Sys, currPid: Pid, tlb: map<nat, PtePtr>, p: Pid, v: nat) {
    && currPid == p && v in tlb
    && PdeAt(s, p, Vpn1(v)).present && PteAt(s, p, Vpn1(v), Vpn2(v)).present
  }

  // So a second access to a page, right after a first one that was served, is free.
  lemma AgainIsFree(s: Sys, room: int, currPid: Pid, tlb: map<nat, PtePtr>, p: Pid, va: nat)
    requires FreeOfCharge(s, currPid, tlb, p, va / PAGE_SIZE)
    ensures Misses(currPid, tlb, p, va) == 0 && Faults(s, room, p, va) == 0
  {
  }

  // All the kernel did is evict.
  ghost predicate OnlyEvicted(s: Sys, s': Sys) {
    && (forall q: Pid, k: nat :: PdeAt(s', q, k) == PdeAt(s, q, k))
    && (forall q: Pid, k: nat, l: nat :: PteAt(s', q, k, l).present ==> PteAt(s, q, k, l).present)
  }

  // A fresh walk of p's directory for page v ends at the entry `at`.
  ghost predicate Translates(s: Sys, p: Pid, v: nat, at: PtePtr) {
    && PdeAt(s, p, Vpn1(v)).present
    && at == (PdeAt(s, p, Vpn1(v)).base, Vpn2(v))
  }

  class MMU {
    var dirs: map<Pid, Frame>
    var phys: map<Frame, Content>
    var swap: map<PtePtr, seq<int>>
    var free: set<Frame>

    var currPid: Pid
    var tlb: map<nat, PtePtr>
    var numTlbMisses: nat
    var numPageFaults: nat
    var numSegFaults: nat

    ghost const pool: set<Frame>
    ghost var own: Owners

    ghost function Now(): Sys
      reads this
    {
      Sys(dirs, phys, swap, free)
    }

    // The frames that are left for pages.
    ghost function Room(): int
      reads this
    {
      Spare(Now(), pool)
    }

    ghost predicate Valid()
      reads this
    {
      && Inv(Now(), own, pool)
      && (forall v | v in tlb :: Translates(Now(), currPid, v, tlb[v]))
    }

    constructor (frames: set<Frame>)
      ensures Valid() && pool == frames && dirs == map[] && free == frames
      ensures currPid == 0 && tlb == map[]
    {
      dirs, phys, swap, free := map[], map[], map[], frames;
      currPid, tlb := 0, map[];
      numTlbMisses, numPageFaults, numSegFaults := 0, 0, 0;
      pool, own := frames, map[];
    }

    // ---------- the kernel ----------

    // Some page, whichever the kernel likes, goes to its swap file.
    method KernelEvict() returns (evicted: bool)
      requires Inv(Now(), own, pool)
      modifies this`phys, this`swap, this`free, this`own
      ensures Inv(Now(), own, pool)
      ensures ViewsKept(old(Now()), Now()) && WalksKept(old(Now()), Now()) && OnlyEvicted(old(Now()), Now())
      ensures evicted ==> free != {} && |phys.Keys| < |old(phys.Keys)|
      ensures !evicted ==> Now() == old(Now()) && forall t, j | t in phys :: !PteIn(Now(), t, j).present
    {
      hide Inv, ViewsKept, WalksKept, OnlyEvicted;
      if t, j :| t in phys && phys[t].Table? && 0 <= j < |phys[t].ptes| && phys[t].ptes[j].present {
        ghost var s0 := Now();
        EvictAny(s0, own, pool, t, j);
        var e := phys[t].ptes[j];
        swap := swap[(t, j) := phys[e.base].bytes];
        phys := phys[t := Table(phys[t].ptes[j := e.(present := false)])];
        phys := phys - {e.base};
        free := free + {e.base};
        own := own - {e.base};
        assert Now() == Evict(s0, (t, j));
        evicted := true;
      } else {
        NothingChanged(Now());
        evicted := false;
      }
    }

    // Before handing out a frame the kernel may evict any pages; it has to when none is
    // free.
    method AskKernelForFrame() returns (f: Option<Frame>)
      requires Inv(Now(), own, pool)
      modifies this`phys, this`swap, this`free, this`own
      ensures Inv(Now(), own, pool)
      ensures ViewsKept(old(Now()), Now()) && WalksKept(old(Now()), Now()) && OnlyEvicted(old(Now()), Now())
      ensures f.Some? ==> f.value in free
      // it fails exactly when directories and tables fill the memory
      ensures f.Some? <==> old(Room()) > 0
      ensures Tables(Now()) == Tables(old(Now()))
    {
      ghost var s0 := Now();
      hide Inv, ViewsKept, WalksKept, OnlyEvicted, Tables, Spare;
      NothingChanged(s0);
      var more := true;
      while *
        invariant Inv(Now(), own, pool)
        invariant ViewsKept(s0, Now()) && WalksKept(s0, Now()) && OnlyEvicted(s0, Now())
        decreases |phys.Keys|
      {
        ghost var s1 := Now();
        more := KernelEvict();
        EvictedTwice(s0, s1, Now());
        if !more {
          break;
        }
      }
      ghost var s2 := Now();
      if free == {} {
        var evicted := KernelEvict();
        EvictedTwice(s0, s2, Now());
        if !evicted {
          SpareFrames(Now(), own, pool);
          SameTables(s0, Now(), pool);
          return None;
        }
      }
      SpareFrames(Now(), own, pool);
      SameTables(s0, Now(), pool);
      var g :| g in free;
      f := Some(g);
    }

    // ---------- translation ----------

    // tlb.c is not part of this model: adding an entry may push out any others.
    method TlbAddPte(v: nat, at: PtePtr)
      modifies this`tlb
      ensures v in tlb && tlb[v] == at
      ensures forall u | u in tlb && u != v :: u in old(tlb) && tlb[u] == old(tlb[u])
    {
      assert tlb.Keys <= tlb.Keys;
      var kept: set<nat> :| kept <= tlb.Keys;
      tlb := (map u | u in kept :: tlb[u])[v := at];
    }

    // A table for the directory entry, from the kernel if there is none yet.
    method EnsureTable(p: Pid, i: nat) returns (ok: bool)
      requires Valid() && p in dirs && currPid == p && i < NUM_ENTRIES
      modifies this`phys, this`swap, this`free, this`own, this`numPageFaults
      ensures Valid() && WalksKept(old(Now()), Now()) && ViewsKept(old(Now()), Now())
      ensures ok <==> PdeAt(Now(), p, i).present
      ensures ok <==> PdeAt(old(Now()), p, i).present || old(Room()) > 0
      ensures ok ==> forall j: nat :: PteAt(Now(), p, i, j).present == PteAt(old(Now()), p, i, j).present
      ensures Tables(Now()) == Tables(old(Now())) + if ok then {(p, i)} else {}
      ensures numPageFaults == old(numPageFaults) + if PdeAt(old(Now()), p, i).present then 0 else 1
    {
      hide Inv, ViewsKept, WalksKept, OnlyEvicted, Tables, Spare;
      ghost var s0 := Now();
      NothingChanged(s0);
      DirReady(s0, own, pool, p);
      if phys[dirs[p]].pdes[i].present {
        TableInRange(s0, own, pool, p, i);
        return true;
      }
      numPageFaults := numPageFaults + 1;
      var f := AskKernelForFrame();
      WalksTranslate(s0, Now(), p, tlb);
      if f.None? {
        SameWalks(s0, Now(), p, i);
        return false;
      }
      ghost var s1 := Now();
      TableReady(s0, s1, own, pool, p, i, f.value);
      free := free - {f.value};
      phys := phys[f.value := NEW_TABLE];
      phys := phys[dirs[p] := Directory(phys[dirs[p]].pdes[i := Pde(true, f.value)])];
      own := own[f.value := TabOf(p, i)];
      assert Now() == AddTable(s1, p, i, f.value);
      WalksTranslate(s0, Now(), p, tlb);
      ok := true;
    }

    // The TLB lookup and, on a miss, the walk to the page table.
    method LookupPte(p: Pid, v: nat) returns (at: Option<PtePtr>)
      requires Valid() && p in dirs && currPid == p && Vpn1(v) < NUM_ENTRIES
      modifies this`phys, this`swap, this`free, this`own, this`tlb, this`numTlbMisses, this`numPageFaults
      ensures Valid() && WalksKept(old(Now()), Now()) && ViewsKept(old(Now()), Now())
      ensures at.Some? ==>
                && Translates(Now(), p, v, at.value)
                && PteAt(Now(), p, Vpn1(v), Vpn2(v)).present == PteAt(old(Now()), p, Vpn1(v), Vpn2(v)).present
      ensures at.Some? <==> PdeAt(old(Now()), p, Vpn1(v)).present || old(Room()) > 0
      ensures Tables(Now()) == Tables(old(Now())) + if at.Some? then {(p, Vpn1(v))} else {}
      ensures at.Some? ==> v in tlb
      ensures numTlbMisses == old(numTlbMisses) + if v in old(tlb) then 0 else 1
      ensures numPageFaults == old(numPageFaults) + if PdeAt(old(Now()), p, Vpn1(v)).present then 0 else 1
    {
      hide Inv, ViewsKept, WalksKept, OnlyEvicted, Tables, Spare;
      NothingChanged(Now());
      if v in tlb {
        TableInRange(Now(), own, pool, p, Vpn1(v));
        return Some(tlb[v]);
      }
      numTlbMisses := numTlbMisses + 1;
      var addrPage := Vpn1(v);
      var ok := EnsureTable(p, addrPage);
      if !ok {
        return None;
      }
      DirReady(Now(), own, pool, p);
      var pte := (phys[dirs[p]].pdes[addrPage].base, Vpn2(v));
      TlbAddPte(v, pte);
      at := Some(pte);
    }

    // Points the entry at its new frame and reads the page from disk. A page that was never
    // saved has whatever the frame held.
    method FillFrame(at: PtePtr, f: Frame, stale: seq<int>)
      requires at.0 in phys && phys[at.0].Table? && at.1 < |phys[at.0].ptes| && at.0 != f
      modifies this`phys, this`free
      ensures Now() == AddPage(old(Now()), at, f, if at in swap then swap[at] else stale)
    {
      free := free - {f};
      phys := phys[f := Page(stale)];
      phys := phys[at.0 := Table(phys[at.0].ptes[at.1 := phys[at.0].ptes[at.1].(present := true, base := f)])];
      if at in swap {
        phys := phys[phys[at.0].ptes[at.1].base := Page(swap[at])];
      }
    }

    // The page itself, from its swap file if it has one.
    method BringIn(p: Pid, v: nat, at: PtePtr, stale: seq<int>) returns (ok: bool)
      requires Valid() && p in dirs && currPid == p && Translates(Now(), p, v, at)
      requires |stale| == PAGE_SIZE
      modifies this`phys, this`swap, this`free, this`own, this`numPageFaults
      ensures Valid() && WalksKept(old(Now()), Now())
      ensures !ok ==> ViewsKept(old(Now()), Now())
      ensures ok ==>
                && Translates(Now(), p, v, at)
                && PteAt(Now(), p, Vpn1(v), Vpn2(v)).present
                && Touched(old(Now()), Now(), p, v)
      ensures ok <==> old(Room()) > 0
      ensures Tables(Now()) == Tables(old(Now()))
      ensures numPageFaults == old(numPageFaults) + if PteAt(old(Now()), p, Vpn1(v), Vpn2(v)).present then 0 else 1
    {
      hide Inv, ViewsKept, WalksKept, OnlyEvicted, Touched, Tables, Spare;
      ghost var s0 := Now();
      NothingChanged(s0);
      EntryReady(s0, own, pool, p, v, at);
      if phys[at.0].ptes[at.1].present {
        SpareFrames(s0, own, pool);
        return true;
      }
      numPageFaults := numPageFaults + 1;
      var f := AskKernelForFrame();
      WalksTranslate(s0, Now(), p, tlb);
      if f.None? {
        return false;
      }
      ghost var s1 := Now();
      PageReady(s0, s1, own, pool, p, v, at, f.value, stale);
      FillFrame(at, f.value, stale);
      own := own[f.value := PageOf(p, Vpn1(v), Vpn2(v))];
      WalksTranslate(s0, Now(), p, tlb);
      ok := true;
    }

    // The part of a read or a write from the TLB lookup to the present page.
    method Translate(p: Pid, v: nat, stale: seq<int>) returns (at: Option<PtePtr>)
      requires Valid() && p in dirs && currPid == p && Vpn1(v) < NUM_ENTRIES
      requires |stale| == PAGE_SIZE
      modifies this`phys, this`swap, this`free, this`own, this`tlb, this`numTlbMisses, this`numPageFaults
      ensures Valid() && WalksKept(old(Now()), Now())
      ensures at.None? ==> ViewsKept(old(Now()), Now())
      ensures at.Some? ==>
                && Translates(Now(), p, v, at.value)
                && PteAt(Now(), p, Vpn1(v), Vpn2(v)).present
                && Touched(old(Now()), Now(), p, v)
                && v in tlb
      ensures numTlbMisses == old(numTlbMisses) + if v in old(tlb) then 0 else 1
      // it fails exactly when the kernel cannot keep a page in memory besides the tables
      ensures at.Some? <==> old(Room()) >= Needed(old(Now()), p, v)
      ensures Tables(Now()) == Tables(old(Now())) + Settled(old(Now()), old(Room()), p, v)
      ensures numPageFaults == old(numPageFaults)
                               + (if PdeAt(old(Now()), p, Vpn1(v)).present then 0 else 1)
                               + (if TableSettled(old(Now()), old(Room()), p, v)
                                     && !PteAt(old(Now()), p, Vpn1(v), Vpn2(v)).present then 1 else 0)
    {
      hide Inv, ViewsKept, WalksKept, Touched, Translates, Tables;
      ghost var s0 := Now();
      ghost var own0 := own;
      at := LookupPte(p, v);
      if at.None? {
        return;
      }
      ghost var s1 := Now();
      RoomAfterTable(s0, s1, own0, pool, p, Vpn1(v));
      var ok := BringIn(p, v, at.value, stale);
      KeptThenKept(s0, s1, Now());
      if !ok {
        return None;
      }
      KeptThenTouched(s0, s1, Now(), p, v);
    }

    // The first lines of every access.
    method SwitchTo(p: Pid)
      requires Valid()
      modifies this`tlb, this`currPid
      ensures Valid() && currPid == p
      ensures tlb == if old(currPid) == p then old(tlb) else map[]
    {
      if currPid != p {
        tlb := map[];
        currPid := p;
      }
    }

    // What reads and writes begin with: the change of process, the segment check and the
    // translation. `stale` is what a frame holds that the kernel hands out for a page
    // without a swap file.
    method Reach(p: Pid, va: nat, stale: seq<int>) returns (r: Outcome<PtePtr>)
      requires Valid() && p in dirs && va < ADDRESSES && |stale| == PAGE_SIZE
      modifies this`phys, this`swap, this`free, this`own, this`tlb, this`currPid,
               this`numTlbMisses, this`numPageFaults, this`numSegFaults
      ensures Valid() && currPid == p && WalksKept(old(Now()), Now())
      ensures r.SegFault? <==> FindSegment(va).None?
      ensures r.OutOfFrames? <==> FindSegment(va).Some? && old(Room()) < Needed(old(Now()), p, va / PAGE_SIZE)
      ensures !r.Done? ==> ViewsKept(old(Now()), Now())
      ensures r.Done? ==>
                && Translates(Now(), p, va / PAGE_SIZE, r.value)
                && PteAt(Now(), p, Vpn1(va / PAGE_SIZE), Vpn2(va / PAGE_SIZE)).present
                && Touched(old(Now()), Now(), p, va / PAGE_SIZE)
                && va / PAGE_SIZE in tlb
      ensures Tables(Now()) == Tables(old(Now())) + Reached(old(Now()), old(Room()), p, va)
      ensures numTlbMisses == old(numTlbMisses) + Misses(old(currPid), old(tlb), p, va)
      ensures numPageFaults == old(numPageFaults) + Faults(old(Now()), old(Room()), p, va)
      ensures numSegFaults == old(numSegFaults) + if r.SegFault? then 1 else 0
    {
      hide Inv, ViewsKept, WalksKept, Touched, Translates, FindSegment, Tables, Settled, Needed;
      NothingChanged(Now());
      SwitchTo(p);
      if FindSegment(va).None? {
        numSegFaults := numSegFaults + 1;
        return SegFault;
      }
      var at := Translate(p, va / PAGE_SIZE, stale);
      r := if at.None? then OutOfFrames else Done(at.value);
    }

    // mmu_read_from_virtual_address.
    method Read(p: Pid, va: nat, n: nat, stale: seq<int>) returns (r: Outcome<seq<int>>)
      requires Valid() && p in dirs && va < ADDRESSES && n + va % PAGE_SIZE <= PAGE_SIZE
      requires |stale| == PAGE_SIZE
      modifies this
      ensures Valid() && dirs == old(dirs) && currPid == p
      // the outcome is settled before the call
      ensures r.OutOfFrames? <==> FindSegment(va).Some? && old(Room()) < Needed(old(Now()), p, va / PAGE_SIZE)
      ensures r.SegFault? <==> !r.OutOfFrames? && !Readable(va)
      ensures r.Done? ==>
                && Touched(old(Now()), Now(), p, va / PAGE_SIZE)
                && |r.value| == n
                && r.value == Slice(ViewOf(Now(), p, va / PAGE_SIZE), va % PAGE_SIZE, n)
                && PteAt(Now(), p, Vpn1(va / PAGE_SIZE), Vpn2(va / PAGE_SIZE)).accessed
                && FreeOfCharge(Now(), currPid, tlb, p, va / PAGE_SIZE)
      ensures r.SegFault? ==> ViewsKept(old(Now()), Now()) || Touched(old(Now()), Now(), p, va / PAGE_SIZE)
      ensures r.OutOfFrames? ==> ViewsKept(old(Now()), Now())
      ensures Tables(Now()) == Tables(old(Now())) + Reached(old(Now()), old(Room()), p, va)
      ensures numTlbMisses == old(numTlbMisses) + Misses(old(currPid), old(tlb), p, va)
      ensures numPageFaults == old(numPageFaults) + Faults(old(Now()), old(Room()), p, va)
      ensures numSegFaults == old(numSegFaults) + if r.SegFault? then 1 else 0
    {
      hide Inv, ViewsKept, WalksKept, Touched, FindSegment, Tables, Settled, Needed, Faults, Misses, Reached, Spare;
      ghost var s0 := Now();
      var at := Reach(p, va, stale);
      WalksMean(s0, Now());
      if at.SegFault? {
        return SegFault;
      } else if at.OutOfFrames? {
        return OutOfFrames;
      }
      var segment := FindSegment(va).value;
      if !segment.read {
        numSegFaults := numSegFaults + 1;
        return SegFault;
      }
      ghost var s1 := Now();
      var (t, j) := at.value;
      PageHere(s1, own, pool, p, va / PAGE_SIZE, at.value);
      var pte := phys[t].ptes[j];
      var offset := va % PAGE_SIZE;
      var bytes := phys[pte.base].bytes[offset..offset + n];
      phys := phys[t := Table(phys[t].ptes[j := pte.(accessed := true)])];
      FlagsOnly(s0, s1, Now(), own, pool, p, va / PAGE_SIZE, at.value, pte.(accessed := true));
      WalksTranslate(s1, Now(), p, tlb);
      r := Done(bytes);
    }

    // mmu_write_to_virtual_address.
    method Write(p: Pid, va: nat, data: seq<int>, stale: seq<int>) returns (r: Outcome<()>)
      requires Valid() && p in dirs && va < ADDRESSES && |data| + va % PAGE_SIZE <= PAGE_SIZE
      requires |stale| == PAGE_SIZE
      modifies this
      ensures Valid() && dirs == old(dirs) && currPid == p
      ensures r.OutOfFrames? <==> FindSegment(va).Some? && old(Room()) < Needed(old(Now()), p, va / PAGE_SIZE)
      ensures r.SegFault? <==> !r.OutOfFrames? && !Writable(va)
      ensures r.Done? ==>
                && Stored(old(Now()), Now(), p, va / PAGE_SIZE, va % PAGE_SIZE, data)
                && PteAt(Now(), p, Vpn1(va / PAGE_SIZE), Vpn2(va / PAGE_SIZE)).accessed
                && PteAt(Now(), p, Vpn1(va / PAGE_SIZE), Vpn2(va / PAGE_SIZE)).dirty
                && FreeOfCharge(Now(), currPid, tlb, p, va / PAGE_SIZE)
      ensures r.SegFault? ==> ViewsKept(old(Now()), Now()) || Touched(old(Now()), Now(), p, va / PAGE_SIZE)
      ensures r.OutOfFrames? ==> ViewsKept(old(Now()), Now())
      ensures Tables(Now()) == Tables(old(Now())) + Reached(old(Now()), old(Room()), p, va)
      ensures numTlbMisses == old(numTlbMisses) + Misses(old(currPid), old(tlb), p, va)
      ensures numPageFaults == old(numPageFaults) + Faults(old(Now()), old(Room()), p, va)
      ensures numSegFaults == old(numSegFaults) + if r.SegFault? then 1 else 0
    {
      hide Inv, ViewsKept, WalksKept, Touched, FindSegment, Stored, Tables, Settled, Needed, Faults, Misses, Reached,
           Spare;
      ghost var s0 := Now();
      var at := Reach(p, va, stale);
      WalksMean(s0, Now());
      if at.SegFault? {
        return SegFault;
      } else if at.OutOfFrames? {
        return OutOfFrames;
      }
      var segment := FindSegment(va).value;
      if !segment.write {
        numSegFaults := numSegFaults + 1;
        return SegFault;
      }
      ghost var s1 := Now();
      var (t, j) := at.value;
      PageHere(s1, own, pool, p, va / PAGE_SIZE, at.value);
      var pte := phys[t].ptes[j];
      var offset := va % PAGE_SIZE;
      var bytes := phys[pte.base].bytes;
      var pte' := pte.(accessed := true, dirty := true);
      phys := phys[pte.base := Page(bytes[..offset] + data + bytes[offset + |data|..])];
      phys := phys[t := Table(phys[t].ptes[j := pte'])];
      BytesStored(s0, s1, Now(), own, pool, p, va / PAGE_SIZE, at.value, pte', offset, data);
      WalksTranslate(s1, Now(), p, tlb);
      r := Done(());
    }

    // ---------- processes ----------

    // One page of the testing segment; it is not read from disk.
    method MapPage(p: Pid, j: nat, stale: seq<int>) returns (ok: bool)
      requires Valid() && p in dirs && PdeAt(Now(), p, 0).present && j < NUM_ENTRIES
      requires !PteAt(Now(), p, 0, j).present && |stale| == PAGE_SIZE
      modifies this`phys, this`swap, this`free, this`own
      ensures Valid() && WalksKept(old(Now()), Now())
      ensures Mapped(old(Now()), Now(), p, j, ok)
      ensures ok <==> old(Room()) > 0
      ensures Tables(Now()) == Tables(old(Now())) && Room() == old(Room())
    {
      hide Inv, ViewsKept, WalksKept, OnlyEvicted, Mapped, PdesKept, Tables, Spare;
      ghost var s0 := Now();
      var f := AskKernelForFrame();
      SameTables(s0, Now(), pool);
      StillKept(s0, Now(), p, 0, j);
      StillTranslates(s0, Now(), currPid, 0, tlb);
      if f.None? {
        return false;
      }
      ghost var s1 := Now();
      DirReady(s1, own, pool, p);
      var t := phys[dirs[p]].pdes[0].base;
      MapReady(s0, s1, own, pool, p, j, f.value, stale);
      free := free - {f.value};
      phys := phys[f.value := Page(stale)];
      phys := phys[t := Table(phys[t].ptes[j := phys[t].ptes[j].(present := true, base := f.value)])];
      own := own[f.value := PageOf(p, 0, j)];
      assert Now() == AddPage(s1, (t, j), f.value, stale);
      StillTranslates(s0, Now(), currPid, 0, tlb);
      ok := true;
    }

    // mmu_add_process up to the new directory, for a pid that may have one already. Only
    // for a new pid does every frame still belong to somebody.
    method AddDirectory(p: Pid) returns (ok: bool)
      requires Valid()
      modifies this`dirs, this`phys, this`swap, this`free, this`own
      ensures ok <==> old(Room()) > 0
      ensures dirs.Keys == old(dirs.Keys) + if ok then {p} else {}
      ensures (exists o: Owners :: Inv(Now(), o, pool)) <==> !ok || p !in old(dirs)
      ensures !ok || p !in old(dirs) ==>
                && Valid() && PdesKept(old(Now()), Now())
                && Tables(Now()) == Tables(old(Now()))
                && (ok ==> Room() == old(Room()) - 1 && !PdeAt(Now(), p, 0).present)
                && ViewsKept(old(Now()), Now())
      // and a translation of a pid that had one is out of date
      ensures ok && p in old(dirs) ==> forall v, at :: !Translates(Now(), p, v, at)
    {
      hide Inv, ViewsKept, WalksKept, OnlyEvicted, PdesKept, Tables, Spare, Translates;
      ghost var s0 := Now();
      var f := AskKernelForFrame();
      WalksMean(s0, Now());
      WalksTranslate(s0, Now(), currPid, tlb);
      WalksPdes(s0, Now());
      if f.None? {
        return false;
      }
      ghost var s1, own1 := Now(), own;
      SameTables(s0, s1, pool);
      free := free - {f.value};
      phys := phys[f.value := NEW_DIRECTORY];
      dirs := dirs[p := f.value];
      assert Now() == AddDir(s1, p, f.value);
      ok := true;
      if p !in old(dirs) {
        AddDirReady(s0, s1, own, pool, p, f.value);
        own := own[f.value := DirOf(p)];
        StillTranslates(s0, Now(), currPid, 0, tlb);
        ViewsAre(s0, Now());
      } else {
        AddAgainLoses(s1, own1, pool, p, f.value);
        EmptyDirectory(s1, p, f.value);
      }
    }

    // The table for the first directory entry.
    method AddFirstTable(p: Pid) returns (ok: bool)
      requires Valid() && p in dirs && !PdeAt(Now(), p, 0).present
      modifies this`phys, this`swap, this`free, this`own
      ensures Valid() && WalksKept(old(Now()), Now()) && ViewsKept(old(Now()), Now())
      ensures ok <==> old(Room()) > 0
      ensures Tables(Now()) == Tables(old(Now())) + if ok then {(p, 0)} else {}
      ensures ok ==> PdeAt(Now(), p, 0).present && forall j: nat :: !PteAt(Now(), p, 0, j).present
      ensures ok ==> Room() == old(Room()) - 1
    {
      hide Inv, ViewsKept, WalksKept, OnlyEvicted, Tables, Spare;
      ghost var s0, own0 := Now(), own;
      var f := AskKernelForFrame();
      WalksTranslate(s0, Now(), currPid, tlb);
      WalksMean(s0, Now());
      if f.None? {
        return false;
      }
      ghost var s1 := Now();
      TableReady(s0, s1, own, pool, p, 0, f.value);
      free := free - {f.value};
      phys := phys[f.value := NEW_TABLE];
      phys := phys[dirs[p] := Directory(phys[dirs[p]].pdes[0 := Pde(true, f.value)])];
      own := own[f.value := TabOf(p, 0)];
      assert Now() == AddTable(s1, p, 0, f.value);
      WalksTranslate(s0, Now(), currPid, tlb);
      RoomAfterTable(s0, Now(), own0, pool, p, 0);
      ok := true;
    }

    method AddProcess(p: Pid, stale1: seq<int>, stale2: seq<int>) returns (ok: bool)
      requires Valid() && p !in dirs && |stale1| == |stale2| == PAGE_SIZE
      modifies this`dirs, this`phys, this`swap, this`free, this`own
      ensures Valid()
      // a directory, a table, and one frame that the two pages can share
      ensures ok <==> old(Room()) >= 3
      ensures dirs.Keys == old(dirs.Keys) + if old(Room()) >= 1 then {p} else {}
      ensures Tables(Now()) == Tables(old(Now())) + if old(Room()) >= 2 then {(p, 0)} else {}
      ensures ok ==> ViewOf(Now(), p, 1).Some? && ViewOf(Now(), p, 2).Some?
      ensures forall q: Pid, k: nat, l: nat | q != p || k != 0 || (l != 1 && l != 2) ::
                PageView(Now(), q, k, l) == PageView(old(Now()), q, k, l)
    {
      hide Inv, ViewsKept, WalksKept, OnlyEvicted, Mapped, PdesKept, Tables, Spare;
      ghost var s0 := Now();
      ok := AddDirectory(p);
      ghost var s1 := Now();
      ViewsMean(s0, s1);
      RoomLeft(s1, own, pool);
      if !ok {
        return;
      }
      ok := AddFirstTable(p);
      ghost var s2 := Now();
      ViewsMean(s1, s2);
      WalksMean(s1, s2);
      if !ok {
        return;
      }
      ok := MapPage(p, 1, stale1);
      ghost var s3 := Now();
      WalksMean(s2, s3);
      MappedMeans(s2, s3, p, 1, ok);
      if !ok {
        return;
      }
      ok := MapPage(p, 2, stale2);
      WalksMean(s3, Now());
      MappedMeans(s3, Now(), p, 2, ok);
    }

    // A frame is returned once: it was in use until now.
    method ReturnFrameToKernel(f: Frame)
      requires f in phys && f !in free
      modifies this`phys, this`free
      ensures phys == old(phys) - {f} && free == old(free) + {f}
    {
      phys := phys - {f};
      free := free + {f};
    }

    // mmu_remove_process.
    method RemoveProcess(p: Pid)
      requires Valid()
      modifies this`dirs, this`phys, this`swap, this`free, this`own, this`tlb
      ensures Valid()
      ensures Now() == MmuSteps.RemoveProcess(old(Now()), old(own), p)
      ensures own == old(own) - FramesOf(old(own), p)
      ensures free == old(free) + FramesOf(old(own), p)
      ensures dirs == old(dirs) - {p} && Tables(Now()) == set t | t in Tables(old(Now())) && t.0 != p
      ensures forall i: nat, j: nat :: PageView(Now(), p, i, j) == None
      ensures forall q: Pid, i: nat, j: nat | q != p :: PageView(Now(), q, i, j) == PageView(old(Now()), q, i, j)
    {
      hide Inv, Removing, Tables;
      ghost var s0 := Now();
      if p in dirs {
        DirReady(s0, own, pool, p);
        var pd := dirs[p];
        RemovingStarts(s0, own, pool, p);
        var vpn1 := 0;
        while vpn1 < NUM_ENTRIES
          invariant 0 <= vpn1 <= NUM_ENTRIES
          invariant own == old(own) && dirs == old(dirs) && tlb == old(tlb)
          invariant Removing(s0, Now(), own, p, vpn1, 0)
        {
          RowReady(s0, Now(), own, pool, p, vpn1);
          var pde := phys[pd].pdes[vpn1];
          if pde.present {
            var pt := pde.base;
            var vpn2 := 0;
            while vpn2 < NUM_ENTRIES
              invariant 0 <= vpn2 <= NUM_ENTRIES
              invariant own == old(own) && dirs == old(dirs) && tlb == old(tlb)
              invariant Removing(s0, Now(), own, p, vpn1, vpn2)
            {
              EntryStep(s0, Now(), own, pool, p, vpn1, vpn2);
              var pte := phys[pt].ptes[vpn2];
              if pte.present {
                ReturnFrameToKernel(pte.base);
              }
              // remove_swap_file
              swap := swap - {(pt, vpn2)};
              vpn2 := vpn2 + 1;
            }
            RowStep(s0, Now(), own, pool, p, vpn1);
            ReturnFrameToKernel(pt);
          }
          vpn1 := vpn1 + 1;
        }
        RemovingEnds(s0, Now(), own, pool, p);
        ReturnFrameToKernel(pd);
      } else {
        NobodyToRemove(s0, own, pool, p);
      }
      dirs := dirs - {p};
      own := own - FramesOf(own, p);
      RemoveProcessKeeps(s0, old(own), pool, p);
      RemovedTables(s0, Now(), p);
      if currPid == p {
        tlb := map[];
      }
    }
  }

  // Page j of p's first table has been mapped; nobody else's view changed.
  ghost predicate Mapped(s: Sys, s': Sys, p: Pid, j: nat, ok: bool) {
    && (forall q: Pid, k: nat, l: nat | q != p || k != 0 || l != j :: PageView(s', q, k, l) == PageView(s, q, k, l))
    && (forall k: nat, l: nat | PteAt(s', p, k, l).present :: PteAt(s, p, k, l).present || (k == 0 && l == j))
    && (ok ==> PageView(s', p, 0, j).Some?)
    && (!ok ==> ViewsKept(s, s'))
    && PdeAt(s', p, 0) == PdeAt(s, p, 0)
  }

  lemma MappedMeans(s: Sys, s': Sys, p: Pid, j: nat, ok: bool)
    requires Mapped(s, s', p, j, ok)
    ensures forall q: Pid, k: nat, l: nat | q != p || k != 0 || l != j :: PageView(s', q, k, l) == PageView(s, q, k, l)
    ensures ok ==> PageView(s', p, 0, j).Some?
    ensures PdeAt(s', p, 0) == PdeAt(s, p, 0)
    ensures forall k: nat, l: nat | PteAt(s', p, k, l).present :: PteAt(s, p, k, l).present || (k == 0 && l == j)
  {
  }

  lemma StillKept(s: Sys, s': Sys, p: Pid, i: nat, j: nat)
    requires ViewsKept(s, s') && WalksKept(s, s') && OnlyEvicted(s, s')
    ensures PdesKept(s, s')
    ensures PdeAt(s', p, i) == PdeAt(s, p, i)
    ensures Mapped(s, s', p, j, false)
    ensures forall q: Pid, k: nat, l: nat :: PageView(s', q, k, l) == PageView(s, q, k, l)
  {
  }

  lemma AddDirReady(s: Sys, s1: Sys, own: Owners, pool: set<Frame>, p: Pid, f: Frame)
    requires WalksKept(s, s1) && ViewsKept(s, s1) && OnlyEvicted(s, s1)
    requires Inv(s1, own, pool)
    requires p !in s1.dirs && f in s1.free
    ensures var s' := AddDir(s1, p, f);
            && Inv(s', own[f := DirOf(p)], pool)
            && PdesKept(s, s')
            && (forall q: Pid, k: nat, l: nat :: PageView(s', q, k, l) == PageView(s, q, k, l))
            && !PdeAt(s', p, 0).present
            && s'.dirs.Keys == s.dirs.Keys + {p} && Tables(s') == Tables(s)
            && Spare(s', pool) == Spare(s, pool) - 1
  {
    AddDirKeeps(s1, own, pool, p, f);
    hide Inv;
    NewDirTables(s1, AddDir(s1, p, f), pool, p, f);
    SameTables(s, s1, pool);
    hide Tables, Spare, ViewsKept, OnlyEvicted;
    ViewsMean(s, s1);
    ViewsMean(s1, AddDir(s1, p, f));
  }

  lemma ViewsAre(s: Sys, s': Sys)
    requires forall q: Pid, k: nat, l: nat :: PageView(s', q, k, l) == PageView(s, q, k, l)
    ensures ViewsKept(s, s')
  {
  }

  lemma WalksPdes(s: Sys, s': Sys)
    requires WalksKept(s, s')
    ensures PdesKept(s, s')
  {
  }

  lemma RoomLeft(s: Sys, own: Owners, pool: set<Frame>)
    requires Inv(s, own, pool)
    ensures Spare(s, pool) >= 0
  {
    SpareFrames(s, own, pool);
  }

  lemma EmptyDirectory(s: Sys, p: Pid, f: Frame)
    ensures forall v, at :: !Translates(AddDir(s, p, f), p, v, at)
  {
  }

  lemma NobodysFrame(s: Sys, own: Owners, pool: set<Frame>, f: Frame)
    requires f in s.phys && forall o: Owner :: !OwnerOk(s, o, f)
    ensures !Inv(s, own, pool)
  {
    assert f in own ==> !OwnerOk(s, own[f], f);
  }

  // A second directory for a pid leaves the frame of the first one with nobody.
  lemma AddAgainLoses(s: Sys, own: Owners, pool: set<Frame>, p: Pid, f: Frame)
    requires Inv(s, own, pool) && p in s.dirs && f in s.free
    ensures forall o: Owners :: !Inv(AddDir(s, p, f), o, pool)
  {
    forall o: Owners
      ensures !Inv(AddDir(s, p, f), o, pool)
    {
      FrameLost(s, own, pool, p, f);
      NobodysFrame(AddDir(s, p, f), o, pool, s.dirs[p]);
    }
  }

  // The frame of the old directory is in use, and no slot names it.
  lemma FrameLost(s: Sys, own: Owners, pool: set<Frame>, p: Pid, f: Frame)
    requires Inv(s, own, pool) && p in s.dirs && f in s.free
    ensures var s' := AddDir(s, p, f);
            s.dirs[p] in s'.phys && s.dirs[p] !in s'.free && forall o: Owner :: !OwnerOk(s', o, s.dirs[p])
  {
    var s', d := AddDir(s, p, f), s.dirs[p];
    assert DirOk(s, own, p);
    assert forall i: nat :: !PdeAt(s', p, i).present;
    forall q: Pid, i: nat | q != p
      ensures PdeAt(s', q, i) == PdeAt(s, q, i)
    {
      assert q in s.dirs ==> DirOk(s, own, q);
    }
    forall o: Owner
      ensures !OwnerOk(s', o, d)
    {
      assert o.p in s.dirs ==> DirOk(s, own, o.p);
      if o.TabOf? && o.p != p {
        assert TabOk(s, own, o.p, o.i);
      }
      if o.PageOf? && o.p != p {
        assert TabOk(s, own, o.p, o.i) && PageOk(s, own, o.p, o.i, o.j);
      }
    }
  }

  lemma ViewsMean(s: Sys, s': Sys)
    requires ViewsKept(s, s')
    ensures forall q: Pid, k: nat, l: nat :: PageView(s', q, k, l) == PageView(s, q, k, l)
  {
  }

  lemma NewDirTables(s: Sys, s': Sys, pool: set<Frame>, p: Pid, f: Frame)
    requires p !in s.dirs && s'.dirs == s.dirs[p := f]
    requires forall q: Pid, k: nat :: PdeAt(s', q, k) == PdeAt(s, q, k)
    ensures Tables(s') == Tables(s) && Spare(s', pool) == Spare(s, pool) - 1
    ensures s'.dirs.Keys == s.dirs.Keys + {p}
    ensures !PdeAt(s', p, 0).present
  {
    hide PdeAt;
    assert forall i: nat :: !PdeAt(s, p, i).present by { NoTablesWithout(s, p); }
    assert s'.dirs.Keys == s.dirs.Keys + {p};
    assert |s'.dirs| == |s'.dirs.Keys| == |s.dirs| + 1;
  }

  lemma NoTablesWithout(s: Sys, p: Pid)
    requires p !in s.dirs
    ensures forall i: nat :: !PdeAt(s, p, i).present
  {
  }

  lemma MapReady(s: Sys, s1: Sys, own: Owners, pool: set<Frame>, p: Pid, j: nat, f: Frame, stale: seq<int>)
    requires WalksKept(s, s1) && ViewsKept(s, s1) && OnlyEvicted(s, s1)
    requires Inv(s1, own, pool)
    requires PdeAt(s, p, 0).present && j < NUM_ENTRIES && !PteAt(s, p, 0, j).present
    requires f in s1.free && |stale| == PAGE_SIZE
    ensures var t := PdeAt(s1, p, 0).base;
            && t in s1.phys && s1.phys[t].Table? && j < |s1.phys[t].ptes| && t != f
            && var s' := AddPage(s1, (t, j), f, stale);
               && Inv(s', own[f := PageOf(p, 0, j)], pool)
               && WalksKept(s, s') && PdesKept(s, s') && Mapped(s, s', p, j, true)
               && Tables(s') == Tables(s) && Spare(s', pool) == Spare(s, pool)
  {
    AddPageKeeps(s1, own, pool, p, 0, j, f, stale);
    AddPageWalk(s1, own, pool, p, 0, j, f, stale);
  }

  ghost function Slice(view: Option<seq<int>>, offset: nat, n: nat): seq<int> {
    if view.Some? && offset + n <= |view.value| then view.value[offset..offset + n] else []
  }

  // Page v of p now holds `data` at `offset`, and elsewhere what it held before; nothing
  // else differs.
  ghost predicate Stored(s: Sys, s': Sys, p: Pid, v: nat, offset: nat, data: seq<int>) {
    && OthersKept(s, s', p, v)
    && ViewOf(s', p, v).Some?
    && var b' := ViewOf(s', p, v).value;
       && |b'| == PAGE_SIZE && offset + |data| <= PAGE_SIZE
       && b'[offset..offset + |data|] == data
       && (ViewOf(s, p, v).Some? ==>
             |ViewOf(s, p, v).value| == PAGE_SIZE
             && b' == ViewOf(s, p, v).value[..offset] + data + ViewOf(s, p, v).value[offset + |data|..])
  }

  lemma PageHere(s: Sys, own: Owners, pool: set<Frame>, p: Pid, v: nat, at: PtePtr)
    requires Inv(s, own, pool) && Translates(s, p, v, at)
    requires PteAt(s, p, Vpn1(v), Vpn2(v)).present
    ensures at.0 in s.phys && s.phys[at.0].Table? && at.1 < |s.phys[at.0].ptes|
    ensures var e := s.phys[at.0].ptes[at.1];
            && e == PteAt(s, p, Vpn1(v), Vpn2(v))
            && e.base in s.phys && e.base != at.0 && s.phys[e.base].Page? && |s.phys[e.base].bytes| == PAGE_SIZE
            && ViewOf(s, p, v) == Some(s.phys[e.base].bytes)
  {
    assert TabOk(s, own, p, Vpn1(v)) && PageOk(s, own, p, Vpn1(v), Vpn2(v));
  }

  lemma FlagsOnly(s: Sys, s1: Sys, s': Sys, own: Owners, pool: set<Frame>, p: Pid, v: nat, at: PtePtr, e: Pte)
    requires Inv(s1, own, pool) && Translates(s1, p, v, at) && Touched(s, s1, p, v)
    requires at.0 in s1.phys && s1.phys[at.0].Table? && at.1 < |s1.phys[at.0].ptes|
    requires SameSlot(e, PteAt(s1, p, Vpn1(v), Vpn2(v)))
    requires s' == SetPte(s1, at, e)
    ensures Inv(s', own, pool) && WalksKept(s1, s') && Tables(s') == Tables(s1)
    ensures Touched(s, s', p, v) && ViewOf(s', p, v) == ViewOf(s1, p, v)
    ensures PteAt(s', p, Vpn1(v), Vpn2(v)) == e
  {
    SetFlagsKeeps(s1, own, pool, p, Vpn1(v), Vpn2(v), e);
  }

  lemma BytesStored(s: Sys, s1: Sys, s': Sys, own: Owners, pool: set<Frame>, p: Pid, v: nat, at: PtePtr, e: Pte,
                    offset: nat, data: seq<int>)
    requires Inv(s1, own, pool) && Translates(s1, p, v, at) && Touched(s, s1, p, v)
    requires at.0 in s1.phys && s1.phys[at.0].Table? && at.1 < |s1.phys[at.0].ptes|
    requires PteAt(s1, p, Vpn1(v), Vpn2(v)).present && SameSlot(e, PteAt(s1, p, Vpn1(v), Vpn2(v)))
    requires e.base in s1.phys && e.base != at.0 && s1.phys[e.base].Page? && |s1.phys[e.base].bytes| == PAGE_SIZE
    requires ViewOf(s1, p, v) == Some(s1.phys[e.base].bytes)
    requires offset + |data| <= PAGE_SIZE
    requires var bytes := s1.phys[e.base].bytes;
             var s2 := SetBytes(s1, e.base, bytes[..offset] + data + bytes[offset + |data|..]);
             s' == SetPte(s2, at, e)
    ensures Inv(s', own, pool) && WalksKept(s1, s') && Tables(s') == Tables(s1)
    ensures Stored(s, s', p, v, offset, data)
    ensures PteAt(s', p, Vpn1(v), Vpn2(v)) == e
  {
    hide Inv;
    var bytes := s1.phys[e.base].bytes;
    var bytes' := bytes[..offset] + data + bytes[offset + |data|..];
    SetBytesKeeps(s1, own, pool, p, Vpn1(v), Vpn2(v), bytes');
    var s2 := SetBytes(s1, e.base, bytes');
    SetFlagsKeeps(s2, own, pool, p, Vpn1(v), Vpn2(v), e);
  }

  lemma KeptThenKept(s: Sys, s1: Sys, s': Sys)
    requires ViewsKept(s, s1) && WalksKept(s, s1) && WalksKept(s1, s')
    ensures WalksKept(s, s')
    ensures ViewsKept(s1, s') ==> ViewsKept(s, s')
  {
  }

  lemma KeptThenTouched(s: Sys, s1: Sys, s': Sys, p: Pid, v: nat)
    requires ViewsKept(s, s1) && Touched(s1, s', p, v)
    ensures Touched(s, s', p, v)
  {
  }

  lemma EntryReady(s: Sys, own: Owners, pool: set<Frame>, p: Pid, v: nat, at: PtePtr)
    requires Inv(s, own, pool) && Translates(s, p, v, at)
    ensures at.0 in s.phys && s.phys[at.0].Table? && at.1 < |s.phys[at.0].ptes|
    ensures s.phys[at.0].ptes[at.1] == PteAt(s, p, Vpn1(v), Vpn2(v))
    ensures s.phys[at.0].ptes[at.1].present ==> Touched(s, s, p, v)
  {
    assert TabOk(s, own, p, Vpn1(v)) && PageOk(s, own, p, Vpn1(v), Vpn2(v));
  }

  lemma PageReady(s: Sys, s1: Sys, own: Owners, pool: set<Frame>, p: Pid, v: nat, at: PtePtr, f: Frame, stale: seq<int>)
    requires WalksKept(s, s1) && ViewsKept(s, s1) && OnlyEvicted(s, s1)
    requires Inv(s1, own, pool)
    requires Translates(s, p, v, at) && f in s1.free && !PteAt(s, p, Vpn1(v), Vpn2(v)).present
    requires |stale| == PAGE_SIZE
    ensures Translates(s1, p, v, at)
    ensures at.0 in s1.phys && s1.phys[at.0].Table? && at.1 < |s1.phys[at.0].ptes| && at.0 != f
    ensures !s1.phys[at.0].ptes[at.1].present
    ensures var s' := AddPage(s1, at, f, if at in s1.swap then s1.swap[at] else stale);
            && Inv(s', own[f := PageOf(p, Vpn1(v), Vpn2(v))], pool)
            && WalksKept(s, s') && Touched(s, s', p, v)
            && PteAt(s', p, Vpn1(v), Vpn2(v)).present
            && Tables(s') == Tables(s)
  {
    var bytes := if at in s1.swap then s1.swap[at] else stale;
    EntryReady(s1, own, pool, p, v, at);
    assert at in s1.swap ==> SwapOk(s1, own, at);
    AddPageKeeps(s1, own, pool, p, Vpn1(v), Vpn2(v), f, bytes);
    var s' := AddPage(s1, at, f, bytes);
    assert PageView(s1, p, Vpn1(v), Vpn2(v)).Some? ==> PageView(s1, p, Vpn1(v), Vpn2(v)) == Some(bytes);
  }

  lemma DirReady(s: Sys, own: Owners, pool: set<Frame>, p: Pid)
    requires Inv(s, own, pool)
    requires p in s.dirs
    ensures s.dirs[p] in s.phys && s.phys[s.dirs[p]].Directory? && |s.phys[s.dirs[p]].pdes| == NUM_ENTRIES
  {
    assert DirOk(s, own, p);
  }

  lemma WalksMean(s: Sys, s': Sys)
    requires WalksKept(s, s')
    ensures s'.dirs == s.dirs
  {
  }

  lemma WalksTranslate(s: Sys, s': Sys, p: Pid, tlb: map<nat, PtePtr>)
    requires WalksKept(s, s')
    ensures forall u | u in tlb && Translates(s, p, u, tlb[u]) :: Translates(s', p, u, tlb[u])
  {
  }

  // Translations survive as long as walks do.
  lemma StillTranslates(s: Sys, s': Sys, p: Pid, v: nat, tlb: map<nat, PtePtr>)
    requires PdesKept(s, s')
    ensures forall u | u in tlb && Translates(s, p, u, tlb[u]) :: Translates(s', p, u, tlb[u])
  {
  }

  lemma TableReady(s: Sys, s1: Sys, own: Owners, pool: set<Frame>, p: Pid, i: nat, f: Frame)
    requires WalksKept(s, s1) && ViewsKept(s, s1) && OnlyEvicted(s, s1)
    requires Inv(s1, own, pool)
    requires p in s1.dirs && i < NUM_ENTRIES && f in s1.free && !PdeAt(s, p, i).present
    ensures s1.dirs[p] != f && s1.dirs[p] in s1.phys && s1.phys[s1.dirs[p]].Directory?
    ensures i < |s1.phys[s1.dirs[p]].pdes|
    ensures var s' := AddTable(s1, p, i, f);
            && Inv(s', own[f := TabOf(p, i)], pool)
            && WalksKept(s, s') && ViewsKept(s, s')
            && PdeAt(s', p, i) == Pde(true, f)
            && Tables(s') == Tables(s) + {(p, i)}
            && forall j: nat :: !PteAt(s', p, i, j).present
  {
    AddTableKeeps(s1, own, pool, p, i, f);
    AddTableWalk(s1, own, pool, p, i, f);
  }

  // A frame that holds a table belongs to one present directory entry.
  lemma TableOwner(s: Sys, own: Owners, pool: set<Frame>, t: Frame) returns (p: Pid, i: nat)
    requires Inv(s, own, pool)
    requires t in s.phys && s.phys[t].Table?
    ensures own[t] == TabOf(p, i) && PdeAt(s, p, i).present && PdeAt(s, p, i).base == t
  {
    assert OwnerOk(s, own[t], t);
    assert own[t].PageOf? ==> PageOk(s, own, own[t].p, own[t].i, own[t].j);
    p, i := own[t].p, own[t].i;
  }

  lemma EvictedTwice(s: Sys, s1: Sys, s': Sys)
    requires ViewsKept(s, s1) && WalksKept(s, s1) && OnlyEvicted(s, s1)
    requires ViewsKept(s1, s') && WalksKept(s1, s') && OnlyEvicted(s1, s')
    ensures ViewsKept(s, s') && WalksKept(s, s') && OnlyEvicted(s, s')
  {
  }

  lemma SameTables(s: Sys, s': Sys, pool: set<Frame>)
    requires WalksKept(s, s') && OnlyEvicted(s, s')
    ensures Tables(s') == Tables(s) && Spare(s', pool) == Spare(s, pool)
  {
  }

  lemma SameWalks(s: Sys, s': Sys, p: Pid, i: nat)
    requires OnlyEvicted(s, s')
    ensures PdeAt(s', p, i) == PdeAt(s, p, i)
  {
  }

  // A new table takes a frame, one that was there does not.
  lemma RoomAfterTable(s: Sys, s': Sys, own0: Owners, pool: set<Frame>, p: Pid, i: nat)
    requires WalksKept(s, s') && Tables(s') == Tables(s) + {(p, i)}
    requires Inv(s, own0, pool)
    ensures Spare(s', pool) == Spare(s, pool) - if PdeAt(s, p, i).present then 0 else 1
  {
    if PdeAt(s, p, i).present {
      TableInRange(s, own0, pool, p, i);
    }
    assert (p, i) in Tables(s) <==> PdeAt(s, p, i).present;
    hide Tables;
    assert (p, i) in Tables(s) ==> Tables(s') == Tables(s);
  }

  lemma NothingChanged(s: Sys)
    ensures ViewsKept(s, s) && WalksKept(s, s) && OnlyEvicted(s, s)
  {
  }

  // Whatever page the kernel picks, nobody notices.
  lemma EvictAny(s: Sys, own: Owners, pool: set<Frame>, t: Frame, j: nat)
    requires Inv(s, own, pool)
    requires t in s.phys && s.phys[t].Table? && j < |s.phys[t].ptes| && s.phys[t].ptes[j].present
    ensures var e := s.phys[t].ptes[j];
            && e.base in s.phys && s.phys[e.base].Page? && e.base != t
            && var s' := Evict(s, (t, j));
               && Inv(s', own - {e.base}, pool)
               && ViewsKept(s, s') && WalksKept(s, s') && OnlyEvicted(s, s')
               && |s'.phys.Keys| < |s.phys.Keys|
  {
    var p, i := TableOwner(s, own, pool, t);
    assert PteAt(s, p, i, j) == s.phys[t].ptes[j];
    assert TabOk(s, own, p, i);
    EvictReady(s, own, pool, p, i, j);
    hide Inv, ViewsKept;
    EvictKeeps(s, own, pool, p, i, j);
    WalkAfterEvict(s, own, pool, p, i, j);
    assert Evict(s, (t, j)).phys.Keys == s.phys.Keys - {s.phys[t].ptes[j].base};
  }

  // ---------- the loops of mmu_remove_process ----------

  lemma RemovingStarts(s: Sys, own: Owners, pool: set<Frame>, p: Pid)
    requires Inv(s, own, pool)
    ensures Removing(s, s, own, p, 0, 0)
  {
    assert Returned(own, p, 0, 0) == {} && Unswapped(s, own, p, 0, 0) == {};
  }

  // The directory can still be read, and an absent entry needs no work.
  lemma RowReady(s0: Sys, s: Sys, own: Owners, pool: set<Frame>, p: Pid, i: nat)
    requires Inv(s0, own, pool) && Removing(s0, s, own, p, i, 0)
    requires p in s0.dirs && i < NUM_ENTRIES
    ensures s0.dirs[p] in s.phys && s.phys[s0.dirs[p]].Directory? && i < |s.phys[s0.dirs[p]].pdes|
    ensures s.phys[s0.dirs[p]].pdes[i] == PdeAt(s0, p, i)
    ensures !PdeAt(s0, p, i).present ==> Removing(s0, s, own, p, i + 1, 0)
  {
    assert DirOk(s0, own, p);
    PassRow(s0, own, pool, p, i);
  }

  // The table can still be read, its page was not returned before, and dealing with the
  // entry is one step.
  lemma EntryStep(s0: Sys, s: Sys, own: Owners, pool: set<Frame>, p: Pid, i: nat, j: nat)
    requires Inv(s0, own, pool) && Removing(s0, s, own, p, i, j)
    requires PdeAt(s0, p, i).present && j < NUM_ENTRIES
    ensures var t := PdeAt(s0, p, i).base;
            && t in s.phys && s.phys[t].Table? && j < |s.phys[t].ptes|
            && var e := s.phys[t].ptes[j];
               && (e.present ==> e.base in s.phys && e.base !in s.free)
               && Removing(s0,
                           if e.present
                           then s.(phys := s.phys - {e.base}, free := s.free + {e.base}, swap := s.swap - {(t, j)})
                           else s.(swap := s.swap - {(t, j)}),
                           own, p, i, j + 1)
  {
    var t := PdeAt(s0, p, i).base;
    assert TabOk(s0, own, p, i);
    PassPage(s0, own, pool, p, i, j);
    PassSwap(s0, own, pool, p, i, j);
    var e := s.phys[t].ptes[j];
    assert e == PteAt(s0, p, i, j);
    assert s.swap - {(t, j)} == s0.swap - Unswapped(s0, own, p, i, j + 1);
  }

  lemma RowStep(s0: Sys, s: Sys, own: Owners, pool: set<Frame>, p: Pid, i: nat)
    requires Inv(s0, own, pool) && Removing(s0, s, own, p, i, NUM_ENTRIES)
    requires PdeAt(s0, p, i).present
    ensures var t := PdeAt(s0, p, i).base;
            && t in s.phys && t !in s.free
            && Removing(s0, s.(phys := s.phys - {t}, free := s.free + {t}), own, p, i + 1, 0)
  {
    PassRow(s0, own, pool, p, i);
  }

  lemma RemovingEnds(s0: Sys, s: Sys, own: Owners, pool: set<Frame>, p: Pid)
    requires Inv(s0, own, pool) && Removing(s0, s, own, p, NUM_ENTRIES, 0)
    requires p in s0.dirs
    ensures var f := s0.dirs[p];
            && f in s.phys && f !in s.free
            && s.(dirs := s.dirs - {p}, phys := s.phys - {f}, free := s.free + {f})
               == MmuSteps.RemoveProcess(s0, own, p)
  {
    assert DirOk(s0, own, p);
    PassAll(s0, own, pool, p);
  }

  lemma RemovedTables(s: Sys, s': Sys, p: Pid)
    requires s'.dirs == s.dirs - {p}
    requires forall q: Pid, k: nat | q != p :: PdeAt(s', q, k) == PdeAt(s, q, k)
    ensures Tables(s') == set t | t in Tables(s) && t.0 != p
  {
  }

  lemma NobodyToRemove(s: Sys, own: Owners, pool: set<Frame>, p: Pid)
    requires Inv(s, own, pool)
    requires p !in s.dirs
    ensures FramesOf(own, p) == {} && SwapsOf(s, own, p) == {}
    ensures s.(dirs := s.dirs - {p}) == MmuSteps.RemoveProcess(s, own, p)
  {
    forall f | f in own
      ensures own[f].p != p
    {
      assert OwnerOk(s, own[f], f);
    }
  }
}
