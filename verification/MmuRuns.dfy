/**
 * Whole runs of the memory management unit: any sequence of process additions and
 * removals, reads and writes, with the kernel evicting whatever it likes in between.
 * Every process sees one flat memory of its own.
 */
module MmuRuns {
  import opened Basics
  import opened MmuModel
  import opened Mmu

  datatype Request =
    | Add(p: Pid)
    | Remove(p: Pid)
    | Read(p: Pid, va: nat, n: nat)
    | Write(p: Pid, va: nat, data: seq<int>)

  // A request that breaks the callers' side of the bargain is not carried out.
  datatype Answer = Illegal | Value(value: seq<int>) | Denied | NoFrames

  datatype Entry = Entry(req: Request, result: Answer)

  // One byte of one process.
  datatype Cell = Cell(p: Pid, va: nat)

  // The flat memories: the last byte written at each address of each process.
  type Flat = map<Cell, int>

  predicate Hits(a: Cell, p: Pid, va: nat, n: nat) {
    a.p == p && va <= a.va < va + n
  }

  function Span(p: Pid, va: nat, n: nat): set<Cell> {
    set a: nat | va <= a < va + n :: Cell(p, a)
  }

  function WriteAll(k: Flat, p: Pid, va: nat, data: seq<int>): Flat {
    map a | a in k.Keys + Span(p, va, |data|) :: if Hits(a, p, va, |data|) then data[a.va - va] else k[a]
  }

  function Forget(k: Flat, p: Pid): Flat {
    map a | a in k && a.p != p :: k[a]
  }

  function After(k: Flat, e: Entry): Flat {
    match e.req
    case Write(p, va, data) => if e.result.Value? then WriteAll(k, p, va, data) else k
    case Remove(p) => if e.result.Value? then Forget(k, p) else k
    case _ => k
  }

  function FlatAfter(log: seq<Entry>): Flat {
    if log == [] then map[] else After(FlatAfter(log[..|log| - 1]), log[|log| - 1])
  }

  // A read returned the last bytes written.
  ghost predicate Truthful(k: Flat, e: Entry) {
    e.req.Read? && e.result.Value? ==>
      var p, va, n := e.req.p, e.req.va, e.req.n;
      && |e.result.value| == n
      && forall i | 0 <= i < n && Cell(p, va + i) in k :: e.result.value[i] == k[Cell(p, va + i)]
  }

  ghost predicate AllTruthful(log: seq<Entry>) {
    forall i | 0 <= i < |log| :: Truthful(FlatAfter(log[..i]), log[i])
  }

  ghost predicate ByteIs(view: Option<seq<int>>, offset: nat, b: int) {
    view.Some? && offset < |view.value| && view.value[offset] == b
  }

  // Every byte that was written is what its process sees.
  ghost predicate Holds(k: Flat, s: Sys) {
    forall a | a in k :: ByteIs(ViewOf(s, a.p, a.va / PAGE_SIZE), a.va % PAGE_SIZE, k[a])
  }

  lemma KeptHolds(k: Flat, s: Sys, s': Sys)
    requires Holds(k, s) && ViewsKept(s, s')
    ensures Holds(k, s')
  {
  }

  // Two pages of one process differ in one of the two table indices.
  lemma PageNumber(v: nat, w: nat)
    requires Vpn1(v) == Vpn1(w) && Vpn2(v) == Vpn2(w)
    ensures v == w
  {
  }

  lemma TouchedHolds(k: Flat, s: Sys, s': Sys, p: Pid, v: nat)
    requires Holds(k, s) && Touched(s, s', p, v)
    ensures Holds(k, s')
  {
    forall a | a in k
      ensures ByteIs(ViewOf(s', a.p, a.va / PAGE_SIZE), a.va % PAGE_SIZE, k[a])
    {
      assert ByteIs(ViewOf(s, a.p, a.va / PAGE_SIZE), a.va % PAGE_SIZE, k[a]);
      var w := a.va / PAGE_SIZE;
      if a.p == p && Vpn1(w) == Vpn1(v) && Vpn2(w) == Vpn2(v) {
        PageNumber(v, w);
      }
    }
  }

  lemma StoredHolds(k: Flat, s: Sys, s': Sys, p: Pid, va: nat, data: seq<int>)
    requires Holds(k, s)
    requires |data| + va % PAGE_SIZE <= PAGE_SIZE
    requires Stored(s, s', p, va / PAGE_SIZE, va % PAGE_SIZE, data)
    ensures Holds(WriteAll(k, p, va, data), s')
  {
    var k', v := WriteAll(k, p, va, data), va / PAGE_SIZE;
    forall a | a in k'
      ensures ByteIs(ViewOf(s', a.p, a.va / PAGE_SIZE), a.va % PAGE_SIZE, k'[a])
    {
      StoredByte(k, s, s', p, va, data, a);
    }
  }

  lemma StoredByte(k: Flat, s: Sys, s': Sys, p: Pid, va: nat, data: seq<int>, a: Cell)
    requires Holds(k, s)
    requires |data| + va % PAGE_SIZE <= PAGE_SIZE
    requires Stored(s, s', p, va / PAGE_SIZE, va % PAGE_SIZE, data)
    requires a in WriteAll(k, p, va, data)
    ensures ByteIs(ViewOf(s', a.p, a.va / PAGE_SIZE), a.va % PAGE_SIZE, WriteAll(k, p, va, data)[a])
  {
    var v, w, offset := va / PAGE_SIZE, a.va / PAGE_SIZE, va % PAGE_SIZE;
    if Hits(a, p, va, |data|) {
      assert w == v && a.va % PAGE_SIZE == offset + (a.va - va);
      assert ViewOf(s', p, v).value[offset..offset + |data|][a.va - va] == data[a.va - va];
    } else {
      assert a in k;
      assert ByteIs(ViewOf(s, a.p, w), a.va % PAGE_SIZE, k[a]);
      if a.p == p && Vpn1(w) == Vpn1(v) && Vpn2(w) == Vpn2(v) {
        PageNumber(v, w);
      }
    }
  }

  lemma RemovedHolds(k: Flat, s: Sys, s': Sys, p: Pid)
    requires Holds(k, s)
    requires forall q: Pid, i: nat, j: nat | q != p :: PageView(s', q, i, j) == PageView(s, q, i, j)
    ensures Holds(Forget(k, p), s')
  {
    forall a | a in Forget(k, p)
      ensures ByteIs(ViewOf(s', a.p, a.va / PAGE_SIZE), a.va % PAGE_SIZE, k[a])
    {
      assert ByteIs(ViewOf(s, a.p, a.va / PAGE_SIZE), a.va % PAGE_SIZE, k[a]);
    }
  }

  lemma AddedHolds(k: Flat, s: Sys, s': Sys, p: Pid)
    requires Holds(k, s) && p !in s.dirs
    requires forall q: Pid, i: nat, j: nat | q != p || i != 0 || (j != 1 && j != 2) ::
               PageView(s', q, i, j) == PageView(s, q, i, j)
    ensures Holds(k, s')
  {
    forall a | a in k
      ensures ByteIs(ViewOf(s', a.p, a.va / PAGE_SIZE), a.va % PAGE_SIZE, k[a])
    {
      assert ByteIs(ViewOf(s, a.p, a.va / PAGE_SIZE), a.va % PAGE_SIZE, k[a]);
      assert a.p != p;
    }
  }

  lemma ReadTruthful(k: Flat, s: Sys, p: Pid, va: nat, n: nat)
    requires Holds(k, s) && n + va % PAGE_SIZE <= PAGE_SIZE
    ensures forall i | 0 <= i < n && Cell(p, va + i) in k ::
              i < |Slice(ViewOf(s, p, va / PAGE_SIZE), va % PAGE_SIZE, n)| ==>
              Slice(ViewOf(s, p, va / PAGE_SIZE), va % PAGE_SIZE, n)[i] == k[Cell(p, va + i)]
  {
    forall i | 0 <= i < n && Cell(p, va + i) in k
      ensures i < |Slice(ViewOf(s, p, va / PAGE_SIZE), va % PAGE_SIZE, n)| ==>
              Slice(ViewOf(s, p, va / PAGE_SIZE), va % PAGE_SIZE, n)[i] == k[Cell(p, va + i)]
    {
      assert (va + i) / PAGE_SIZE == va / PAGE_SIZE && (va + i) % PAGE_SIZE == va % PAGE_SIZE + i;
      assert ByteIs(ViewOf(s, p, (va + i) / PAGE_SIZE), (va + i) % PAGE_SIZE, k[Cell(p, va + i)]);
    }
  }

  // ---------- which requests are served ----------

  // What the outcome of a request depends on: the processes and their tables.
  datatype Account = Account(live: set<Pid>, tables: set<(Pid, nat)>) {
    function Spare(frames: nat): int {
      frames - |live| - |tables|
    }
  }

  ghost predicate Describes(a: Account, s: Sys) {
    s.dirs.Keys == a.live && Tables(s) == a.tables
  }

  // What the callers must respect (the asserts of mmu.c): processes are added once before
  // they are used, and an access does not leave its page.
  predicate Fits(va: nat, n: nat) {
    va < ADDRESSES && n + va % PAGE_SIZE <= PAGE_SIZE
  }

  predicate Legal(live: set<Pid>, req: Request) {
    match req
    case Add(p) => p !in live
    case Remove(p) => true
    case Read(p, va, n) => p in live && Fits(va, n)
    case Write(p, va, data) => p in live && Fits(va, |data|)
  }

  datatype Kind = Refused | Served | Faulted | Starved

  function KindOf(r: Answer): Kind {
    match r
    case Illegal => Refused
    case Value(_) => Served
    case Denied => Faulted
    case NoFrames => Starved
  }

  // An access in a segment needs a frame for its page, and one more for a missing table.
  function Enough(a: Account, frames: nat, p: Pid, va: nat): bool {
    a.Spare(frames) >= if (p, Vpn1(va / PAGE_SIZE)) in a.tables then 1 else 2
  }

  function AccessVerdict(a: Account, frames: nat, p: Pid, va: nat, permitted: bool): Kind {
    if FindSegment(va).None? then Faulted
    else if !Enough(a, frames, p, va) then Starved
    else if permitted then Served
    else Faulted
  }

  function Verdict(a: Account, frames: nat, req: Request): Kind {
    if !Legal(a.live, req) then Refused
    else match req
      case Add(p) => if a.Spare(frames) >= 3 then Served else Starved
      case Remove(p) => Served
      case Read(p, va, n) => AccessVerdict(a, frames, p, va, Readable(va))
      case Write(p, va, data) => AccessVerdict(a, frames, p, va, Writable(va))
  }

  function Accessed(a: Account, frames: nat, p: Pid, va: nat): Account {
    var t := (p, Vpn1(va / PAGE_SIZE));
    if FindSegment(va).Some? && (t in a.tables || a.Spare(frames) > 0) then a.(tables := a.tables + {t}) else a
  }

  function Charged(a: Account, frames: nat, req: Request): Account {
    if !Legal(a.live, req) then a
    else match req
      case Add(p) =>
        Account(a.live + if a.Spare(frames) >= 1 then {p} else {},
                a.tables + if a.Spare(frames) >= 2 then {(p, 0)} else {})
      case Remove(p) => Account(a.live - {p}, set t | t in a.tables && t.0 != p)
      case Read(p, va, n) => Accessed(a, frames, p, va)
      case Write(p, va, data) => Accessed(a, frames, p, va)
  }

  function AccountAfter(reqs: seq<Request>, frames: nat): Account {
    if reqs == [] then Account({}, {}) else Charged(AccountAfter(reqs[..|reqs| - 1], frames), frames, reqs[|reqs| - 1])
  }

  lemma AccountGrows(reqs: seq<Request>, i: nat, frames: nat)
    requires i < |reqs|
    ensures AccountAfter(reqs[..i + 1], frames) == Charged(AccountAfter(reqs[..i], frames), frames, reqs[i])
  {
    assert reqs[..i + 1][..i] == reqs[..i];
  }

  ghost predicate Judged(reqs: seq<Request>, log: seq<Entry>, frames: nat, i: nat)
    requires i < |reqs| && i < |log|
  {
    log[i].req == reqs[i] && KindOf(log[i].result) == Verdict(AccountAfter(reqs[..i], frames), frames, reqs[i])
  }

  // Every request is answered, and how is settled by the requests before it and the number
  // of frames, whatever the kernel evicts; reads return the last bytes written. `stale` is
  // the leftover content of the frames that pages get on the way.
  method Run(m: MMU, reqs: seq<Request>, stale: seq<(seq<int>, seq<int>)>) returns (log: seq<Entry>)
    requires m.Valid() && m.dirs == map[]
    requires |stale| == |reqs| && forall i | 0 <= i < |stale| :: |stale[i].0| == |stale[i].1| == PAGE_SIZE
    modifies m
    ensures m.Valid()
    ensures |log| == |reqs| && forall i: nat | i < |reqs| :: Judged(reqs, log, |m.pool|, i)
    ensures AllTruthful(log)
    ensures Holds(FlatAfter(log), m.Now())
    ensures Describes(AccountAfter(reqs, |m.pool|), m.Now())
  {
    hide Inv, Holds, Truthful, Tables, Charged, Verdict;
    log := [];
    ghost var frames := |m.pool|;
    NothingThere(m.Now());
    assert reqs[..0] == [];
    var k := 0;
    while k < |reqs|
      invariant 0 <= k <= |reqs| && |log| == k
      invariant m.Valid() && Describes(AccountAfter(reqs[..k], frames), m.Now())
      invariant forall i: nat | i < k :: Judged(reqs, log, frames, i)
      invariant AllTruthful(log)
      invariant Holds(FlatAfter(log), m.Now())
    {
      ghost var log0 := log;
      var r := Serve(m, reqs[k], stale[k].0, stale[k].1, FlatAfter(log), AccountAfter(reqs[..k], frames));
      log := log + [Entry(reqs[k], r)];
      LogGrows(log0, Entry(reqs[k], r));
      AccountGrows(reqs, k, frames);
      assert forall i: nat | i < k :: Judged(reqs, log0, frames, i) ==> Judged(reqs, log, frames, i);
      k := k + 1;
    }
    assert reqs[..|reqs|] == reqs;
  }

  lemma NothingThere(s: Sys)
    requires s.dirs == map[]
    ensures Holds(map[], s) && Describes(Account({}, {}), s)
  {
  }

  lemma LogGrows(log: seq<Entry>, e: Entry)
    requires AllTruthful(log) && Truthful(FlatAfter(log), e)
    ensures AllTruthful(log + [e])
    ensures FlatAfter(log + [e]) == After(FlatAfter(log), e)
  {
    var log' := log + [e];
    assert log'[..|log|] == log;
    forall i | 0 <= i < |log'|
      ensures Truthful(FlatAfter(log'[..i]), log'[i])
    {
      assert i < |log| ==> log'[..i] == log[..i];
    }
  }

  method Serve(m: MMU, req: Request, stale1: seq<int>, stale2: seq<int>, ghost k: Flat, ghost a: Account)
    returns (r: Answer)
    requires m.Valid() && |stale1| == |stale2| == PAGE_SIZE
    requires Holds(k, m.Now()) && Describes(a, m.Now())
    modifies m
    ensures m.Valid()
    ensures KindOf(r) == Verdict(a, |m.pool|, req)
    ensures Describes(Charged(a, |m.pool|, req), m.Now())
    ensures Truthful(k, Entry(req, r))
    ensures Holds(After(k, Entry(req, r)), m.Now())
  {
    hide Inv, Holds, ViewsKept, Touched, Stored, Readable, Writable, Tables, FindSegment;
    ghost var s0 := m.Now();
    if !Legal(m.dirs.Keys, req) {
      return Illegal;
    }
    match req {
      case Add(p) =>
        var ok := m.AddProcess(p, stale1, stale2);
        AddedHolds(k, s0, m.Now(), p);
        r := if ok then Value([]) else NoFrames;
      case Remove(p) =>
        m.RemoveProcess(p);
        RemovedHolds(k, s0, m.Now(), p);
        r := Value([]);
      case Read(p, va, n) =>
        r := ServeRead(m, p, va, n, stale1, k, a);
      case Write(p, va, data) =>
        r := ServeWrite(m, p, va, data, stale1, k, a);
    }
  }

  method ServeRead(m: MMU, p: Pid, va: nat, n: nat, stale: seq<int>, ghost k: Flat, ghost a: Account)
    returns (r: Answer)
    requires m.Valid() && |stale| == PAGE_SIZE && p in m.dirs && Fits(va, n)
    requires Holds(k, m.Now()) && Describes(a, m.Now())
    modifies m
    ensures m.Valid()
    ensures KindOf(r) == AccessVerdict(a, |m.pool|, p, va, Readable(va))
    ensures Describes(Accessed(a, |m.pool|, p, va), m.Now())
    ensures Truthful(k, Entry(Request.Read(p, va, n), r)) && Holds(k, m.Now())
  {
    hide Inv, Holds, ViewsKept, Touched, Readable, Tables, FindSegment, Enough, Needed, Accessed, Reached, Spare;
    ghost var s0 := m.Now();
    AccountMeans(a, s0, m.own, m.pool, p, va);
    PermittedMeans(va);
    var w := m.Read(p, va, n, stale);
    HoldsStill(k, s0, m.Now(), p, va / PAGE_SIZE);
    ReadTruthful(k, m.Now(), p, va, n);
    r := if w.Done? then Value(w.value) else if w.SegFault? then Denied else NoFrames;
  }

  method ServeWrite(m: MMU, p: Pid, va: nat, data: seq<int>, stale: seq<int>, ghost k: Flat, ghost a: Account)
    returns (r: Answer)
    requires m.Valid() && |stale| == PAGE_SIZE && p in m.dirs && Fits(va, |data|)
    requires Holds(k, m.Now()) && Describes(a, m.Now())
    modifies m
    ensures m.Valid()
    ensures KindOf(r) == AccessVerdict(a, |m.pool|, p, va, Writable(va))
    ensures Describes(Accessed(a, |m.pool|, p, va), m.Now())
    ensures Holds(if r.Value? then WriteAll(k, p, va, data) else k, m.Now())
  {
    hide Inv, Holds, ViewsKept, Touched, Stored, Writable, Tables, FindSegment, Enough, Needed, Accessed, Reached,
         Spare;
    ghost var s0 := m.Now();
    AccountMeans(a, s0, m.own, m.pool, p, va);
    PermittedMeans(va);
    var w := m.Write(p, va, data, stale);
    if w.Done? {
      StoredHolds(k, s0, m.Now(), p, va, data);
      r := Value([]);
    } else {
      HoldsStill(k, s0, m.Now(), p, va / PAGE_SIZE);
      r := if w.SegFault? then Denied else NoFrames;
    }
  }

  lemma PermittedMeans(va: nat)
    ensures Readable(va) || Writable(va) ==> FindSegment(va).Some?
  {
  }

  lemma AccountSpare(a: Account, s: Sys, pool: set<Frame>)
    requires Describes(a, s)
    ensures Spare(s, pool) == a.Spare(|pool|)
  {
    hide Tables;
    assert |s.dirs| == |s.dirs.Keys|;
  }

  lemma AccountTable(a: Account, s: Sys, own: Owners, pool: set<Frame>, p: Pid, i: nat)
    requires Describes(a, s) && Inv(s, own, pool)
    ensures (p, i) in a.tables <==> PdeAt(s, p, i).present
  {
    hide Inv;
    if PdeAt(s, p, i).present {
      TableInRange(s, own, pool, p, i);
    }
  }

  // The account says of the machine what accesses need and leave.
  lemma AccountMeans(a: Account, s: Sys, own: Owners, pool: set<Frame>, p: Pid, va: nat)
    requires Describes(a, s) && Inv(s, own, pool)
    ensures Enough(a, |pool|, p, va) <==> Spare(s, pool) >= Needed(s, p, va / PAGE_SIZE)
    ensures Accessed(a, |pool|, p, va) == a.(tables := Tables(s) + Reached(s, Spare(s, pool), p, va))
  {
    AccountSpare(a, s, pool);
    AccountTable(a, s, own, pool, p, Vpn1(va / PAGE_SIZE));
    hide FindSegment, Tables, Spare, Inv, PdeAt, Vpn1;
    assert Tables(s) + {} == Tables(s);
  }

  lemma HoldsStill(k: Flat, s: Sys, s': Sys, p: Pid, v: nat)
    requires Holds(k, s)
    requires ViewsKept(s, s') || Touched(s, s', p, v)
    ensures Holds(k, s')
  {
    if Touched(s, s', p, v) {
      TouchedHolds(k, s, s', p, v);
    } else {
      KeptHolds(k, s, s');
    }
  }
}
