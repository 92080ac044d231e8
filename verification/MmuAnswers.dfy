/**
 * Which accesses of a whole run are served, in terms of addresses alone: the segments that
 * ideal_indirection/mmu.c gives every process, and the frames there are.
 */
module MmuAnswers {
  import opened Basics
  import opened MmuModel
  import opened Mmu
  import opened MmuRuns

  // Every request was answered as the requests before it and the number of frames decide.
  ghost predicate AllJudged(reqs: seq<Request>, log: seq<Entry>, frames: nat) {
    |log| == |reqs| && forall i: nat | i < |reqs| :: Judged(reqs, log, frames, i)
  }

  // Stack, bss, data and the testing pages; the mmap and heap segments are empty.
  predicate InData(va: nat) {
    0xBFFFE000 <= va < 0xC07FE000 || 0x08052000 <= va < 0x08072000 || 0x1000 <= va < 0x3000
  }

  predicate InText(va: nat) {
    0x08048000 <= va < 0x08052000
  }

  lemma SegmentsAre(va: nat)
    ensures Writable(va) <==> InData(va)
    ensures Readable(va) <==> InData(va) || InText(va)
    ensures FindSegment(va).Some? <==> InData(va) || InText(va)
  {
    var text := SEGMENTS[5];
    assert text in SEGMENTS;
    assert SEGMENTS[0] in SEGMENTS && SEGMENTS[3] in SEGMENTS && SEGMENTS[4] in SEGMENTS && SEGMENTS[6] in SEGMENTS;
    var g := FindSegment(va);
    if g.Some? {
      assert exists k :: 0 <= k < |SEGMENTS| && SEGMENTS[k] == g.value;
    }
  }

  // ---------- what a served access says ----------

  // A write is carried out only in a segment that may be written, and a read answered only
  // from one that may be read.
  lemma ServedIsPermitted(reqs: seq<Request>, log: seq<Entry>, frames: nat, i: nat)
    requires AllJudged(reqs, log, frames) && i < |log| && log[i].result.Value?
    ensures log[i].req.Write? ==> exists g :: g in SEGMENTS && g.write && g.start <= log[i].req.va < g.end
    ensures log[i].req.Read? ==> exists g :: g in SEGMENTS && g.read && g.start <= log[i].req.va < g.end
    ensures log[i].req.Write? ==> InData(log[i].req.va)
    ensures log[i].req.Read? ==> InData(log[i].req.va) || InText(log[i].req.va)
  {
    assert Judged(reqs, log, frames, i);
    var req := reqs[i];
    if req.Write? || req.Read? {
      SegmentsAre(req.va);
      assert FindSegment(req.va).Some?;
    }
  }

  lemma JudgedBefore(reqs: seq<Request>, log: seq<Entry>, frames: nat, n: nat)
    requires AllJudged(reqs, log, frames) && n <= |reqs|
    ensures AllJudged(reqs[..n], log[..n], frames)
  {
    hide AccountAfter, Verdict;
    forall i: nat | i < n
      ensures Judged(reqs[..n], log[..n], frames, i)
    {
      assert Judged(reqs, log, frames, i) && reqs[..n][..i] == reqs[..i];
    }
  }

  // An access within a page stays in its segment.
  lemma SameSegment(va: nat, n: nat, a: nat)
    requires InData(va) && n + va % 0x1000 <= 0x1000 && va <= a < va + n
    ensures InData(a)
  {
    assert va == va / 0x1000 * 0x1000 + va % 0x1000;
  }

  // After any requests whatsoever, every byte that was ever written lies in a segment that
  // may be written: the text of no process has changed.
  lemma {:induction false} OnlyDataIsWritten(reqs: seq<Request>, log: seq<Entry>, frames: nat)
    requires AllJudged(reqs, log, frames)
    ensures forall a | a in FlatAfter(log) :: InData(a.va) && !InText(a.va)
    decreases log
  {
    if log != [] {
      var n := |log| - 1;
      JudgedBefore(reqs, log, frames, n);
      OnlyDataIsWritten(reqs[..n], log[..n], frames);
      var e := log[n];
      if e.req.Write? && e.result.Value? {
        ServedIsPermitted(reqs, log, frames, n);
        ServedFits(reqs, log, frames, n);
        forall a | a in FlatAfter(log)
          ensures InData(a.va)
        {
          if Hits(a, e.req.p, e.req.va, |e.req.data|) {
            SameSegment(e.req.va, |e.req.data|, a.va);
          }
        }
      }
    }
  }

  lemma ServedFits(reqs: seq<Request>, log: seq<Entry>, frames: nat, i: nat)
    requires AllJudged(reqs, log, frames) && i < |log| && log[i].req.Write? && log[i].result.Value?
    ensures |log[i].req.data| + log[i].req.va % 0x1000 <= 0x1000
  {
    assert Judged(reqs, log, frames, i);
  }

  // ---------- and when there are frames enough ----------

  // The processes ever added, and the page tables ever asked for.
  function Pids(reqs: seq<Request>): set<Pid> {
    set i | 0 <= i < |reqs| && reqs[i].Add? :: reqs[i].p
  }

  function TableOf(r: Request): (Pid, nat) {
    (r.p, if r.Read? || r.Write? then r.va / 0x1000 / 1024 else 0)
  }

  function Wanted(reqs: seq<Request>): set<(Pid, nat)> {
    set i | 0 <= i < |reqs| && !reqs[i].Remove? :: TableOf(reqs[i])
  }

  // A frame for every directory and every table there may be, and one for pages.
  predicate Ample(reqs: seq<Request>, frames: nat) {
    frames > |Pids(reqs)| + |Wanted(reqs)|
  }

  // The process has been added and not removed since.
  predicate Alive(reqs: seq<Request>, p: Pid) {
    if reqs == [] then false
    else
      var n := |reqs| - 1;
      if reqs[n] == Request.Add(p) then true
      else if reqs[n] == Remove(p) then false
      else Alive(reqs[..n], p)
  }

  // The account names only processes that were added and tables that were asked for.
  ghost predicate Covered(a: Account, reqs: seq<Request>) {
    a.live <= Pids(reqs) && a.tables <= Wanted(reqs) && forall t | t in a.tables :: t.0 in a.live
  }

  lemma CoveredMore(a: Account, reqs: seq<Request>, n: nat)
    requires n <= |reqs| && Covered(a, reqs[..n])
    ensures Covered(a, reqs)
  {
    forall p | p in Pids(reqs[..n])
      ensures p in Pids(reqs)
    {
      var i :| 0 <= i < n && reqs[..n][i].Add? && reqs[..n][i].p == p;
      assert reqs[i].p == p;
    }
    forall t | t in Wanted(reqs[..n])
      ensures t in Wanted(reqs)
    {
      var i :| 0 <= i < n && !reqs[..n][i].Remove? && TableOf(reqs[..n][i]) == t;
      assert TableOf(reqs[i]) == t;
    }
  }

  lemma ChargedCovered(a: Account, reqs: seq<Request>, frames: nat, req: Request)
    requires Covered(a, reqs) && req in reqs
    ensures Covered(Charged(a, frames, req), reqs)
  {
    hide FindSegment;
    var i :| 0 <= i < |reqs| && reqs[i] == req;
    if req.Add? {
      assert reqs[i].p in Pids(reqs);
    }
    if !req.Remove? {
      assert TableOf(reqs[i]) in Wanted(reqs);
    }
  }

  lemma {:induction false} AccountCovered(reqs: seq<Request>, frames: nat)
    ensures Covered(AccountAfter(reqs, frames), reqs)
    decreases reqs
  {
    if reqs != [] {
      var n := |reqs| - 1;
      AccountCovered(reqs[..n], frames);
      CoveredMore(AccountAfter(reqs[..n], frames), reqs, n);
      hide Covered, Charged;
      ChargedCovered(AccountAfter(reqs[..n], frames), reqs, frames, reqs[n]);
    }
  }

  // With ample frames no request has to do without.
  lemma AmpleSpares(a: Account, reqs: seq<Request>, frames: nat, req: Request)
    requires Covered(a, reqs) && Ample(reqs, frames) && req in reqs
    ensures req.Add? && req.p !in a.live ==> a.Spare(frames) >= 3
    ensures req.Read? || req.Write? ==> Enough(a, frames, req.p, req.va)
  {
    var i :| 0 <= i < |reqs| && reqs[i] == req;
    SubsetSize(a.live, Pids(reqs));
    SubsetSize(a.tables, Wanted(reqs));
    if req.Add? && req.p !in a.live {
      assert reqs[i].p in Pids(reqs) && TableOf(reqs[i]) in Wanted(reqs);
      SubsetSize(a.live + {req.p}, Pids(reqs));
      SubsetSize(a.tables + {(req.p, 0)}, Wanted(reqs));
    }
    if req.Read? || req.Write? {
      var t := TableOf(req);
      assert TableOf(reqs[i]) in Wanted(reqs);
      if t !in a.tables {
        SubsetSize(a.tables + {t}, Wanted(reqs));
      }
    }
  }

  lemma {:induction false} LiveExactly(reqs: seq<Request>, frames: nat, n: nat, p: Pid)
    requires Ample(reqs, frames) && n <= |reqs|
    ensures p in AccountAfter(reqs[..n], frames).live <==> Alive(reqs[..n], p)
  {
    if n > 0 {
      var a, req := AccountAfter(reqs[..n - 1], frames), reqs[n - 1];
      LiveExactly(reqs, frames, n - 1, p);
      AccountGrows(reqs, n - 1, frames);
      AccountCovered(reqs[..n - 1], frames);
      CoveredMore(a, reqs, n - 1);
      assert reqs[..n][..n - 1] == reqs[..n - 1];
      AmpleSpares(a, reqs, frames, req);
      hide Covered, Ample, AccountAfter, FindSegment;
    }
  }

  // What the callers owe: a process that is there, an address of 32 bits and an access that
  // does not leave its page.
  predicate Proper(reqs: seq<Request>, p: Pid, va: nat, n: nat) {
    Alive(reqs, p) && va < 0x1_0000_0000 && n + va % 0x1000 <= 0x1000
  }

  // With ample frames the answer to every request is a matter of which processes there are
  // and of addresses: accesses to data are served, text can be read and not written, and
  // everything else is a segmentation fault.
  lemma AnsweredExactly(reqs: seq<Request>, log: seq<Entry>, frames: nat, i: nat)
    requires AllJudged(reqs, log, frames) && Ample(reqs, frames) && i < |reqs|
    ensures log[i].req == reqs[i]
    ensures match reqs[i]
            case Add(p) => if Alive(reqs[..i], p) then log[i].result.Illegal? else log[i].result.Value?
            case Remove(_) => log[i].result.Value?
            case Read(p, va, n) =>
              if !Proper(reqs[..i], p, va, n) then log[i].result.Illegal?
              else if InData(va) || InText(va) then log[i].result.Value?
              else log[i].result.Denied?
            case Write(p, va, data) =>
              if !Proper(reqs[..i], p, va, |data|) then log[i].result.Illegal?
              else if InData(va) then log[i].result.Value?
              else log[i].result.Denied?
  {
    assert Judged(reqs, log, frames, i);
    var a, req := AccountAfter(reqs[..i], frames), reqs[i];
    LiveExactly(reqs, frames, i, req.p);
    AccountCovered(reqs[..i], frames);
    CoveredMore(a, reqs, i);
    AmpleSpares(a, reqs, frames, req);
    if req.Read? || req.Write? {
      SegmentsAre(req.va);
    }
    hide AllJudged, Covered, Ample, AccountAfter, FindSegment, Readable, Writable, Alive, Enough, InData, InText;
  }
}
