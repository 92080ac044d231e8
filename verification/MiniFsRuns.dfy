/**
 * Whole runs on the files of finding_filesystems/minixfs.c: any reads and writes of any
 * files, with blocks being reserved on the way.
 */
module MiniFsRuns {
  import opened Basics
  import opened MiniFs

  // States between calls, and the calls.
  ghost predicate Trace(tr: seq<seq<File>>, es: seq<Event>) {
    |tr| == |es| + 1 && forall i | 0 <= i < |es| :: Step(tr[i], tr[i + 1], es[i])
  }

  predicate Writes(e: Event, f: nat, p: nat) {
    e.Wrote? && e.f == f && e.off <= p < e.off + |e.buf|
  }

  // The last byte written at position p of file f.
  function LastByte(es: seq<Event>, f: nat, p: nat): Option<byte> {
    if es == [] then None
    else
      var e := es[|es| - 1];
      if Writes(e, f, p) then Some(e.buf[p - e.off]) else LastByte(es[..|es| - 1], f, p)
  }

  function BytesWritten(es: seq<Event>, f: nat): nat {
    if es == [] then 0
    else
      var e := es[|es| - 1];
      BytesWritten(es[..|es| - 1], f) + if e.Wrote? && e.f == f then |e.buf| else 0
  }

  // What a file holds after the calls: at every position the last byte written there, or
  // the byte that was there at the start.
  ghost predicate Remembers(start: File, now: File, es: seq<Event>, f: nat) {
    && now.size == start.size + BytesWritten(es, f)
    && |start.bytes| <= |now.bytes|
    && forall p: nat :: match LastByte(es, f, p)
                        case Some(b) => p < |now.bytes| && now.bytes[p] == b
                        case None => p < |start.bytes| ==> now.bytes[p] == start.bytes[p]
  }

  lemma SubTrace(tr: seq<seq<File>>, es: seq<Event>)
    requires Trace(tr, es) && es != []
    ensures Trace(tr[..|es|], es[..|es| - 1]) && Step(tr[|es| - 1], tr[|es|], es[|es| - 1])
  {
    hide Step;
    forall i | 0 <= i < |es| - 1
      ensures Step(tr[..|es|][i], tr[..|es|][i + 1], es[..|es| - 1][i])
    {
      assert Step(tr[i], tr[i + 1], es[i]);
    }
  }

  // How one call changes one file.
  lemma StepOnFile(fs: seq<File>, fs': seq<File>, e: Event, f: nat)
    requires Step(fs, fs', e) && f < |fs|
    ensures |fs'| == |fs|
    ensures exists r: File :: Extends(fs[f], r)
                              && if e.Wrote? && e.f == f
                                 then e.off + |e.buf| <= |r.bytes| && fs'[f] == Written(r, e.off, e.buf)
                                 else fs'[f] == r
  {
    match e
    case Wrote(g, off, buf) =>
      var r :| WroteOn(fs, r, fs', g, off, buf);
      assert Extends(fs[f], r[f]);
    case Failed =>
      assert Extends(fs[f], fs'[f]);
    case Got(_, _, _, _) =>
      assert Extends(fs[f], fs'[f]);
  }

  // Over every run: each file remembers its last writes, whatever happens to the others and
  // whatever is reserved in between.
  lemma {:induction false} EveryRunRemembers(tr: seq<seq<File>>, es: seq<Event>, f: nat)
    requires Trace(tr, es) && f < |tr[0]|
    ensures |tr[|es|]| == |tr[0]| && Remembers(tr[0][f], tr[|es|][f], es, f)
    decreases es
  {
    if es != [] {
      var n := |es| - 1;
      SubTrace(tr, es);
      EveryRunRemembers(tr[..|es|], es[..n], f);
      StepOnFile(tr[n], tr[n + 1], es[n], f);
      hide Step, Extends;
      RemembersMore(tr[0][f], tr[n][f], tr[n + 1][f], es, f);
    }
  }

  lemma RemembersMore(start: File, mid: File, now: File, es: seq<Event>, f: nat)
    requires es != [] && Remembers(start, mid, es[..|es| - 1], f)
    requires var e := es[|es| - 1];
             exists r: File :: Extends(mid, r)
                               && if e.Wrote? && e.f == f
                                  then e.off + |e.buf| <= |r.bytes| && now == Written(r, e.off, e.buf)
                                  else now == r
    ensures Remembers(start, now, es, f)
  {
    var e := es[|es| - 1];
    forall p: nat
      ensures match LastByte(es, f, p)
              case Some(b) => p < |now.bytes| && now.bytes[p] == b
              case None => p < |start.bytes| ==> now.bytes[p] == start.bytes[p]
    {
      assert LastByte(es, f, p)
             == if Writes(e, f, p) then Some(e.buf[p - e.off]) else LastByte(es[..|es| - 1], f, p);
    }
  }

  // A read anywhere in a run returns the last bytes written.
  lemma ReadsReturnLastWrites(tr: seq<seq<File>>, es: seq<Event>, i: nat, k: nat)
    requires Trace(tr, es) && i < |es| && es[i].Got? && es[i].f < |tr[0]| && k < |es[i].out|
    ensures LastByte(es[..i], es[i].f, es[i].off + k).Some? ==>
              LastByte(es[..i], es[i].f, es[i].off + k) == Some(es[i].out[k])
  {
    assert Step(tr[i], tr[i + 1], es[i]);
    PrefixTrace(tr, es, i);
    EveryRunRemembers(tr[..i + 1], es[..i], es[i].f);
    assert tr[..i + 1][i] == tr[i] && tr[..i + 1][0] == tr[0];
  }

  lemma PrefixTrace(tr: seq<seq<File>>, es: seq<Event>, i: nat)
    requires Trace(tr, es) && i <= |es|
    ensures Trace(tr[..i + 1], es[..i])
  {
    hide Step;
    forall j | 0 <= j < i
      ensures Step(tr[..i + 1][j], tr[..i + 1][j + 1], es[..i][j])
    {
      assert Step(tr[j], tr[j + 1], es[j]);
    }
  }

  // ---------- files that grow ----------

  function Appended(es: seq<Event>, f: nat): seq<byte> {
    if es == [] then []
    else
      var e := es[|es| - 1];
      Appended(es[..|es| - 1], f) + if e.Wrote? && e.f == f then e.buf else []
  }

  // Every write to f starts where the file ends at that time.
  ghost predicate OnlyAppends(tr: seq<seq<File>>, es: seq<Event>, f: nat)
    requires |tr| == |es| + 1
  {
    forall i | 0 <= i < |es| && f < |tr[i]| && es[i].Wrote? && es[i].f == f :: es[i].off == tr[i][f].size
  }

  // A file that is only ever appended to holds everything written to it, in order, and its
  // blocks back all of it, although they are reserved only as it grows.
  lemma {:induction false} AppendsConcatenate(tr: seq<seq<File>>, es: seq<Event>, f: nat)
    requires Trace(tr, es) && f < |tr[0]| && Covered(tr[0][f]) && OnlyAppends(tr, es, f)
    ensures |tr[|es|]| == |tr[0]|
    ensures var start, end := tr[0][f], tr[|es|][f];
            && Covered(end) && end.size == start.size + |Appended(es, f)|
            && end.bytes[..end.size] == start.bytes[..start.size] + Appended(es, f)
    decreases es
  {
    if es == [] {
      assert tr[0][f].bytes[..tr[0][f].size] + [] == tr[0][f].bytes[..tr[0][f].size];
    } else {
      var n := |es| - 1;
      SubTrace(tr, es);
      assert OnlyAppends(tr[..|es|], es[..n], f);
      AppendsConcatenate(tr[..|es|], es[..n], f);
      StepOnFile(tr[n], tr[n + 1], es[n], f);
      hide Step, Trace, OnlyAppends;
      var e := es[n];
      assert e.Wrote? && e.f == f ==> e.off == tr[n][f].size by { AppendHere(tr, es, f); }
      OneAppend(tr[0][f], tr[n][f], tr[n + 1][f], Appended(es[..n], f), e, f);
    }
  }

  lemma AppendHere(tr: seq<seq<File>>, es: seq<Event>, f: nat)
    requires |tr| == |es| + 1 && es != [] && OnlyAppends(tr, es, f) && f < |tr[|es| - 1]|
    ensures var e := es[|es| - 1]; e.Wrote? && e.f == f ==> e.off == tr[|es| - 1][f].size
  {
  }

  lemma OneAppend(start: File, mid: File, now: File, sofar: seq<byte>, e: Event, f: nat)
    requires Covered(start) && Covered(mid) && mid.size == start.size + |sofar|
    requires mid.bytes[..mid.size] == start.bytes[..start.size] + sofar
    requires e.Wrote? && e.f == f ==> e.off == mid.size
    requires exists r: File :: Extends(mid, r)
                               && if e.Wrote? && e.f == f
                                  then e.off + |e.buf| <= |r.bytes| && now == Written(r, e.off, e.buf)
                                  else now == r
    ensures var more := sofar + if e.Wrote? && e.f == f then e.buf else [];
            Covered(now) && now.size == start.size + |more| && now.bytes[..now.size] == start.bytes[..start.size] + more
  {
    var r: File :| Extends(mid, r) && if e.Wrote? && e.f == f
                                      then e.off + |e.buf| <= |r.bytes| && now == Written(r, e.off, e.buf)
                                      else now == r;
    assert r.bytes[..mid.size] == mid.bytes[..mid.size];
    if e.Wrote? && e.f == f {
      assert now.bytes[..now.size] == mid.bytes[..mid.size] + e.buf;
      assert start.bytes[..start.size] + sofar + e.buf == start.bytes[..start.size] + (sofar + e.buf);
    } else {
      assert sofar + [] == sofar;
    }
  }

  // ---------- files that outgrow their blocks ----------

  // Whatever the block size above one byte: after one more byte is written over the first of
  // a file of one full block, with exactly the blocks that line 192 asks for, the recorded
  // size is more than the file's block holds and reading the file leaves its blocks.
  method OverwriteOutgrows(geo: Geometry) returns (fs: FileSystem)
    requires geo.blockSize >= 2 && geo.directs >= 1
    ensures fs.Valid() && |fs.inodes| == 1 && fs.geo == geo && fs.have == [1]
    ensures !Covered(fs.Contents(0)) && !Backed(fs.Contents(0), 0, geo.blockSize + 1)
  {
    hide DiskOk, Extended, Extends, Asked, Cap, Covered, Backed, Step, Files, Stored, Overwrite, FullBlock, FullInode;
    var blocks, inodes := FullBlock(geo), [FullInode(geo)];
    OneBlock(geo);
    StoredSize(geo, blocks, inodes[0], 1);
    fs := new FileSystem(geo, blocks, inodes, [1]);
    var _, _ := fs.Write(Some(0), [7], 0, 0, blocks, inodes, [1]);
    NotBacked(fs.Contents(0));
  }

  // A disk of one block, and the inode of a file that fills it; 1 is no block's number.
  function FullBlock(geo: Geometry): seq<Block> {
    [Data(seq(geo.blockSize, _ => 0))]
  }

  function FullInode(geo: Geometry): Inode {
    Inode(geo.blockSize, seq(geo.directs, i => if i == 0 then 0 else 1), 1)
  }

  lemma OneBlock(geo: Geometry)
    requires geo.blockSize >= 2 && geo.directs >= 1
    ensures var blocks, inodes := FullBlock(geo), [FullInode(geo)];
            && inodes[0].size == geo.blockSize
            && DiskOk(geo, blocks, inodes, [1]) && Extended(geo, blocks, inodes, [1], blocks, inodes, [1])
    ensures Asked(geo, 0, 1) == 1 && Cap(1, geo.blockSize) == geo.blockSize
  {
    Position(1, 0, 1, geo.blockSize);
  }

  lemma StoredSize(geo: Geometry, blocks: seq<Block>, ino: Inode, have: nat)
    ensures Stored(geo, blocks, ino, have).size == ino.size
    ensures |Stored(geo, blocks, ino, have).bytes| == Cap(have, geo.blockSize)
  {
  }

  // Reading all of a file is safe exactly when its size is covered.
  lemma NotBacked(file: File)
    ensures Backed(file, 0, file.size) <==> Covered(file)
  {
  }
}
