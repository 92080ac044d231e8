/**
 * The block loops of finding_filesystems/minixfs.c: a file is a list of block numbers, the
 * first ones in its inode and the rest in its indirect block, and the loops that copy into
 * and out of the blocks are proved against one flat sequence of bytes.
 */
module MiniFs {
  import opened Basics

  type pos = x: int | x > 0 witness 1

  // The sizes that minixfs.h fixes: bytes in a block, block numbers in an inode.
  datatype Geometry = Geometry(blockSize: pos, directs: nat)

  datatype Block =
    | Data(bytes: seq<byte>)
    | Table(numbers: seq<nat>)   // an indirect block

  datatype Inode = Inode(size: nat, direct: seq<nat>, indirect: nat)

  // The block a position is in, its place there, and the first position past n blocks.
  function Slot(p: nat, d: pos): nat {
    p / d
  }

  function Offset(p: nat, d: pos): nat {
    p % d
  }

  function Cap(n: nat, d: pos): nat {
    n * d
  }

  // The number of a file's i-th block, and no block's number where the file has none.
  function BlockNo(geo: Geometry, blocks: seq<Block>, ino: Inode, i: nat): nat {
    if i >= geo.directs then
      if ino.indirect < |blocks| && blocks[ino.indirect].Table? && i - geo.directs < |blocks[ino.indirect].numbers| then
        blocks[ino.indirect].numbers[i - geo.directs]
      else |blocks|
    else if i < |ino.direct| then ino.direct[i] else |blocks|
  }

  predicate IsData(geo: Geometry, blocks: seq<Block>, b: nat) {
    b < |blocks| && blocks[b].Data? && |blocks[b].bytes| == geo.blockSize
  }

  function ByteAt(geo: Geometry, blocks: seq<Block>, ino: Inode, p: nat): byte {
    var b := BlockNo(geo, blocks, ino, Slot(p, geo.blockSize));
    if IsData(geo, blocks, b) then blocks[b].bytes[Offset(p, geo.blockSize)] else 0
  }

  // The first n bytes of a file, as if it were one array.
  function View(geo: Geometry, blocks: seq<Block>, ino: Inode, n: nat): (v: seq<byte>)
    ensures |v| == n && forall p | 0 <= p < n :: v[p] == ByteAt(geo, blocks, ino, p)
  {
    seq(n, p requires 0 <= p < n => ByteAt(geo, blocks, ino, p))
  }

  // A file as its users see it: the bytes its blocks hold and the recorded size.
  datatype File = File(bytes: seq<byte>, size: nat)

  function Stored(geo: Geometry, blocks: seq<Block>, ino: Inode, have: nat): File {
    File(View(geo, blocks, ino, Cap(have, geo.blockSize)), ino.size)
  }

  // ---------- well-formed disks ----------

  // The first `have` blocks of a file are assigned; entries after them (UNASSIGNED_NODE)
  // number no block.
  ghost predicate FileOk(geo: Geometry, blocks: seq<Block>, ino: Inode, have: nat) {
    && |ino.direct| == geo.directs
    && (have > geo.directs ==>
          && ino.indirect < |blocks| && blocks[ino.indirect].Table?
          && have - geo.directs <= |blocks[ino.indirect].numbers|)
    && forall i: nat :: IsData(geo, blocks, BlockNo(geo, blocks, ino, i)) <==> i < have
  }

  ghost predicate Distinct(geo: Geometry, blocks: seq<Block>, inodes: seq<Inode>, have: seq<nat>)
    requires |have| == |inodes|
  {
    forall f: nat, g: nat, i: nat, j: nat ::
      (f < |inodes| && g < |inodes| && i < have[f] && j < have[g]
       && BlockNo(geo, blocks, inodes[f], i) == BlockNo(geo, blocks, inodes[g], j)) ==> f == g && i == j
  }

  ghost predicate DiskOk(geo: Geometry, blocks: seq<Block>, inodes: seq<Inode>, have: seq<nat>) {
    && |have| == |inodes|
    && (forall f: nat | f < |inodes| :: FileOk(geo, blocks, inodes[f], have[f]))
    && Distinct(geo, blocks, inodes, have)
  }

  ghost predicate Owns(geo: Geometry, blocks: seq<Block>, ino: Inode, have: nat, b: nat) {
    exists i: nat :: i < have && BlockNo(geo, blocks, ino, i) == b
  }

  // Tables and block sizes are as before, and so is every block the file does not own.
  ghost predicate OnlyFile(geo: Geometry, was: seq<Block>, now: seq<Block>, ino: Inode, have: nat) {
    && |now| == |was|
    && forall b: nat | b < |was| ::
         if Owns(geo, was, ino, have, b) then was[b].Data? && now[b].Data? && |now[b].bytes| == |was[b].bytes|
         else now[b] == was[b]
  }

  ghost predicate Extends(was: File, now: File) {
    now.size == was.size && was.bytes <= now.bytes
  }

  // What minixfs_min_blockcount may have done: files keep their bytes, and may have got
  // further blocks.
  ghost predicate Extended(geo: Geometry, was: seq<Block>, wasInodes: seq<Inode>, had: seq<nat>,
                           now: seq<Block>, inodes: seq<Inode>, have: seq<nat>) {
    && |had| == |have| == |wasInodes| == |inodes|
    && forall f: nat | f < |inodes| ::
         Extends(Stored(geo, was, wasInodes[f], had[f]), Stored(geo, now, inodes[f], have[f]))
  }

  // ---------- positions and blocks ----------

  lemma Divide(p: nat, d: pos)
    ensures p == Slot(p, d) * d + Offset(p, d) && Offset(p, d) < d
  {
  }

  lemma Multiples(a: int, b: int, d: pos)
    ensures a < b ==> a * d + d <= b * d
  {
    if a < b {
      MultipleOfPositive(b - a - 1, d);
      assert b * d - a * d - d == (b - a - 1) * d;
    }
  }

  lemma MultipleOfPositive(a: nat, d: pos)
    ensures a * d >= 0
  {
  }

  // A position is determined by its block and its place there.
  lemma Position(p: nat, i: nat, o: nat, d: pos)
    requires p == i * d + o && o < d
    ensures Slot(p, d) == i && Offset(p, d) == o
  {
    Divide(p, d);
    Multiples(i, Slot(p, d), d);
    Multiples(Slot(p, d), i, d);
  }

  // Which positions a chunk inside one block covers.
  lemma ChunkCovers(at: nat, n: nat, p: nat, d: pos)
    requires Offset(at, d) + n <= d
    ensures at <= p < at + n <==> Slot(p, d) == Slot(at, d) && Offset(at, d) <= Offset(p, d) < Offset(at, d) + n
    ensures Slot(p, d) == Slot(at, d) ==> p - at == Offset(p, d) - Offset(at, d)
  {
    Divide(at, d);
    Divide(p, d);
    Multiples(Slot(at, d), Slot(p, d), d);
    Multiples(Slot(p, d), Slot(at, d), d);
  }

  // A chunk that fills its block ends where the next block begins.
  lemma ChunkEnds(at: nat, n: nat, d: pos)
    requires Offset(at, d) + n == d
    ensures Slot(at + n, d) == Slot(at, d) + 1 && Offset(at + n, d) == 0
  {
    Divide(at, d);
    assert (Slot(at, d) + 1) * d == Slot(at, d) * d + d;
    Position(at + n, Slot(at, d) + 1, 0, d);
  }

  lemma InBlock(p: nat, have: nat, d: pos)
    ensures p < Cap(have, d) <==> Slot(p, d) < have
  {
    Divide(p, d);
    Multiples(Slot(p, d), have, d);
    Multiples(have, Slot(p, d), d);
  }

  // The blocks that line 192 asks for hold the bytes to be written.
  lemma Reaches(end: nat, have: nat, d: pos)
    requires have >= Slot(end, d) + 1
    ensures end <= Cap(have, d)
  {
    InBlock(end, have, d);
  }

  lemma Inside(at: nat, end: nat, have: nat, d: pos)
    requires at < end && have >= Slot(end, d) + 1
    ensures Slot(at, d) < have
  {
    Reaches(end, have, d);
    InBlock(at, have, d);
  }

  // ---------- the flat view ----------

  function Overwrite(v: seq<byte>, off: nat, buf: seq<byte>): (r: seq<byte>)
    requires off + |buf| <= |v|
    ensures |r| == |v|
    ensures forall p | 0 <= p < |v| :: r[p] == if off <= p < off + |buf| then buf[p - off] else v[p]
  {
    v[..off] + buf + v[off + |buf|..]
  }

  function Readable(size: nat, off: nat, count: nat): nat {
    var tail := Min(size, off + count);
    if tail <= off then 0 else tail - off
  }

  // How far a loop has got: the bytes [off, at) are buf's, the others are as they were.
  ghost predicate Patched(geo: Geometry, was: seq<Block>, now: seq<Block>, ino: Inode, have: nat,
                          off: nat, at: nat, buf: seq<byte>)
    requires off <= at <= off + |buf|
  {
    forall p: nat | p < Cap(have, geo.blockSize) ::
      ByteAt(geo, now, ino, p) == if off <= p < at then buf[p - off] else ByteAt(geo, was, ino, p)
  }

  // The same for the read loop: `out` holds the file's bytes from off on.
  ghost predicate Copied(geo: Geometry, blocks: seq<Block>, ino: Inode, off: nat, out: seq<byte>) {
    forall k: nat | k < |out| :: out[k] == ByteAt(geo, blocks, ino, off + k)
  }

  // A file's blocks keep their numbers while only data is written.
  lemma SameNumbers(geo: Geometry, was: seq<Block>, now: seq<Block>, writer: Inode, have: nat, ino: Inode, i: nat)
    requires OnlyFile(geo, was, now, writer, have)
    ensures BlockNo(geo, now, ino, i) == BlockNo(geo, was, ino, i)
  {
    if ino.indirect < |was| {
      assert was[ino.indirect].Table? ==> now[ino.indirect] == was[ino.indirect];
    }
  }

  lemma SameData(geo: Geometry, was: seq<Block>, now: seq<Block>, writer: Inode, have: nat, b: nat)
    requires OnlyFile(geo, was, now, writer, have)
    ensures IsData(geo, now, b) <==> IsData(geo, was, b)
  {
    hide BlockNo;
  }

  lemma FileKept(geo: Geometry, was: seq<Block>, now: seq<Block>, writer: Inode, held: nat, ino: Inode, have: nat)
    requires FileOk(geo, was, ino, have) && OnlyFile(geo, was, now, writer, held)
    ensures FileOk(geo, now, ino, have)
  {
    forall i: nat
      ensures IsData(geo, now, BlockNo(geo, now, ino, i)) <==> i < have
    {
      SameNumbers(geo, was, now, writer, held, ino, i);
      SameData(geo, was, now, writer, held, BlockNo(geo, was, ino, i));
    }
    if have > geo.directs {
      assert was[ino.indirect].Table? ==> now[ino.indirect] == was[ino.indirect];
    }
  }

  lemma DiskKept(geo: Geometry, was: seq<Block>, now: seq<Block>, inodes: seq<Inode>, have: seq<nat>, f: nat)
    requires DiskOk(geo, was, inodes, have) && f < |inodes| && OnlyFile(geo, was, now, inodes[f], have[f])
    ensures DiskOk(geo, now, inodes, have)
  {
    hide FileOk, OnlyFile, BlockNo, Slot, Offset, Cap;
    forall g: nat | g < |inodes|
      ensures FileOk(geo, now, inodes[g], have[g])
    {
      FileKept(geo, was, now, inodes[f], have[f], inodes[g], have[g]);
    }
    forall g: nat, h: nat, i: nat, j: nat | g < |inodes| && h < |inodes| && i < have[g] && j < have[h]
      && BlockNo(geo, now, inodes[g], i) == BlockNo(geo, now, inodes[h], j)
      ensures g == h && i == j
    {
      SameNumbers(geo, was, now, inodes[f], have[f], inodes[g], i);
      SameNumbers(geo, was, now, inodes[f], have[f], inodes[h], j);
    }
  }

  // No write reaches another file.
  lemma OthersKept(geo: Geometry, was: seq<Block>, now: seq<Block>, inodes: seq<Inode>, have: seq<nat>, f: nat, g: nat)
    requires DiskOk(geo, was, inodes, have) && f < |inodes| && g < |inodes| && f != g
    requires OnlyFile(geo, was, now, inodes[f], have[f])
    ensures View(geo, now, inodes[g], Cap(have[g], geo.blockSize))
            == View(geo, was, inodes[g], Cap(have[g], geo.blockSize))
  {
    hide BlockNo, Slot, Offset, Cap;
    forall p: nat | p < Cap(have[g], geo.blockSize)
      ensures ByteAt(geo, now, inodes[g], p) == ByteAt(geo, was, inodes[g], p)
    {
      var i := Slot(p, geo.blockSize);
      InBlock(p, have[g], geo.blockSize);
      SameNumbers(geo, was, now, inodes[f], have[f], inodes[g], i);
      var b := BlockNo(geo, was, inodes[g], i);
      assert FileOk(geo, was, inodes[g], have[g]) && IsData(geo, was, b);
      assert !Owns(geo, was, inodes[f], have[f], b);
    }
  }

  // One turn of the write loop, on the disk.
  function Chunked(blocks: seq<Block>, b: nat, o: nat, chunk: seq<byte>): seq<Block>
    requires b < |blocks| && blocks[b].Data? && o + |chunk| <= |blocks[b].bytes|
  {
    blocks[b := Data(Overwrite(blocks[b].bytes, o, chunk))]
  }

  ghost predicate Injective(geo: Geometry, blocks: seq<Block>, ino: Inode, have: nat) {
    forall i: nat, j: nat ::
      (i < have && j < have && BlockNo(geo, blocks, ino, i) == BlockNo(geo, blocks, ino, j)) ==> i == j
  }

  lemma ChunkOnlyFile(geo: Geometry, was: seq<Block>, mid: seq<Block>, now: seq<Block>, ino: Inode, have: nat,
                      i: nat, o: nat, chunk: seq<byte>)
    requires OnlyFile(geo, was, mid, ino, have)
    requires i < have && IsData(geo, mid, BlockNo(geo, mid, ino, i)) && o + |chunk| <= geo.blockSize
    requires now == Chunked(mid, BlockNo(geo, mid, ino, i), o, chunk)
    ensures OnlyFile(geo, was, now, ino, have)
  {
    var b := BlockNo(geo, mid, ino, i);
    SameNumbers(geo, was, mid, ino, have, ino, i);
    hide BlockNo, Slot, Offset, Cap;
    assert Owns(geo, was, ino, have, b);
  }

  lemma SameDisk(geo: Geometry, blocks: seq<Block>, ino: Inode, have: nat)
    requires FileOk(geo, blocks, ino, have)
    ensures OnlyFile(geo, blocks, blocks, ino, have)
  {
    hide BlockNo, Slot, Offset, Cap;
  }

  // What one chunk does to one byte of the file.
  lemma ChunkByte(geo: Geometry, mid: seq<Block>, now: seq<Block>, ino: Inode, have: nat,
                  at: nat, chunk: seq<byte>, p: nat)
    requires FileOk(geo, mid, ino, have) && Injective(geo, mid, ino, have)
    requires Slot(at, geo.blockSize) < have && Offset(at, geo.blockSize) + |chunk| <= geo.blockSize
    requires p < Cap(have, geo.blockSize)
    requires now == Chunked(mid, BlockNo(geo, mid, ino, Slot(at, geo.blockSize)), Offset(at, geo.blockSize), chunk)
    ensures ByteAt(geo, now, ino, p) == if at <= p < at + |chunk| then chunk[p - at] else ByteAt(geo, mid, ino, p)
  {
    var d := geo.blockSize;
    SameDisk(geo, mid, ino, have);
    ChunkOnlyFile(geo, mid, mid, now, ino, have, Slot(at, d), Offset(at, d), chunk);
    SameNumbers(geo, mid, now, ino, have, ino, Slot(p, d));
    hide BlockNo, OnlyFile, Slot, Offset, Cap;
    InBlock(p, have, d);
    ChunkCovers(at, |chunk|, p, d);
    if Slot(p, d) == Slot(at, d) {
      Divide(p, d);
      Divide(at, d);
    }
  }

  lemma ChunkPatches(geo: Geometry, was: seq<Block>, mid: seq<Block>, now: seq<Block>, ino: Inode, have: nat,
                     off: nat, at: nat, chunk: seq<byte>, buf: seq<byte>)
    requires FileOk(geo, mid, ino, have) && Injective(geo, mid, ino, have)
    requires Slot(at, geo.blockSize) < have && Offset(at, geo.blockSize) + |chunk| <= geo.blockSize
    requires off <= at && at + |chunk| <= off + |buf| && chunk == buf[at - off..at - off + |chunk|]
    requires Patched(geo, was, mid, ino, have, off, at, buf)
    requires now == Chunked(mid, BlockNo(geo, mid, ino, Slot(at, geo.blockSize)), Offset(at, geo.blockSize), chunk)
    ensures Patched(geo, was, now, ino, have, off, at + |chunk|, buf)
  {
    forall p: nat | p < Cap(have, geo.blockSize)
      ensures ByteAt(geo, now, ino, p) == if off <= p < at + |chunk| then buf[p - off] else ByteAt(geo, was, ino, p)
    {
      hide Patched, ByteAt, FileOk, BlockNo, Injective, Slot, Offset, Cap;
      ChunkByte(geo, mid, now, ino, have, at, chunk, p);
      PatchedAt(geo, was, mid, ino, have, off, at, buf, p);
    }
  }

  lemma PatchedAt(geo: Geometry, was: seq<Block>, now: seq<Block>, ino: Inode, have: nat,
                  off: nat, at: nat, buf: seq<byte>, p: nat)
    requires off <= at <= off + |buf| && p < Cap(have, geo.blockSize)
    requires Patched(geo, was, now, ino, have, off, at, buf)
    ensures ByteAt(geo, now, ino, p) == if off <= p < at then buf[p - off] else ByteAt(geo, was, ino, p)
  {
  }

  // One turn of the write loop keeps everything the loop has established.
  lemma WriteTurn(geo: Geometry, was: seq<Block>, mid: seq<Block>, now: seq<Block>, inodes: seq<Inode>, have: seq<nat>,
                  f: nat, off: nat, at: nat, chunk: seq<byte>, buf: seq<byte>)
    requires DiskOk(geo, mid, inodes, have) && f < |inodes| && OnlyFile(geo, was, mid, inodes[f], have[f])
    requires Slot(at, geo.blockSize) < have[f] && Offset(at, geo.blockSize) + |chunk| <= geo.blockSize
    requires off <= at && at + |chunk| <= off + |buf| && chunk == buf[at - off..at - off + |chunk|]
    requires Patched(geo, was, mid, inodes[f], have[f], off, at, buf)
    requires IsData(geo, mid, BlockNo(geo, mid, inodes[f], Slot(at, geo.blockSize)))
    requires var b := BlockNo(geo, mid, inodes[f], Slot(at, geo.blockSize));
             now == Chunked(mid, b, Offset(at, geo.blockSize), chunk)
    ensures DiskOk(geo, now, inodes, have) && OnlyFile(geo, was, now, inodes[f], have[f])
    ensures Patched(geo, was, now, inodes[f], have[f], off, at + |chunk|, buf)
  {
    hide BlockNo, Patched, OnlyFile, ByteAt, Slot, Offset, Cap;
    var ino, held, i := inodes[f], have[f], Slot(at, geo.blockSize);
    assert FileOk(geo, mid, ino, held) && Injective(geo, mid, ino, held);
    hide DiskOk, Distinct, FileOk, Injective, Slot, Offset, Cap;
    SameDisk(geo, mid, ino, held);
    ChunkOnlyFile(geo, was, mid, now, ino, held, i, Offset(at, geo.blockSize), chunk);
    ChunkOnlyFile(geo, mid, mid, now, ino, held, i, Offset(at, geo.blockSize), chunk);
    DiskKept(geo, mid, now, inodes, have, f);
    ChunkPatches(geo, was, mid, now, ino, held, off, at, chunk, buf);
  }

  lemma PatchedView(geo: Geometry, was: seq<Block>, now: seq<Block>, ino: Inode, have: nat, off: nat, buf: seq<byte>)
    requires off + |buf| <= Cap(have, geo.blockSize)
    requires Patched(geo, was, now, ino, have, off, off + |buf|, buf)
    ensures View(geo, now, ino, Cap(have, geo.blockSize))
            == Overwrite(View(geo, was, ino, Cap(have, geo.blockSize)), off, buf)
  {
    hide ByteAt, Slot, Offset, Cap;
  }

  lemma BlockIsData(geo: Geometry, blocks: seq<Block>, inodes: seq<Inode>, have: seq<nat>, f: nat, i: nat)
    requires DiskOk(geo, blocks, inodes, have) && f < |inodes|
    ensures |have| == |inodes| && |inodes[f].direct| == geo.directs
    ensures IsData(geo, blocks, BlockNo(geo, blocks, inodes[f], i)) <==> i < have[f]
  {
    assert FileOk(geo, blocks, inodes[f], have[f]);
  }

  function Written(file: File, off: nat, buf: seq<byte>): File
    requires off + |buf| <= |file.bytes|
  {
    File(Overwrite(file.bytes, off, buf), file.size + |buf|)
  }

  function ReadOut(file: File, off: nat, count: nat): seq<byte>
    requires Backed(file, off, count)
  {
    var n := Readable(file.size, off, count);
    if n == 0 then [] else file.bytes[off..off + n]
  }

  // A read of this range stays inside the file's blocks.
  predicate Backed(file: File, off: nat, count: nat) {
    off + Readable(file.size, off, count) <= |file.bytes| || Readable(file.size, off, count) == 0
  }

  // No read can leave the file's blocks.
  predicate Covered(file: File) {
    file.size <= |file.bytes|
  }

  // The number of blocks that line 192 asks for.
  function Asked(geo: Geometry, off: nat, n: nat): nat {
    Slot(off + n, geo.blockSize) + 1
  }

  // ---------- files from call to call ----------

  ghost function Files(geo: Geometry, blocks: seq<Block>, inodes: seq<Inode>, have: seq<nat>): (fs: seq<File>)
    requires |inodes| == |have|
    ensures |fs| == |inodes| && forall f | 0 <= f < |fs| :: fs[f] == Stored(geo, blocks, inodes[f], have[f])
  {
    seq(|inodes|, f requires 0 <= f < |inodes| => Stored(geo, blocks, inodes[f], have[f]))
  }

  datatype Event =
    | Wrote(f: nat, off: nat, buf: seq<byte>)
    | Failed                                                       // a write that returned -1
    | Got(f: nat, off: nat, count: nat, out: seq<byte>)

  ghost predicate Reserved(fs: seq<File>, r: seq<File>) {
    |r| == |fs| && forall f | 0 <= f < |fs| :: Extends(fs[f], r[f])
  }

  ghost predicate WroteOn(fs: seq<File>, r: seq<File>, fs': seq<File>, f: nat, off: nat, buf: seq<byte>) {
    && Reserved(fs, r) && f < |r| && off + |buf| <= |r[f].bytes|
    && fs' == r[f := Written(r[f], off, buf)]
  }

  ghost predicate Step(fs: seq<File>, fs': seq<File>, e: Event) {
    match e
    case Wrote(f, off, buf) => exists r :: WroteOn(fs, r, fs', f, off, buf)
    case Failed => Reserved(fs, fs')
    case Got(f, off, count, out) =>
      fs' == fs && f < |fs| && Backed(fs[f], off, count) && out == ReadOut(fs[f], off, count)
  }

  lemma WriteIsStep(geo: Geometry, was: seq<Block>, wasInodes: seq<Inode>, had: seq<nat>,
                    mid: seq<Block>, midInodes: seq<Inode>, have: seq<nat>,
                    now: seq<Block>, inodes: seq<Inode>, f: nat, off: nat, buf: seq<byte>)
    requires Extended(geo, was, wasInodes, had, mid, midInodes, have)
    requires f < |inodes| == |midInodes| && off + |buf| <= Cap(have[f], geo.blockSize)
    requires Stored(geo, now, inodes[f], have[f]) == Written(Stored(geo, mid, midInodes[f], have[f]), off, buf)
    requires forall g: nat | g < |inodes| && g != f ::
               Stored(geo, now, inodes[g], have[g]) == Stored(geo, mid, midInodes[g], have[g])
    ensures Step(Files(geo, was, wasInodes, had), Files(geo, now, inodes, have), Wrote(f, off, buf))
  {
    hide View, Extends, Written;
    assert WroteOn(Files(geo, was, wasInodes, had), Files(geo, mid, midInodes, have), Files(geo, now, inodes, have),
                   f, off, buf);
  }

  lemma FailureIsStep(geo: Geometry, was: seq<Block>, wasInodes: seq<Inode>, had: seq<nat>,
                      now: seq<Block>, inodes: seq<Inode>, have: seq<nat>)
    requires Extended(geo, was, wasInodes, had, now, inodes, have)
    ensures Step(Files(geo, was, wasInodes, had), Files(geo, now, inodes, have), Failed)
  {
    hide Stored, Extends;
  }

  class FileSystem {
    const geo: Geometry
    var blocks: seq<Block>
    var inodes: seq<Inode>
    ghost var have: seq<nat>   // how many blocks each file has been assigned

    ghost predicate Valid()
      reads this
    {
      |have| == |inodes| && DiskOk(geo, blocks, inodes, have)
    }

    ghost function Contents(f: nat): File
      requires f < |inodes| == |have|
      reads this
    {
      Stored(geo, blocks, inodes[f], have[f])
    }

    constructor (geo: Geometry, blocks: seq<Block>, inodes: seq<Inode>, ghost have: seq<nat>)
      requires |have| == |inodes| && DiskOk(geo, blocks, inodes, have)
      ensures Valid() && this.geo == geo && this.blocks == blocks && this.inodes == inodes && this.have == have
    {
      this.geo, this.blocks, this.inodes, this.have := geo, blocks, inodes, have;
    }

    // All files, as their users see them.
    ghost function All(): seq<File>
      requires |inodes| == |have|
      reads this
    {
      Files(geo, blocks, inodes, have)
    }

    // The block the loops compute at lines 205-212 and 255-262; None when the file's entry
    // is unassigned, where the source goes on with memory that is no block of the file.
    method Locate(ghost f: nat, ino: Inode, index: nat) returns (b: Option<nat>)
      requires Valid() && f < |inodes| && ino == inodes[f]
      ensures b.Some? <==> index < have[f]
      ensures b.Some? ==> b.value == BlockNo(geo, blocks, ino, index) && IsData(geo, blocks, b.value)
    {
      BlockIsData(geo, blocks, inodes, have, f, index);
      var number := |blocks|;
      if index >= geo.directs {
        var indexIndir := index - geo.directs;
        if ino.indirect < |blocks| && blocks[ino.indirect].Table? && indexIndir < |blocks[ino.indirect].numbers| {
          number := blocks[ino.indirect].numbers[indexIndir];
        }
      } else {
        number := ino.direct[index];
      }
      b := if IsData(geo, blocks, number) then Some(number) else None;
    }

    // minixfs_write. `found` is the inode the path has or gets, `status` and the arguments
    // after it are what minixfs_min_blockcount returns and leaves behind.
    method Write(found: Option<nat>, buf: seq<byte>, off: nat, status: int,
                 reserved: seq<Block>, reservedInodes: seq<Inode>, ghost held: seq<nat>)
      returns (r: int, off': nat)
      requires Valid() && DiskOk(geo, reserved, reservedInodes, held)
      requires Extended(geo, blocks, inodes, have, reserved, reservedInodes, held)
      requires found.Some? ==> found.value < |inodes|
      requires found.Some? && status == 0 ==> held[found.value] >= Asked(geo, off, |buf|)
      modifies this
      ensures Valid() && have == held && |inodes| == old(|inodes|)
      ensures Step(old(All()), All(), if found.Some? && status == 0 then Wrote(found.value, off, buf) else Failed)
      ensures forall g: nat | g < |inodes| && (found != Some(g) || status != 0) ::
                Extends(old(Contents(g)), Contents(g))
      ensures found == None || status != 0 ==> r == -1 && off' == off && blocks == reserved && inodes == reservedInodes
      ensures found.Some? && status == 0 ==>
                && r == |buf| && off' == off + |buf|
                && |inodes| == |reservedInodes|
                && off + |buf| <= Cap(held[found.value], geo.blockSize)
                && Contents(found.value)
                   == Written(Stored(geo, reserved, reservedInodes[found.value], held[found.value]), off, buf)
      // the new size is backed by blocks exactly when the old one plus the bytes written is
      ensures found.Some? && status == 0 ==>
                (Covered(Contents(found.value))
                 <==> old(inodes[found.value].size) + |buf| <= Cap(held[found.value], geo.blockSize))
    {
      hide DiskOk, Patched, OnlyFile, BlockNo, Extended, Stored, Written, View, Slot, Offset, Cap, Step, Files, Asked,
           Covered;
      off' := off;
      ExtendedSizes(geo, blocks, inodes, have, reserved, reservedInodes, held);
      blocks, inodes, have := reserved, reservedInodes, held;
      if found == None || status != 0 {
        FailureIsStep(geo, old(blocks), old(inodes), old(have), blocks, inodes, have);
        return -1, off;
      }
      var f := found.value;
      var ino := inodes[f];
      var count := |buf|;
      var indexDb := Slot(off, geo.blockSize);
      var offsetDb := Offset(off, geo.blockSize);
      StartsPatched(geo, blocks, inodes, have, f, off, buf);
      while count > 0
        invariant 0 <= count <= |buf| && off' == off + |buf| - count
        invariant count > 0 ==> indexDb == Slot(off', geo.blockSize) && offsetDb == Offset(off', geo.blockSize)
        invariant inodes == reservedInodes && have == held && DiskOk(geo, blocks, inodes, have)
        invariant OnlyFile(geo, reserved, blocks, ino, have[f])
        invariant Patched(geo, reserved, blocks, ino, have[f], off, off', buf)
      {
        AskedIsEnough(geo, off, |buf|, off', have[f]);
        var located := Locate(f, ino, indexDb);
        var newDb := located.value;
        var needWrite := Min(geo.blockSize - offsetDb, count);
        ghost var mid := blocks;
        var chunk := buf[|buf| - count..|buf| - count + needWrite];
        blocks := Chunked(blocks, newDb, offsetDb, chunk);
        WriteTurn(geo, reserved, mid, blocks, inodes, have, f, off, off', chunk, buf);
        if needWrite < count {
          ChunkEnds(off', needWrite, geo.blockSize);
        }
        off' := off' + needWrite;
        count := count - needWrite;
        indexDb := indexDb + 1;
        offsetDb := 0;
      }
      r := |buf| - count;
      inodes := inodes[f := ino.(size := ino.size + r)];
      WriteDone(geo, reserved, blocks, reservedInodes, inodes, have, f, off, buf);
      WriteIsStep(geo, old(blocks), old(inodes), old(have), reserved, reservedInodes, held,
                  blocks, inodes, f, off, buf);
      CoveredExactly(geo, blocks, inodes[f], have[f]);
    }

    // minixfs_read of a real path. When the recorded size says more than the file's blocks
    // hold, the loop follows an unassigned entry (`wild`) and nothing is promised.
    method Read(found: Option<nat>, count: nat, off: nat)
      returns (r: int, off': nat, out: seq<byte>, wild: bool)
      requires Valid() && (found.Some? ==> found.value < |inodes|)
      ensures found == None ==> r == -1 && off' == off && out == [] && !wild
      ensures found.Some? ==> (wild <==> !Backed(Contents(found.value), off, count))
      ensures found.Some? && !wild ==>
                && r == Readable(inodes[found.value].size, off, count) == |out| && off' == off + r
                && out == ReadOut(Contents(found.value), off, count)
                && Step(All(), All(), Got(found.value, off, count, out))
    {
      hide DiskOk, BlockNo, ByteAt, Stored, ReadOut, Copied, Slot, Offset, Cap, Files, Backed;
      off', out, wild := off, [], false;
      if found == None {
        return -1, off, [], false;
      }
      var f := found.value;
      var ino := inodes[f];
      var tail := Min(ino.size, off + count);
      BackedExactly(geo, blocks, ino, have[f], off, count);
      if tail <= off {
        return 0, off, [], false;
      }
      var indexDb := Slot(off, geo.blockSize);
      var offsetDb := Offset(off, geo.blockSize);
      var fillRead := tail - off;
      NothingCopied(geo, blocks, ino, off, have[f]);
      while fillRead > 0
        invariant 0 <= fillRead <= tail - off && off' == tail - fillRead && |out| == off' - off
        invariant fillRead > 0 ==> indexDb == Slot(off', geo.blockSize) && offsetDb == Offset(off', geo.blockSize)
        invariant Copied(geo, blocks, ino, off, out) && (out != [] ==> off' <= Cap(have[f], geo.blockSize))
      {
        ReadStays(off', have[f], geo.blockSize);
        var located := Locate(f, ino, indexDb);
        if located == None {
          return -1, off', out, true;
        }
        var newDb := located.value;
        var needRead := Min(geo.blockSize - offsetDb, fillRead);
        var chunk := blocks[newDb].bytes[offsetDb..][..needRead];
        ReadTurn(geo, blocks, ino, off, off', chunk, out);
        ChunkStays(off', needRead, have[f], geo.blockSize);
        out := out + chunk;
        if needRead < fillRead {
          ChunkEnds(off', needRead, geo.blockSize);
        }
        off' := off' + needRead;
        fillRead := fillRead - needRead;
        indexDb := indexDb + 1;
        offsetDb := 0;
      }
      r := tail - off - fillRead;
      ReadDone(geo, blocks, ino, have[f], off, count, out);
    }
  }

  lemma BackedExactly(geo: Geometry, blocks: seq<Block>, ino: Inode, have: nat, off: nat, count: nat)
    ensures var tail := Min(ino.size, off + count);
            && (Backed(Stored(geo, blocks, ino, have), off, count) <==> tail <= off || tail <= Cap(have, geo.blockSize))
            && (tail <= off ==> ReadOut(Stored(geo, blocks, ino, have), off, count) == [])
            && Stored(geo, blocks, ino, have).size == ino.size
  {
    hide View, Cap;
  }

  // A chunk that starts in an assigned block ends inside the file's blocks.
  lemma ReadStays(at: nat, have: nat, d: pos)
    ensures at < Cap(have, d) <==> Slot(at, d) < have
    ensures Offset(at, d) < d
  {
    InBlock(at, have, d);
  }

  lemma ChunkStays(at: nat, n: nat, have: nat, d: pos)
    requires Slot(at, d) < have && Offset(at, d) + n <= d
    ensures at + n <= Cap(have, d)
  {
    Divide(at, d);
    Multiples(Slot(at, d), have, d);
  }

  lemma ReadTurn(geo: Geometry, blocks: seq<Block>, ino: Inode, off: nat, at: nat, chunk: seq<byte>, out: seq<byte>)
    requires Offset(at, geo.blockSize) + |chunk| <= geo.blockSize
    requires IsData(geo, blocks, BlockNo(geo, blocks, ino, Slot(at, geo.blockSize)))
    requires var b := BlockNo(geo, blocks, ino, Slot(at, geo.blockSize));
             chunk == blocks[b].bytes[Offset(at, geo.blockSize)..][..|chunk|]
    requires |out| == at - off && Copied(geo, blocks, ino, off, out)
    ensures Copied(geo, blocks, ino, off, out + chunk)
  {
    hide BlockNo, Slot, Offset, Cap;
    forall k: nat | at - off <= k < at - off + |chunk|
      ensures (out + chunk)[k] == ByteAt(geo, blocks, ino, off + k)
    {
      ChunkCovers(at, |chunk|, off + k, geo.blockSize);
    }
  }

  lemma StartsPatched(geo: Geometry, blocks: seq<Block>, inodes: seq<Inode>, have: seq<nat>, f: nat, off: nat,
                      buf: seq<byte>)
    requires DiskOk(geo, blocks, inodes, have) && f < |inodes|
    ensures |have| == |inodes|
    ensures OnlyFile(geo, blocks, blocks, inodes[f], have[f])
    ensures Patched(geo, blocks, blocks, inodes[f], have[f], off, off, buf)
  {
    SameDisk(geo, blocks, inodes[f], have[f]);
  }

  lemma NothingCopied(geo: Geometry, blocks: seq<Block>, ino: Inode, off: nat, have: nat)
    ensures Copied(geo, blocks, ino, off, [])
  {
  }

  lemma ReadDone(geo: Geometry, blocks: seq<Block>, ino: Inode, have: nat, off: nat, count: nat, out: seq<byte>)
    requires Backed(Stored(geo, blocks, ino, have), off, count)
    requires |out| == Readable(ino.size, off, count)
    requires Copied(geo, blocks, ino, off, out)
    ensures out == ReadOut(Stored(geo, blocks, ino, have), off, count)
  {
    hide ByteAt, Slot, Offset, Cap;
  }

  lemma AskedIsEnough(geo: Geometry, off: nat, n: nat, at: nat, have: nat)
    requires off <= at < off + n && have >= Asked(geo, off, n)
    ensures Slot(at, geo.blockSize) < have && Offset(at, geo.blockSize) < geo.blockSize
  {
    Inside(at, off + n, have, geo.blockSize);
  }

  // Line 192 asks for the fewest blocks that hold one byte more than the write needs.
  lemma AskedExactly(geo: Geometry, off: nat, n: nat, have: nat)
    ensures have >= Asked(geo, off, n) <==> off + n < Cap(have, geo.blockSize)
  {
    InBlock(off + n, have, geo.blockSize);
  }

  lemma CoveredExactly(geo: Geometry, blocks: seq<Block>, ino: Inode, have: nat)
    ensures Covered(Stored(geo, blocks, ino, have)) <==> ino.size <= Cap(have, geo.blockSize)
  {
  }

  lemma ExtendedSizes(geo: Geometry, was: seq<Block>, wasInodes: seq<Inode>, had: seq<nat>,
                      now: seq<Block>, inodes: seq<Inode>, have: seq<nat>)
    requires Extended(geo, was, wasInodes, had, now, inodes, have)
    ensures |inodes| == |wasInodes| == |have| == |had|
    ensures forall f: nat | f < |inodes| ::
              inodes[f].size == wasInodes[f].size
              && Extends(Stored(geo, was, wasInodes[f], had[f]), Stored(geo, now, inodes[f], have[f]))
  {
    forall f: nat | f < |inodes|
      ensures inodes[f].size == wasInodes[f].size
    {
      assert Extends(Stored(geo, was, wasInodes[f], had[f]), Stored(geo, now, inodes[f], have[f]));
    }
  }

  // The write loop is through and the size has been added to.
  lemma WriteDone(geo: Geometry, was: seq<Block>, now: seq<Block>, wasInodes: seq<Inode>, inodes: seq<Inode>,
                  have: seq<nat>, f: nat, off: nat, buf: seq<byte>)
    requires DiskOk(geo, was, wasInodes, have) && DiskOk(geo, now, wasInodes, have) && f < |wasInodes| == |have|
    requires have[f] >= Asked(geo, off, |buf|)
    requires OnlyFile(geo, was, now, wasInodes[f], have[f])
    requires Patched(geo, was, now, wasInodes[f], have[f], off, off + |buf|, buf)
    requires inodes == wasInodes[f := wasInodes[f].(size := wasInodes[f].size + |buf|)]
    ensures DiskOk(geo, now, inodes, have) && off + |buf| <= Cap(have[f], geo.blockSize)
    ensures Stored(geo, now, inodes[f], have[f]) == Written(Stored(geo, was, wasInodes[f], have[f]), off, buf)
    ensures forall g: nat | g < |inodes| && g != f ::
              Stored(geo, now, inodes[g], have[g]) == Stored(geo, was, wasInodes[g], have[g])
  {
    hide DiskOk, Patched, OnlyFile, BlockNo, View, Slot, Offset, Cap;
    Reaches(off + |buf|, have[f], geo.blockSize);
    PatchedView(geo, was, now, wasInodes[f], have[f], off, buf);
    SizeIsApart(geo, now, wasInodes, inodes, have, f);
    forall g: nat | g < |inodes| && g != f
      ensures Stored(geo, now, inodes[g], have[g]) == Stored(geo, was, wasInodes[g], have[g])
    {
      OthersKept(geo, was, now, wasInodes, have, f, g);
    }
  }

  lemma SizeIsApart(geo: Geometry, blocks: seq<Block>, was: seq<Inode>, now: seq<Inode>, have: seq<nat>, f: nat)
    requires DiskOk(geo, blocks, was, have) && f < |was|
    requires exists size: nat :: now == was[f := was[f].(size := size)]
    ensures DiskOk(geo, blocks, now, have)
    ensures forall g: nat | g < |was| :: View(geo, blocks, now[g], Cap(have[g], geo.blockSize))
                                         == View(geo, blocks, was[g], Cap(have[g], geo.blockSize))
  {
    forall g: nat, i: nat | g < |was|
      ensures BlockNo(geo, blocks, now[g], i) == BlockNo(geo, blocks, was[g], i)
    {
    }
    hide BlockNo, Slot, Offset, Cap;
    forall g: nat | g < |was|
      ensures FileOk(geo, blocks, now[g], have[g])
    {
      assert FileOk(geo, blocks, was[g], have[g]);
    }
  }

  // ---------- what the two loops mean together ----------

  // Reading back what was just written gives the written bytes, cut off where the
  // recorded size ends; since the size grows by the bytes written wherever they go, they
  // all come back exactly when the write did not start past the old size.
  lemma ReadBack(file: File, off: nat, buf: seq<byte>)
    requires off + |buf| <= |file.bytes|
    ensures ReadOut(Written(file, off, buf), off, |buf|) == buf[..Readable(file.size + |buf|, off, |buf|)]
    ensures ReadOut(Written(file, off, buf), off, |buf|) == buf <==> off <= file.size || buf == []
  {
    var out := ReadOut(Written(file, off, buf), off, |buf|);
    var n := Readable(file.size + |buf|, off, |buf|);
    assert n == Min(|buf|, if off <= file.size + |buf| then file.size + |buf| - off else 0);
    assert out == buf[..n];
    assert |out| == n;
    if n == |buf| {
      assert buf[..n] == buf;
    }
  }

  // A write shows in a later read of any range, and only inside the written one.
  lemma ReadAfterWrite(file: File, off: nat, buf: seq<byte>, at: nat, count: nat, k: nat)
    requires off + |buf| <= |file.bytes| && Backed(Written(file, off, buf), at, count)
    requires k < |ReadOut(Written(file, off, buf), at, count)|
    ensures ReadOut(Written(file, off, buf), at, count)[k]
            == if off <= at + k < off + |buf| then buf[at + k - off] else file.bytes[at + k]
  {
  }
}
