/**
 * The allocator of malloc/alloc.c, function by function, over one shared memory.
 */
module Allocator {
  import opened HeapLayout
  import opened HeapTiling
  import opened HeapSteps
  import opened HeapFacts
  import opened HeapShape

  class Heap {
    var mem: Memory
    var head: int
    var start: int
    ghost var blk: Blocks
    ghost var fl: seq<int>

    ghost predicate Valid()
      reads this
    {
      && DATA_SIZE_SIZE <= HeapStart() <= |mem|
      && 0 < HeapStart()
      // the word below the heap belongs to somebody else; read as a size it is not negative
      && 0 <= mem[HeapStart() - DATA_SIZE_SIZE]
      && (start == NULL ==> blk == map[])
      && Inv(mem, head, HeapStart(), blk, fl)
    }

    // `start` is set by the first call to malloc.
    ghost function HeapStart(): int
      reads this
    {
      if start == NULL then |mem| else start
    }

    // What the callers own: the payload of every live block, by block address. A caller's
    // pointer is STRUCT_SIZE above the address of its block.
    ghost function Payloads(): map<int, seq<int>>
      reads this
      requires Valid()
    {
      Ledger(mem, blk)
    }

    ghost function Form(): Shape
      reads this
    {
      Shape(blk, fl, |mem|)
    }

    // Any memory the process already has below its break.
    constructor (below: Memory)
      requires DATA_SIZE_SIZE < |below| && 0 <= below[|below| - DATA_SIZE_SIZE]
      ensures Valid() && mem == below && start == NULL && blk == map[] && fl == []
    {
      mem, head, start, blk, fl := below, NULL, NULL, map[], [];
    }

    // Unlinks a node from the list; the node's own links stay as they are.
    method DeleteDataNode(node: int)
      requires node != NULL ==> 0 <= node && node + STRUCT_SIZE <= |mem|
      requires node != NULL ==> LinksReadable(mem, node)
      modifies this`mem, this`head
      ensures node == NULL ==> mem == old(mem) && head == old(head)
      ensures node != NULL ==>
                var b, a := old(mem[node + BEFORE]), old(mem[node + AFTER]);
                Spliced(old(mem), mem, b, a, a, b, {}) && head == if b == NULL then a else old(head)
    {
      if node == NULL {
        return;
      }
      if mem[node + BEFORE] == NULL && mem[node + AFTER] == NULL {
        head := NULL;
      } else {
        if mem[node + BEFORE] != NULL && mem[node + AFTER] != NULL {
          var b, a := mem[node + BEFORE], mem[node + AFTER];
          mem := mem[a + BEFORE := b];
          mem := mem[b + AFTER := a];
        } else if mem[node + AFTER] != NULL {
          var a := mem[node + AFTER];
          mem := mem[a + BEFORE := NULL];
          head := a;
        } else {
          var b := mem[node + BEFORE];
          mem := mem[b + AFTER := NULL];
        }
      }
    }

    // Puts `newData` where `cur` was in the list.
    method RelistSplit(cur: int, newData: int)
      requires 0 <= cur && cur + STRUCT_SIZE <= |mem|
      requires LinksReadable(mem, cur)
      modifies this`mem, this`head
      ensures var b, a := old(mem[cur + BEFORE]), old(mem[cur + AFTER]);
              Spliced(old(mem), mem, b, a, newData, newData, {}) && head == if b == NULL then newData else old(head)
    {
      var b, a := mem[cur + BEFORE], mem[cur + AFTER];
      if b != NULL && a != NULL {
        mem := mem[b + AFTER := newData];
        mem := mem[a + BEFORE := newData];
      } else if b != NULL {
        mem := mem[b + AFTER := newData];
      } else if a != NULL {
        mem := mem[a + BEFORE := newData];
        head := newData;
      } else {
        head := newData;
      }
    }

    // The stanza that both merge_get_addrs and split_get_addr_for_reduction end with.
    method PushFront(node: int)
      requires 0 < node && node + STRUCT_SIZE <= |mem|
      requires head != NULL ==>
                 0 < head && head + STRUCT_SIZE <= |mem| && (head + STRUCT_SIZE <= node || node + STRUCT_SIZE <= head)
      modifies this`mem, this`head
      ensures head == node && |mem| == |old(mem)| && Pushed(old(mem), mem, old(head), node)
    {
      if head == NULL {
        head := node;
        mem := mem[node + AFTER := NULL];
        mem := mem[node + BEFORE := NULL];
      } else {
        mem := mem[node + AFTER := head];
        mem := mem[node + BEFORE := NULL];
        mem := mem[head + BEFORE := node];
        head := node;
      }
    }

    // First fit along the list.
    method FindFreeGetAddr(size: nat) returns (found: int, ghost k: nat)
      requires Valid()
      ensures FirstFit(blk, fl, size, k)
      ensures found == if k < |fl| then fl[k] else NULL
      ensures found == NULL <==> k == |fl|
      ensures found == NULL ==> forall a | a in blk && blk[a].free :: blk[a].size < size
      ensures found != NULL ==> found in blk && blk[found].free && blk[found].size >= size
    {
      hide Inv;
      var current := head;
      k := 0;
      ListHead(mem, head, HeapStart(), blk, fl);
      while current != NULL
        invariant k <= |fl|
        invariant current == if k < |fl| then fl[k] else NULL
        invariant forall i | 0 <= i < k :: fl[i] in blk && blk[fl[i]].size < size
        decreases |fl| - k
      {
        ListedNode(mem, head, HeapStart(), blk, fl, k);
        if mem[current + FREE] != 0 && mem[current] >= size {
          return current, k;
        }
        current := mem[current + AFTER];
        k := k + 1;
      }
      NothingFits(mem, head, HeapStart(), blk, fl, size);
      found := NULL;
    }

    // A successful sbrk: more memory above the break, which is returned.
    method Sbrk(increment: nat) returns (oldBreak: int)
      modifies this`mem
      ensures oldBreak == |old(mem)| && mem == old(mem) + Repeat(0, increment)
    {
      oldBreak := |mem|;
      mem := mem + Repeat(0, increment);
    }

    // Extends the heap by one live block, which is pushed on the list as it is.
    method ExpandHeap(size: nat, grant: bool) returns (node: int)
      requires Valid() && start != NULL
      modifies this`mem, this`head
      ensures !grant ==> node == NULL && mem == old(mem) && head == old(head)
      ensures grant ==> node == |old(mem)| && head == node && Expanded(old(mem), mem, old(head), size)
      ensures grant ==> node != NULL && node + STRUCT_SIZE <= |mem| && LinksReadable(mem, node)
    {
      hide Inv, Expanded, LinksReadable, Repeat;
      if !grant {
        return NULL;
      }
      ListHead(mem, head, HeapStart(), blk, fl);
      ghost var m0, head0 := mem, head;
      node := Sbrk(STRUCT_SIZE + size + DATA_SIZE_SIZE);
      mem := mem[node := size];
      mem := mem[node + FREE := 0];
      mem := mem[node + BEFORE := NULL];
      mem := mem[node + AFTER := head];
      if head != NULL {
        mem := mem[head + BEFORE := node];
      }
      head := node;
      mem := mem[node + STRUCT_SIZE + size := size];
      BlockAppended(m0, mem, head0, size);
    }

    // Cuts the listed block `cur` after its first newSize bytes; the rest takes its place
    // in the list.
    method SplitMetadata(cur: int, newSize: nat)
      requires 0 < cur && cur + OVERHEAD <= |mem| && newSize + OVERHEAD < mem[cur]
      requires cur + OVERHEAD + mem[cur] <= |mem|
      requires LinksReadable(mem, cur)
      requires NeighboursClear(mem, cur)
      modifies this`mem, this`head
      ensures SplitDone(old(mem), mem, cur, newSize)
      ensures head == if old(mem[cur + BEFORE]) == NULL then SplitAt(cur, newSize) else old(head)
    {
      hide NeighboursClear, SplitDone, LinksReadable, Spliced, Confined, HeaderOk;
      var newData := cur + STRUCT_SIZE + newSize + DATA_SIZE_SIZE;
      ghost var m0 := mem;
      mem := mem[newData := mem[cur] - newSize - STRUCT_SIZE - DATA_SIZE_SIZE];
      mem := mem[newData + FREE := 1];
      mem := mem[newData + BEFORE := mem[cur + BEFORE]];
      mem := mem[newData + AFTER := mem[cur + AFTER]];
      mem := mem[cur + STRUCT_SIZE + newSize := newSize];
      mem := mem[newData + STRUCT_SIZE + mem[newData] := mem[newData]];
      ghost var m1 := mem;
      RestMarked(m0, m1, cur, newSize);
      RelistSplit(cur, newData);
      ghost var m2 := mem;
      mem := mem[cur := newSize];
      mem := mem[cur + FREE := 0];
      SplitFacts(m0, m1, m2, mem, cur, newSize);
    }

    // `grant` says whether the system would extend the heap if asked.
    method Malloc(size: nat, grant: bool) returns (ptr: int, ghost k: nat)
      requires Valid()
      modifies this
      ensures Valid() && HeapStart() == old(HeapStart())
      ensures size > 0 ==> FirstFit(old(blk), old(fl), size, k)
      ensures Malloced(old(mem), mem, old(blk), blk, old(fl), fl, size, k, grant, ptr)
      ensures LiveKept(old(mem), mem, old(blk), NULL)
      ensures ptr == NULL ==> Payloads() == old(Payloads())
      ensures ptr != NULL ==> Grown(old(Payloads()), Payloads(), ptr - STRUCT_SIZE, size)
    {
      hide Inv, LiveKept, Grown, Taken;
      ghost var m0, head0, s0 := mem, head, HeapStart();
      AllKept(mem, blk);
      if start == NULL {
        start := |mem|;
      }
      if size == 0 {
        return NULL, 0;
      }
      var node;
      node, k := FindFreeGetAddr(size);
      if node == NULL {
        node := TakeFresh(size, grant);
        if node == NULL {
          MallocLedger(m0, mem, head0, head, s0, blk, blk, fl, fl, size, k, grant, NULL);
          return NULL, k;
        }
      } else {
        TakeListed(node, size, k);
      }
      ptr := node + STRUCT_SIZE;
      MallocLedger(m0, mem, head0, head, s0, old(blk), blk, old(fl), fl, size, k, grant, ptr);
    }

    // malloc's arm for a new block: extend the heap and unlink the block again.
    method TakeFresh(size: nat, grant: bool) returns (node: int)
      requires Valid() && start != NULL
      modifies this`mem, this`head, this`blk
      ensures Valid()
      ensures !grant ==> node == NULL && mem == old(mem) && head == old(head) && blk == old(blk)
      ensures grant ==>
                && node == |old(mem)| && node != NULL && |mem| == |old(mem)| + OVERHEAD + size
                && blk == old(blk)[node := Block(size, false)]
      ensures LiveKept(old(mem), mem, old(blk), NULL)
    {
      hide Inv, LiveKept, Spliced, Expanded, LinksReadable;
      ghost var m0, head0 := mem, head;
      AllKept(mem, blk);
      node := ExpandHeap(size, grant);
      if node == NULL {
        return;
      }
      ghost var m1 := mem;
      DeleteDataNode(node);
      MallocFresh(m0, m1, mem, head0, head, start, blk, fl, size);
      blk := blk[|m0| := Block(size, false)];
    }

    // malloc's arm for a block found in the list: split it or hand it out whole.
    method TakeListed(node: int, size: nat, ghost k: nat)
      requires Valid() && start != NULL
      requires FirstFit(blk, fl, size, k) && k < |fl| && node == fl[k]
      modifies this`mem, this`head, this`blk, this`fl
      ensures Valid()
      ensures |mem| == |old(mem)|
      ensures Taken(old(blk), blk, old(fl), fl, size, k)
      ensures LiveKept(old(mem), mem, old(blk), NULL)
    {
      hide Inv, LiveKept, Spliced, SplitDone, LinksReadable, NeighboursClear;
      ghost var m0, head0 := mem, head;
      ListedNode(mem, head, start, blk, fl, k);
      mem := mem[node + FREE := 0];
      StillReadable(m0, node);
      if mem[node] - size > STRUCT_SIZE + DATA_SIZE_SIZE {
        NeighboursOutside(m0, head, start, blk, fl, k);
        SplitMetadata(node, size);
        MallocSplit(m0, mem, head0, head, start, blk, fl, k, size);
        blk, fl := SplitBlock(blk, node, size), fl[k := SplitAt(node, size)];
      } else {
        DeleteDataNode(node);
        MallocWhole(m0, mem, head0, head, start, blk, fl, k);
        blk, fl := blk[node := Block(blk[node].size, false)], RemoveAt(fl, k);
      }
    }

    // In the three merges `cur`'s link fields hold its physical neighbours.

    method MergeBoth(cur: int)
      requires 0 < cur && cur + STRUCT_SIZE <= |mem|
      requires BothSides(mem, cur)
      modifies this`mem, this`head
      ensures var b := old(mem)[cur + AFTER];
              && BothMerged(old(mem), mem, cur)
              && head == if old(mem)[b + BEFORE] == NULL then old(mem)[b + AFTER] else old(head)
    {
      var a := mem[cur + BEFORE];
      ghost var m0 := mem;
      mem := mem[a := mem[a] + mem[cur] + mem[mem[cur + AFTER]] + 2 * STRUCT_SIZE + 2 * DATA_SIZE_SIZE];
      var b := mem[cur + AFTER];
      mem := mem[b + STRUCT_SIZE + mem[b] := mem[a]];
      ghost var m1 := mem;
      assert b == m0[cur + AFTER] && Same(m0, m1, {a, b + STRUCT_SIZE + m0[b]});
      assert m1[b + BEFORE] == m0[b + BEFORE] && m1[b + AFTER] == m0[b + AFTER];
      DeleteDataNode(b);
      ghost var m2 := mem;
      mem := mem[cur + FREE := 0];
      mem := mem[b + FREE := 0];
      BothFacts(m0, m1, m2, mem, cur);
    }

    method MergeWithAfter(cur: int)
      requires 0 < cur && cur + STRUCT_SIZE <= |mem|
      requires RightSide(mem, cur)
      modifies this`mem, this`head
      ensures var b := old(mem)[cur + AFTER];
              && RightMerged(old(mem), mem, cur)
              && head == if old(mem)[b + BEFORE] == NULL then cur else old(head)
    {
      hide RightMerged;
      var b := mem[cur + AFTER];
      ghost var m0 := mem;
      mem := mem[cur := mem[cur] + mem[b] + STRUCT_SIZE + DATA_SIZE_SIZE];
      mem := mem[b + STRUCT_SIZE + mem[b] := mem[cur]];
      mem := mem[cur + BEFORE := mem[b + BEFORE]];
      mem := mem[cur + AFTER := mem[b + AFTER]];
      ghost var m1 := mem;
      assert m1[cur] == m0[cur] + m0[b] + OVERHEAD == m1[b + STRUCT_SIZE + m0[b]];
      RelistSplit(b, cur);
      ghost var m2 := mem;
      mem := mem[b + FREE := 0];
      RightFacts(m0, m1, m2, mem, cur);
    }

    method MergeWithBefore(cur: int)
      requires 0 < cur && cur + STRUCT_SIZE <= |mem|
      requires LeftSide(mem, cur)
      modifies this`mem
      ensures LeftMerged(old(mem), mem, cur)
    {
      var a := mem[cur + BEFORE];
      mem := mem[a := mem[a] + mem[cur] + STRUCT_SIZE + DATA_SIZE_SIZE];
      mem := mem[cur + STRUCT_SIZE + mem[cur] := mem[a]];
      mem := mem[cur + FREE := 0];
    }

    // m0 is the memory before free began to write into cur's header; its last write, which
    // sets cur's `free` again, is still to come.
    method MergeGetAddrs(cur: int, beforeStart: int, afterEnd: int, ghost m0: Memory)
      returns (ghost left: int, ghost right: int)
      requires Freeing(m0, mem, head, start, blk, fl, cur)
      requires 0 < start && cur in blk && 0 < cur && cur + STRUCT_SIZE <= |mem|
      requires beforeStart == mem[cur + BEFORE] && afterEnd == mem[cur + AFTER] + GUARD
      modifies this`mem, this`head, this`blk, this`fl
      ensures |mem| == |m0| && Inv(mem[cur + FREE := 1], head, start, blk, fl)
      ensures FreeLeft(old(blk), cur, left) && FreeRight(old(blk), cur, |m0|, right)
      ensures Freed(old(blk), blk, old(fl), fl, cur, left, right)
      ensures LiveKept(m0, mem[cur + FREE := 1], old(blk), cur)
      ensures forall y | 0 <= y < start :: mem[y] == m0[y]
    {
      hide Inv, LiveKept, LeftSide, LeftMerged, RightSide, RightMerged, BothSides, BothMerged, Freeing, Pushed;
      ghost var m1, head0 := mem, head;
      PhysicalNeighbours(m0, mem, head, start, blk, fl, cur);
      if !(afterEnd <= |mem| && mem[mem[cur + AFTER] + FREE] != 0)
         && !(beforeStart >= start && mem[mem[cur + BEFORE] + FREE] != 0) {
        HeadReadable(m0, m1, head, start, blk, fl, cur);
        PushFront(cur);
        AloneDone(m0, m1, mem, head0, start, blk, fl, cur);
        left, right := NULL, NULL;
        blk, fl := blk[cur := Block(blk[cur].size, true)], [cur] + fl;
      } else {
        if afterEnd <= |mem| && mem[mem[cur + AFTER] + FREE] != 0
           && beforeStart >= start && mem[mem[cur + BEFORE] + FREE] != 0 {
          left, right := mem[cur + BEFORE], mem[cur + AFTER];
          ghost var k := BothReady(m0, mem, head, start, blk, fl, cur);
          MergeBoth(cur);
          BothDone(m0, m1, mem, head0, start, blk, fl, cur, k);
          blk, fl := MergeThree(blk, left, cur, right), RemoveAt(fl, k);
        } else if afterEnd <= |mem| && mem[mem[cur + AFTER] + FREE] != 0 {
          left, right := NULL, mem[cur + AFTER];
          ghost var k := RightReady(m0, mem, head, start, blk, fl, cur);
          MergeWithAfter(cur);
          RightDone(m0, m1, mem, head0, start, blk, fl, cur, k);
          blk, fl := MergeBlocks(blk, cur, right), fl[k := cur];
        } else if beforeStart >= start && mem[mem[cur + BEFORE] + FREE] != 0 {
          left, right := mem[cur + BEFORE], NULL;
          LeftReady(m0, mem, head, start, blk, fl, cur);
          MergeWithBefore(cur);
          LeftDone(m0, m1, mem, head0, start, blk, fl, cur);
          blk := MergeBlocks(blk, left, cur);
        }
      }
    }

    // What free writes into the header first: the flag, and the physical neighbours in
    // place of the links.
    method MarkFree(cur: int) returns (beforeStart: int, afterEnd: int)
      requires Valid() && start != NULL && cur in blk && !blk[cur].free
      modifies this`mem
      ensures Freeing(old(mem), mem, head, start, blk, fl, cur)
      ensures |mem| == |old(mem)| && start <= cur && 0 < cur && cur + STRUCT_SIZE <= |mem|
      ensures beforeStart == mem[cur + BEFORE] && afterEnd == mem[cur + AFTER] + GUARD
    {
      hide Inv, Freeing;
      ghost var m0 := mem;
      ListedHeader(mem, head, start, blk, fl, cur);
      mem := mem[cur + FREE := 1];
      var tailBefore := cur - DATA_SIZE_SIZE;
      mem := mem[cur + BEFORE := tailBefore - mem[tailBefore] - STRUCT_SIZE];
      mem := mem[cur + AFTER := cur + STRUCT_SIZE + mem[cur] + DATA_SIZE_SIZE];
      beforeStart := mem[cur + BEFORE];
      afterEnd := mem[cur + AFTER] + GUARD;
      FreeingStarts(m0, mem, head, start, blk, fl, cur);
    }

    method Free(ptr: int) returns (ghost left: int, ghost right: int)
      requires Valid()
      requires ptr != NULL ==> ptr - STRUCT_SIZE in Payloads()
      modifies this
      ensures Valid() && |mem| == |old(mem)| && start == old(start)
      ensures ptr == NULL ==> mem == old(mem) && blk == old(blk) && fl == old(fl)
      ensures ptr != NULL ==>
                var x := ptr - STRUCT_SIZE;
                && FreeLeft(old(blk), x, left) && FreeRight(old(blk), x, |mem|, right)
                && Freed(old(blk), blk, old(fl), fl, x, left, right)
                && LiveKept(old(mem), mem, old(blk), x)
                && Payloads() == old(Payloads()) - {x}
    {
      hide Inv, LiveKept, Freed, Freeing, FreeLeft, FreeRight, Ledger;
      if ptr == NULL {
        return NULL, NULL;
      }
      ghost var m0, blk0, fl0 := mem, blk, fl;
      var cur := ptr - STRUCT_SIZE;
      LedgerLive(mem, head, HeapStart(), blk, fl, cur);
      var beforeStart, afterEnd := MarkFree(cur);
      left, right := MergeGetAddrs(cur, beforeStart, afterEnd, m0);
      mem := mem[cur + FREE := 1];
      FreeLedger(m0, mem, head, start, blk0, blk, fl0, fl, cur, left, right);
    }

    // A caller fills the first n bytes of a payload it owns with one value (memset).
    method MemSet(ptr: int, value: int, n: nat)
      requires Valid()
      requires ptr - STRUCT_SIZE in Payloads() && n <= |Payloads()[ptr - STRUCT_SIZE]|
      modifies this`mem
      ensures Valid() && |mem| == |old(mem)|
      ensures Filled(old(Payloads()), Payloads(), ptr - STRUCT_SIZE, Repeat(value, n))
    {
      hide Tiling, Headers, Links, Listed, Filled, Overwrite;
      ghost var m0, x := mem, ptr - STRUCT_SIZE;
      PayloadRange(mem, blk, x);
      OverwriteNothing(m0, ptr);
      var i := 0;
      while i < n
        invariant 0 <= i <= n
        invariant |mem| == |m0| && mem == Overwrite(m0, ptr, Repeat(value, i))
      {
        OverwriteMore(m0, ptr, Repeat(value, i), value);
        assert Repeat(value, i + 1) == Repeat(value, i) + [value];
        mem := mem[ptr + i := value];
        i := i + 1;
      }
      FillDone(m0, head, old(HeapStart()), blk, fl, x, Repeat(value, n));
    }

    // A caller copies n bytes to the start of a payload it owns (memcpy).
    method MemCpy(dst: int, src: int, n: nat)
      requires Valid()
      requires dst - STRUCT_SIZE in Payloads() && n <= |Payloads()[dst - STRUCT_SIZE]|
      requires 0 <= src && src + n <= |mem| && (src + n <= dst || dst + n <= src)
      modifies this`mem
      ensures Valid() && |mem| == |old(mem)|
      ensures Filled(old(Payloads()), Payloads(), dst - STRUCT_SIZE, old(mem[src..src + n]))
    {
      hide Inv, Filled, Overwrite, Ledger;
      ghost var m0, x := mem, dst - STRUCT_SIZE;
      PayloadRangeInv(mem, head, HeapStart(), blk, fl, x);
      OverwriteNothing(m0, dst);
      var i := 0;
      ghost var done: seq<int> := [];
      while i < n
        invariant 0 <= i <= n && |done| == i && done == m0[src..src + i]
        invariant |mem| == |m0| && mem == Overwrite(m0, dst, done)
      {
        OverwriteMore(m0, dst, done, m0[src + i]);
        mem := mem[dst + i := mem[src + i]];
        done := done + [m0[src + i]];
        i := i + 1;
      }
      FillDone(m0, head, old(HeapStart()), blk, fl, x, done);
    }

    // A caller stores one byte in a payload it owns.
    method Store(ptr: int, at: nat, value: int)
      requires Valid()
      requires ptr - STRUCT_SIZE in Payloads() && at < |Payloads()[ptr - STRUCT_SIZE]|
      modifies this`mem
      ensures Valid() && |mem| == |old(mem)|
      ensures var x := ptr - STRUCT_SIZE;
              Payloads() == old(Payloads())[x := old(Payloads())[x][at := value]]
    {
      hide Inv;
      ghost var m0, x := mem, ptr - STRUCT_SIZE;
      PayloadRangeInv(mem, head, HeapStart(), blk, fl, x);
      mem := mem[ptr + at := value];
      StoreDone(m0, mem, head, old(HeapStart()), blk, fl, x, at, value);
    }

    // malloc, as its callers inside the library see it.
    method MallocServes(size: nat, grant: bool) returns (ptr: int)
      requires Valid()
      modifies this
      ensures Valid() && HeapStart() == old(HeapStart())
      ensures MallocStep(old(Form()), Form(), size, grant, ptr)
      ensures ptr != NULL <==> Servable(old(blk), size, grant)
      ensures ptr == NULL ==> Payloads() == old(Payloads())
      ensures ptr != NULL ==> Grown(old(Payloads()), Payloads(), ptr - STRUCT_SIZE, size)
    {
      hide Inv, Malloced, LiveKept, FirstFit, Grown, MallocStep, Servable;
      ghost var k;
      ptr, k := Malloc(size, grant);
      MallocedIsStep(old(mem), mem, old(blk), blk, old(fl), fl, size, k, grant, ptr);
      MallocSucceedsExactly(old(mem), old(head), old(HeapStart()), old(Form()), Form(), size, grant, ptr);
    }

    method Calloc(num: nat, size: nat, grant: bool) returns (ptr: int)
      requires Valid()
      modifies this
      ensures Valid() && HeapStart() == old(HeapStart())
      ensures MallocStep(old(Form()), Form(), num * size, grant, ptr)
      ensures ptr != NULL <==> Servable(old(blk), num * size, grant)
      ensures ptr == NULL ==> Payloads() == old(Payloads())
      ensures ptr != NULL ==>
                && Grown(old(Payloads()), Payloads(), ptr - STRUCT_SIZE, num * size)
                && Payloads()[ptr - STRUCT_SIZE][..num * size] == Repeat(0, num * size)
    {
      hide Inv, MallocStep, Servable, Filled, Grown, Ledger;
      ptr := MallocServes(num * size, grant);
      if ptr != NULL {
        ghost var x, l1 := ptr - STRUCT_SIZE, Payloads();
        GrownHolds(old(Payloads()), l1, x, num * size);
        MemSet(ptr, 0, num * size);
        GrownThenFilled(old(Payloads()), l1, Payloads(), x, Repeat(0, num * size));
      }
    }

    // The sizes and footers of both halves of a cut.
    method CutSizes(getAddr: int, newNode: int, newSize: nat)
      requires 0 < getAddr && getAddr + STRUCT_SIZE <= |mem|
      requires newSize + OVERHEAD < mem[getAddr] && getAddr + OVERHEAD + mem[getAddr] <= |mem|
      requires newNode == SplitAt(getAddr, newSize)
      modifies this`mem
      ensures Cut(old(mem), mem, getAddr, newSize, old(mem[getAddr]))
    {
      mem := mem[newNode := mem[getAddr] - newSize - STRUCT_SIZE - DATA_SIZE_SIZE];
      mem := mem[getAddr := newSize];
      mem := mem[getAddr + STRUCT_SIZE + newSize := newSize];
      mem := mem[newNode + STRUCT_SIZE + mem[newNode] := mem[newNode]];
    }

    // Only blocks above 256 MiB are cut; the rest goes to the front of the list, without
    // joining its neighbours.
    method SplitGetAddrForReduction(getAddr: int, newSize: nat)
      requires Valid()
      requires getAddr in Payloads() && newSize <= |Payloads()[getAddr]|
      modifies this`mem, this`head, this`blk, this`fl
      ensures Valid() && |mem| == |old(mem)|
      ensures Reduced(old(mem), mem, old(blk), blk, old(fl), fl, getAddr, newSize)
      ensures Moved(old(Payloads()), Payloads(), getAddr, getAddr, newSize)
    {
      hide Inv, Moved, Pushed, Cut, Ledger, SplitBlock;
      PayloadLive(mem, head, HeapStart(), blk, fl, getAddr);
      PayloadRangeInv(mem, head, HeapStart(), blk, fl, getAddr);
      NothingMoved(mem, head, HeapStart(), blk, fl, getAddr, newSize);
      if mem[getAddr] <= REDUCE_LIMIT {
        return;
      }
      if mem[getAddr] - newSize > STRUCT_SIZE + DATA_SIZE_SIZE {
        ghost var m0, head0 := mem, head;
        var newNode := getAddr + STRUCT_SIZE + newSize + DATA_SIZE_SIZE;
        CutSizes(getAddr, newNode, newSize);
        ghost var m1 := mem;
        CutLength(m0, m1, getAddr, newSize, blk[getAddr].size);
        HeadClear(m0, head, HeapStart(), blk, fl, getAddr);
        PushFront(newNode);
        ghost var m2 := mem;
        mem := mem[newNode + FREE := 1];
        mem := mem[getAddr + FREE := 0];
        ReductionDone(m0, m1, m2, mem, head0, HeapStart(), blk, fl, getAddr, newSize);
        blk, fl := SplitBlock(blk, getAddr, newSize), [newNode] + fl;
      }
    }

    method ReduceSize(ptr: int, newSize: nat) returns (newPtr: int)
      requires Valid()
      requires ptr - STRUCT_SIZE in Payloads() && newSize <= |Payloads()[ptr - STRUCT_SIZE]|
      modifies this`mem, this`head, this`blk, this`fl
      ensures Valid() && newPtr == ptr
      ensures ReduceStep(old(Form()), Form(), ptr - STRUCT_SIZE, newSize)
      ensures Moved(old(Payloads()), Payloads(), ptr - STRUCT_SIZE, ptr - STRUCT_SIZE, newSize)
    {
      var getAddr := ptr - STRUCT_SIZE;
      SplitGetAddrForReduction(getAddr, newSize);
      newPtr := getAddr + STRUCT_SIZE;
    }

    method IncreaseSize(ptr: int, oldSize: nat, newSize: nat, grant: bool) returns (newPtr: int)
      requires Valid()
      requires ptr - STRUCT_SIZE in Payloads() && oldSize == |Payloads()[ptr - STRUCT_SIZE]| < newSize
      modifies this
      ensures Valid()
      ensures MoveStep(old(Form()), Form(), ptr - STRUCT_SIZE, newSize, grant, newPtr)
      ensures newPtr != NULL <==> Servable(old(blk), newSize, grant)
      ensures newPtr == NULL ==> Payloads() == old(Payloads())
      ensures newPtr != NULL ==>
                Moved(old(Payloads()), Payloads(), ptr - STRUCT_SIZE, newPtr - STRUCT_SIZE, newSize)
    {
      hide Inv, Freed, FreeLeft, FreeRight, LiveKept, MallocStep, FreeStep, Servable, Moved, Filled;
      ghost var l0, x := Payloads(), ptr - STRUCT_SIZE;
      ghost var left, right;
      newPtr := MallocServes(newSize, grant);
      ghost var s1 := Form();
      if newPtr == NULL {
        assert MoveAt(old(Form()), s1, s1, x, newSize, grant, newPtr);
        return;
      }
      ghost var l1, y := Payloads(), newPtr - STRUCT_SIZE;
      PayloadsApart(mem, head, HeapStart(), blk, fl, x, y);
      MemCpy(newPtr, ptr, oldSize);
      ghost var l2 := Payloads();
      assert Form() == s1;
      ghost var blk1, fl1 := blk, fl;
      left, right := Free(ptr);
      FreedIsStep(blk1, blk, fl1, fl, |mem|, x, left, right);
      assert MoveAt(old(Form()), s1, Form(), x, newSize, grant, newPtr);
      CopyMoves(l0, l1, l2, Payloads(), x, y, newSize);
    }

    method Realloc(ptr: int, size: nat, grant: bool) returns (newPtr: int)
      requires Valid()
      requires ptr != NULL ==> ptr - STRUCT_SIZE in Payloads()
      modifies this
      ensures Valid()
      ensures ReallocStep(old(Form()), Form(), ptr, size, grant, newPtr)
      // it fails only where nothing is big enough and the system grants nothing
      ensures newPtr != NULL <==>
                || Servable(old(blk), size, grant)
                || (ptr != NULL && 0 < size <= |old(Payloads())[ptr - STRUCT_SIZE]|)
      ensures ptr == NULL && newPtr != NULL ==> Grown(old(Payloads()), Payloads(), newPtr - STRUCT_SIZE, size)
      ensures ptr != NULL && newPtr != NULL ==>
                Moved(old(Payloads()), Payloads(), ptr - STRUCT_SIZE, newPtr - STRUCT_SIZE, size)
      ensures ptr != NULL && 0 < size <= |old(Payloads())[ptr - STRUCT_SIZE]| ==> newPtr == ptr
      ensures ptr != NULL && size == 0 ==> newPtr == NULL && Payloads() == old(Payloads()) - {ptr - STRUCT_SIZE}
      ensures (ptr == NULL || size > 0) && newPtr == NULL ==> Payloads() == old(Payloads())
    {
      hide Inv, Freed, FreeLeft, FreeRight, LiveKept, Moved, Grown, MallocStep, FreeStep, ReduceStep, MoveStep,
           Servable;
      ghost var left, right;
      if ptr == NULL {
        newPtr := MallocServes(size, grant);
        return;
      }
      if size == 0 {
        left, right := Free(ptr);
        FreedIsStep(old(blk), blk, old(fl), fl, |mem|, ptr - STRUCT_SIZE, left, right);
        NothingServesNothing(old(blk), grant);
        return NULL;
      }
      var getAddr := ptr - STRUCT_SIZE;
      PayloadLive(mem, head, HeapStart(), blk, fl, getAddr);
      PayloadRangeInv(mem, head, HeapStart(), blk, fl, getAddr);
      var oldSize := mem[getAddr];
      if oldSize >= size {
        newPtr := ReduceSize(ptr, size);
      } else {
        newPtr := IncreaseSize(ptr, oldSize, size, grant);
      }
    }
  }
}
