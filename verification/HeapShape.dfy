/**
 * What each call of malloc/alloc.c does to the shape of the heap: the tiling, the free list
 * and the break, whatever the bytes are. The shape decides whether a call succeeds.
 */
module HeapShape {
  import opened HeapLayout
  import opened HeapTiling
  import opened HeapSteps
  import opened HeapFacts

  datatype Shape = Shape(blk: Blocks, fl: seq<int>, brk: int)

  // A request for `size` bytes can be met: a free block has room, or the system grants more.
  ghost predicate Servable(blk: Blocks, size: nat, grant: bool) {
    size > 0 && (grant || exists a :: a in blk && blk[a].free && blk[a].size >= size)
  }

  lemma NothingServesNothing(blk: Blocks, grant: bool)
    ensures !Servable(blk, 0, grant)
  {
  }

  ghost predicate MallocAt(s: Shape, s': Shape, size: nat, grant: bool, ptr: int, k: nat) {
    if size == 0 then ptr == NULL && s' == s
    else
      && FirstFit(s.blk, s.fl, size, k)
      && if k < |s.fl| then
           && ptr == s.fl[k] + STRUCT_SIZE
           && s'.brk == s.brk
           && Taken(s.blk, s'.blk, s.fl, s'.fl, size, k)
         else if grant then
           && ptr == s.brk + STRUCT_SIZE
           && s' == Shape(s.blk[s.brk := Block(size, false)], s.fl, s.brk + OVERHEAD + size)
         else
           ptr == NULL && s' == s
  }

  ghost predicate MallocStep(s: Shape, s': Shape, size: nat, grant: bool, ptr: int) {
    exists k: nat :: MallocAt(s, s', size, grant, ptr, k)
  }

  ghost predicate FreeAt(s: Shape, s': Shape, x: int, left: int, right: int) {
    && x in s.blk && s'.brk == s.brk
    && FreeLeft(s.blk, x, left) && FreeRight(s.blk, x, s.brk, right)
    && Freed(s.blk, s'.blk, s.fl, s'.fl, x, left, right)
  }

  ghost predicate FreeStep(s: Shape, s': Shape, x: int) {
    exists left, right :: FreeAt(s, s', x, left, right)
  }

  ghost predicate ReduceStep(s: Shape, s': Shape, x: int, n: nat) {
    && x in s.blk && s'.brk == s.brk
    && if s.blk[x].size > REDUCE_LIMIT && s.blk[x].size - n > OVERHEAD then
         s'.blk == SplitBlock(s.blk, x, n) && s'.fl == [SplitAt(x, n)] + s.fl
       else
         s' == s
  }

  // A growing realloc: malloc, then free of the old block.
  ghost predicate MoveAt(s: Shape, m: Shape, s': Shape, x: int, size: nat, grant: bool, ptr: int) {
    MallocStep(s, m, size, grant, ptr) && if ptr == NULL then s' == m else FreeStep(m, s', x)
  }

  ghost predicate MoveStep(s: Shape, s': Shape, x: int, size: nat, grant: bool, ptr: int) {
    exists m :: MoveAt(s, m, s', x, size, grant, ptr)
  }

  ghost predicate ReallocStep(s: Shape, s': Shape, held: int, size: nat, grant: bool, ptr: int) {
    var x := held - STRUCT_SIZE;
    if held == NULL then MallocStep(s, s', size, grant, ptr)
    else if size == 0 then ptr == NULL && FreeStep(s, s', x)
    else x in s.blk && if s.blk[x].size >= size then ptr == held && ReduceStep(s, s', x, size)
                       else MoveStep(s, s', x, size, grant, ptr)
  }

  lemma MallocedIsStep(m: Memory, m': Memory, blk: Blocks, blk': Blocks, fl: seq<int>, fl': seq<int>,
                       size: nat, k: nat, grant: bool, ptr: int)
    requires size > 0 ==> FirstFit(blk, fl, size, k)
    requires Malloced(m, m', blk, blk', fl, fl', size, k, grant, ptr)
    ensures MallocStep(Shape(blk, fl, |m|), Shape(blk', fl', |m'|), size, grant, ptr)
  {
    hide FirstFit, Taken;
    assert MallocAt(Shape(blk, fl, |m|), Shape(blk', fl', |m'|), size, grant, ptr, k);
  }

  lemma FreedIsStep(blk: Blocks, blk': Blocks, fl: seq<int>, fl': seq<int>, brk: int, x: int, left: int, right: int)
    requires x in blk && FreeLeft(blk, x, left) && FreeRight(blk, x, brk, right)
    requires Freed(blk, blk', fl, fl', x, left, right)
    ensures FreeStep(Shape(blk, fl, brk), Shape(blk', fl', brk), x)
  {
    hide FreeLeft, FreeRight, Freed;
    assert FreeAt(Shape(blk, fl, brk), Shape(blk', fl', brk), x, left, right);
  }

  // ---------- when a call succeeds ----------

  // malloc succeeds exactly when the request can be met.
  lemma MallocSucceedsExactly(m: Memory, head: int, start: int, s: Shape, s': Shape, size: nat, grant: bool, ptr: int)
    requires Inv(m, head, start, s.blk, s.fl) && s.brk == |m|
    requires MallocStep(s, s', size, grant, ptr)
    ensures ptr != NULL <==> Servable(s.blk, size, grant)
  {
    hide Inv, Taken;
    ListHead(m, head, start, s.blk, s.fl);
    var k: nat :| MallocAt(s, s', size, grant, ptr, k);
    if size > 0 {
      if k < |s.fl| {
        ListedNode(m, head, start, s.blk, s.fl, k);
      } else {
        NothingFits(m, head, start, s.blk, s.fl, size);
      }
    }
  }

  // ---------- what becomes of the room ----------

  // The block that a free of x leaves can begin at lo: at x, or at the free block before it.
  ghost predicate Begins(blk: Blocks, x: int, lo: int) {
    lo == x || (lo in blk && blk[lo].free && End(lo, blk[lo]) == x)
  }

  // And end at hi: where x does, or where the free block after it does, if that one starts
  // 1024 bytes or more below the break.
  ghost predicate Ends(blk: Blocks, x: int, brk: int, hi: int)
    requires x in blk
  {
    var b := End(x, blk[x]);
    hi == b || (b in blk && blk[b].free && b + 1024 <= brk && hi == End(b, blk[b]))
  }

  // Where the joined block begins and ends, for the neighbours that free finds.
  lemma Outermost(start: int, s: Shape, x: int, left: int, right: int)
    requires Tiling(s.blk, start, s.brk) && NULL !in s.blk && x in s.blk
    requires FreeLeft(s.blk, x, left) && FreeRight(s.blk, x, s.brk, right)
    ensures var lo := if left == NULL then x else left;
            Begins(s.blk, x, lo) && forall a | Begins(s.blk, x, a) :: lo <= a
    ensures var hi := if right == NULL then End(x, s.blk[x]) else End(right, s.blk[right]);
            Ends(s.blk, x, s.brk, hi) && forall b | Ends(s.blk, x, s.brk, b) :: b <= hi
  {
    forall a | Begins(s.blk, x, a) && a != x
      ensures left != NULL && left <= a
    {
      assert LeftOf(s.blk, a, x);
    }
  }

  // No block begins inside another.
  lemma NoneInside(start: int, s: Shape, a: int)
    requires Tiling(s.blk, start, s.brk) && a in s.blk
    ensures forall c | c in s.blk && a <= c < End(a, s.blk[a]) :: c == a
  {
  }

  // A free of x makes one free block out of x and its free neighbours, and every other block
  // stays as it was.
  lemma FreeJoins(start: int, s: Shape, s': Shape, x: int, lo: int, hi: int)
    requires Tiling(s.blk, start, s.brk) && NULL !in s.blk && FreeStep(s, s', x)
    requires Begins(s.blk, x, lo) && forall a | Begins(s.blk, x, a) :: lo <= a
    requires Ends(s.blk, x, s.brk, hi) && forall b | Ends(s.blk, x, s.brk, b) :: b <= hi
    ensures hi - lo >= OVERHEAD && s'.brk == s.brk
    ensures lo in s'.blk && s'.blk[lo] == Block(hi - lo - OVERHEAD, true)
    ensures forall c :: c in s'.blk <==> c == lo || (c in s.blk && !(lo <= c < hi))
    ensures forall c | c in s'.blk && c != lo :: s'.blk[c] == s.blk[c]
  {
    var left, right :| FreeAt(s, s', x, left, right);
    Outermost(start, s, x, left, right);
    NoneInside(start, s, x);
    if left != NULL {
      NoneInside(start, s, left);
    }
    if right != NULL {
      NoneInside(start, s, right);
    }
    assert lo == if left == NULL then x else left;
    assert hi == if right == NULL then End(x, s.blk[x]) else End(right, s.blk[right]);
    hide Begins, Ends, Tiling;
  }

  // So room that a free puts together is there for the next request, without the system.
  lemma JoinServes(start: int, s: Shape, s': Shape, x: int, lo: int, hi: int, size: nat, grant: bool)
    requires Tiling(s.blk, start, s.brk) && NULL !in s.blk && FreeStep(s, s', x)
    requires Begins(s.blk, x, lo) && Ends(s.blk, x, s.brk, hi) && 0 < size <= hi - lo - OVERHEAD
    ensures Servable(s'.blk, size, grant)
  {
    var left, right :| FreeAt(s, s', x, left, right);
    var lo0 := if left == NULL then x else left;
    var hi0 := if right == NULL then End(x, s.blk[x]) else End(right, s.blk[right]);
    Outermost(start, s, x, left, right);
    hide FreeAt, Begins, Ends, Tiling;
    FreeJoins(start, s, s', x, lo0, hi0);
    assert s'.blk[lo0].free && s'.blk[lo0].size >= size;
  }

  // What free does to the list: a block that grows downwards takes no new place, one that
  // swallows only its right neighbour takes that one's place, and one alone goes in front.
  lemma FreeRelists(start: int, s: Shape, s': Shape, x: int, lo: int, hi: int)
    requires Tiling(s.blk, start, s.brk) && NULL !in s.blk && FreeStep(s, s', x)
    requires Begins(s.blk, x, lo) && forall a | Begins(s.blk, x, a) :: lo <= a
    requires Ends(s.blk, x, s.brk, hi) && forall b | Ends(s.blk, x, s.brk, b) :: b <= hi
    ensures var b := End(x, s.blk[x]);
            if hi == b then s'.fl == if lo == x then [x] + s.fl else s.fl
            else exists k :: 0 <= k < |s.fl| && s.fl[k] == b
                             && s'.fl == s.fl[..k] + (if lo == x then [x] else []) + s.fl[k + 1..]
  {
    var left, right :| FreeAt(s, s', x, left, right);
    Outermost(start, s, x, left, right);
    hide Begins, Ends, Tiling, FreeLeft, RemoveAt, MergeBlocks, MergeThree;
    if right != NULL {
      assert right == End(x, s.blk[x]);
      var k :| 0 <= k < |s.fl| && s.fl[k] == right && s'.fl == if left == NULL then s.fl[k := x] else RemoveAt(s.fl, k);
      Relisted(s.fl, k, x);
    }
  }

  lemma Relisted(fl: seq<int>, k: int, x: int)
    requires 0 <= k < |fl|
    ensures fl[k := x] == fl[..k] + [x] + fl[k + 1..] && RemoveAt(fl, k) == fl[..k] + [] + fl[k + 1..]
  {
  }

  // A successful malloc wastes less than it would take to make another block, the room that
  // it leaves of a listed block serves a later request, and the break moves exactly when
  // nothing listed is large enough.
  lemma MallocSpares(m: Memory, head: int, start: int, s: Shape, s': Shape, size: nat, grant: bool, ptr: int)
    requires Inv(m, head, start, s.blk, s.fl) && s.brk == |m|
    requires MallocStep(s, s', size, grant, ptr) && ptr != NULL
    ensures var x := ptr - STRUCT_SIZE;
            && x in s'.blk && !s'.blk[x].free && size <= s'.blk[x].size <= size + OVERHEAD
            && (x in s.blk ==>
                  && s.blk[x].free && s'.brk == s.brk
                  && forall n: nat | 0 < n <= s.blk[x].size - size - OVERHEAD :: Servable(s'.blk, n, false))
            && (x in s.blk <==> exists a :: a in s.blk && s.blk[a].free && s.blk[a].size >= size)
            && (x !in s.blk ==> x == s.brk && s'.brk == s.brk + OVERHEAD + size && s'.blk[x].size == size)
  {
    hide Inv;
    ListHead(m, head, start, s.blk, s.fl);
    var k: nat :| MallocAt(s, s', size, grant, ptr, k);
    if k < |s.fl| {
      ListedNode(m, head, start, s.blk, s.fl, k);
      var x, d := s.fl[k], SplitAt(s.fl[k], size);
      if s.blk[x].size - size > OVERHEAD {
        assert d in s'.blk && s'.blk[d] == Block(s.blk[x].size - size - OVERHEAD, true);
      }
    } else {
      NothingFits(m, head, start, s.blk, s.fl, size);
      NotBehind(m, head, start, s.blk, s.fl);
    }
  }

  // Of the listed blocks it is the first that is large enough.
  lemma MallocTakesFirst(m: Memory, head: int, start: int, s: Shape, s': Shape, size: nat, grant: bool, ptr: int,
                         i: nat, j: nat)
    requires Inv(m, head, start, s.blk, s.fl) && s.brk == |m|
    requires MallocStep(s, s', size, grant, ptr) && ptr != NULL
    requires j < i < |s.fl| && ptr == s.fl[i] + STRUCT_SIZE
    ensures s.fl[i] in s.blk && s.blk[s.fl[i]].size >= size
    ensures s.fl[j] in s.blk && s.blk[s.fl[j]].size < size
  {
    hide Inv, Taken;
    var k: nat :| MallocAt(s, s', size, grant, ptr, k);
    ListedNode(m, head, start, s.blk, s.fl, i);
    ListedNode(m, head, start, s.blk, s.fl, j);
    NotBehind(m, head, start, s.blk, s.fl);
    if k < |s.fl| && k != i {
      ListedOnce(m, head, s.fl, start, s.blk, i, k);
    }
  }

  lemma ListedOnce(m: Memory, head: int, fl: seq<int>, start: int, blk: Blocks, i: nat, k: nat)
    requires Inv(m, head, start, blk, fl) && i < |fl| && k < |fl| && i != k
    ensures fl[i] != fl[k]
  {
    assert Apart(fl[i], fl[k]) || Apart(fl[k], fl[i]);
  }

  lemma NotBehind(m: Memory, head: int, start: int, blk: Blocks, fl: seq<int>)
    requires Inv(m, head, start, blk, fl)
    ensures |m| !in blk
  {
    if |m| in blk {
      ListedHeader(m, head, start, blk, fl, |m|);
    }
  }

  // A realloc to a size that fits stays where it is, and gives back the rest of a block of
  // more than 256 MiB.
  lemma ShrinkGivesBack(s: Shape, s': Shape, held: int, size: nat, grant: bool, ptr: int)
    requires held != NULL && size > 0 && ReallocStep(s, s', held, size, grant, ptr)
    requires held - STRUCT_SIZE in s.blk && size <= s.blk[held - STRUCT_SIZE].size
    ensures var x, had := held - STRUCT_SIZE, s.blk[held - STRUCT_SIZE].size;
            && ptr == held && s'.brk == s.brk && x in s'.blk
            && if had > 0x1000_0000 && had - size > OVERHEAD then
                 && s'.blk[x].size == size
                 && forall n: nat | 0 < n <= had - size - OVERHEAD :: Servable(s'.blk, n, false)
               else s' == s
  {
    var x, d := held - STRUCT_SIZE, SplitAt(held - STRUCT_SIZE, size);
    if s.blk[x].size > REDUCE_LIMIT && s.blk[x].size - size > OVERHEAD {
      assert s'.blk[d] == Block(s.blk[x].size - size - OVERHEAD, true);
    }
  }

  // A realloc that moves a buffer leaves the old room to later requests.
  lemma MoveGivesBack(m: Memory, head: int, start: int, s: Shape, s': Shape, held: int, size: nat, grant: bool,
                      ptr: int, n: nat)
    requires Inv(m, head, start, s.blk, s.fl) && s.brk == |m|
    requires held != NULL && ReallocStep(s, s', held, size, grant, ptr) && ptr != NULL
    requires held - STRUCT_SIZE in s.blk && !s.blk[held - STRUCT_SIZE].free && size > s.blk[held - STRUCT_SIZE].size
    requires 0 < n <= s.blk[held - STRUCT_SIZE].size
    ensures Servable(s'.blk, n, false)
  {
    hide Inv, MallocStep, FreeStep, Servable;
    var x := held - STRUCT_SIZE;
    var mid :| MoveAt(s, mid, s', x, size, grant, ptr);
    MallocKeepsLive(m, head, start, s, mid, size, grant, ptr, x);
    FreedServes(mid, s', x, n, false);
  }

  lemma MallocKeepsLive(m: Memory, head: int, start: int, s: Shape, s': Shape, size: nat, grant: bool, ptr: int, x: int)
    requires Inv(m, head, start, s.blk, s.fl) && s.brk == |m| && MallocStep(s, s', size, grant, ptr)
    requires x in s.blk && !s.blk[x].free
    ensures x in s'.blk && s'.blk[x] == s.blk[x]
  {
    var k: nat :| MallocAt(s, s', size, grant, ptr, k);
    ListHead(m, head, start, s.blk, s.fl);
    NotBehind(m, head, start, s.blk, s.fl);
    if size > 0 && k < |s.fl| {
      ListedNode(m, head, start, s.blk, s.fl, k);
      assert Tiling(s.blk, start, s.brk);
      hide Inv, FirstFit, MallocStep, Tiling;
      if s.blk[s.fl[k]].size - size > OVERHEAD {
        TilingSplit(s.blk, start, s.brk, s.fl[k], size);
      }
    }
  }

  // Even alone, a freed block serves a request of at most its size.
  lemma FreedServes(s: Shape, s': Shape, x: int, size: nat, grant: bool)
    requires FreeStep(s, s', x) && 0 < size <= s.blk[x].size
    ensures Servable(s'.blk, size, grant)
  {
    var left, right :| FreeAt(s, s', x, left, right);
    var a := if left == NULL then x else left;
    assert a in s'.blk && s'.blk[a].free && s'.blk[a].size >= size;
  }

  // A first fit is the only one, so a call has one outcome.
  lemma MallocIsDeterministic(s: Shape, s1: Shape, s2: Shape, size: nat, grant: bool, p1: int, p2: int)
    requires MallocStep(s, s1, size, grant, p1) && MallocStep(s, s2, size, grant, p2)
    ensures s1 == s2 && p1 == p2
  {
    var k: nat :| MallocAt(s, s1, size, grant, p1, k);
    var l: nat :| MallocAt(s, s2, size, grant, p2, l);
    if size > 0 {
      assert !(k < l) && !(l < k);
    }
  }
}
