/**
 * What the functions of malloc/alloc.c read and write, and why each call leaves a heap in
 * which tiling, footers and free list agree again.
 */
module HeapFacts {
  import opened HeapLayout
  import opened HeapTiling
  import opened HeapSteps

  // free's right-hand guard adds STRUCT_SIZE elements of data_node, not one header.
  const GUARD: nat := STRUCT_SIZE * STRUCT_SIZE
  // Below this size a shrinking realloc leaves the block as it is.
  const REDUCE_LIMIT: nat := 1024 * 1024 * 256

  // k is the position of the first listed block with room for `size` bytes, or |fl|.
  ghost predicate FirstFit(blk: Blocks, fl: seq<int>, size: nat, k: nat) {
    && k <= |fl|
    && (forall i | 0 <= i < |fl| :: fl[i] in blk)
    && (k < |fl| ==> blk[fl[k]].size >= size)
    && (forall i | 0 <= i < k :: blk[fl[i]].size < size)
  }

  // The sizes of the live blocks.
  ghost function Live(blk: Blocks): map<int, nat> {
    map a | a in blk && !blk[a].free :: blk[a].size
  }

  // The payloads the callers own, by the address of their block.
  ghost function Ledger(m: Memory, blk: Blocks): map<int, seq<int>>
    requires Headers(m, blk)
  {
    map a | a in blk && !blk[a].free :: m[a + STRUCT_SIZE..a + STRUCT_SIZE + blk[a].size]
  }

  // A node whose neighbours can be followed.
  ghost predicate LinksReadable(m: Memory, node: int)
    requires 0 <= node && node + STRUCT_SIZE <= |m|
  {
    var b, a := m[node + BEFORE], m[node + AFTER];
    && (b == NULL || (0 < b && b + STRUCT_SIZE <= |m|))
    && (a == NULL || (0 < a && a + STRUCT_SIZE <= |m|))
    && (b == NULL || a == NULL || Apart(b, a))
  }

  lemma StillReadable(m: Memory, node: int)
    requires 0 <= node && node + STRUCT_SIZE <= |m| && LinksReadable(m, node)
    ensures LinksReadable(m[node + FREE := 0], node)
  {
  }

  ghost predicate Expanded(m: Memory, m': Memory, head: int, size: nat) {
    && |m'| == |m| + OVERHEAD + size
    && HeaderOk(m', |m|, Block(size, false))
    && m'[|m| + BEFORE] == NULL && m'[|m| + AFTER] == head
    && (head != NULL ==> 0 < head && head + STRUCT_SIZE <= |m| && m'[head + BEFORE] == |m|)
    && forall y | 0 <= y < |m| && (head != NULL ==> y != head + BEFORE) :: m'[y] == m[y]
  }

  lemma BlockAppended(m0: Memory, m1: Memory, head: int, size: nat)
    requires head != NULL ==> 0 < head && head + STRUCT_SIZE <= |m0|
    requires 0 < |m0|
    requires var x := |m0|;
             var m := (m0 + Repeat(0, STRUCT_SIZE + size + DATA_SIZE_SIZE))
                      [x := size][x + FREE := 0][x + BEFORE := NULL][x + AFTER := head];
             m1 == (if head != NULL then m[head + BEFORE := x] else m)[x + STRUCT_SIZE + size := size]
    ensures Expanded(m0, m1, head, size)
    ensures |m0| + STRUCT_SIZE <= |m1| && LinksReadable(m1, |m0|)
  {
  }

  lemma ListedNode(m: Memory, head: int, start: int, blk: Blocks, fl: seq<int>, k: int)
    requires Inv(m, head, start, blk, fl)
    requires 0 <= k < |fl|
    ensures fl[k] in blk && blk[fl[k]].free && HeaderOk(m, fl[k], blk[fl[k]]) && LinkOk(m, fl, k)
    ensures fl[k] + STRUCT_SIZE <= |m| && LinksReadable(m, fl[k])
    ensures NodeOrNull(blk, Prev(fl, k)) && NodeOrNull(blk, Next(fl, k))
    ensures Prev(fl, k) == NULL <==> k == 0
  {
    assert k > 0 ==> LinkOk(m, fl, k - 1);
    assert k + 1 < |fl| ==> LinkOk(m, fl, k + 1);
    assert k > 0 && k + 1 < |fl| ==> Apart(fl[k - 1], fl[k + 1]);
  }

  lemma ListHead(m: Memory, head: int, start: int, blk: Blocks, fl: seq<int>)
    requires Inv(m, head, start, blk, fl)
    ensures head == First(fl)
    ensures head != NULL ==> 0 < head && head + STRUCT_SIZE <= |m|
    ensures forall i | 0 <= i < |fl| :: fl[i] in blk && 0 < fl[i]
  {
    assert forall i | 0 <= i < |fl| :: LinkOk(m, fl, i);
  }

  lemma NothingFits(m: Memory, head: int, start: int, blk: Blocks, fl: seq<int>, size: nat)
    requires Inv(m, head, start, blk, fl)
    requires forall i | 0 <= i < |fl| :: fl[i] in blk && blk[fl[i]].size < size
    ensures forall a | a in blk && blk[a].free :: blk[a].size < size
  {
    forall a | a in blk && blk[a].free
      ensures blk[a].size < size
    {
      assert a in fl;
    }
  }

  // The list neighbours of a node lie outside its block.
  ghost predicate NeighboursClear(m: Memory, cur: int)
    requires 0 <= cur && cur + STRUCT_SIZE <= |m|
  {
    var hi := cur + OVERHEAD + m[cur];
    && (m[cur + BEFORE] != NULL ==> Clear(m[cur + BEFORE], cur, hi))
    && (m[cur + AFTER] != NULL ==> Clear(m[cur + AFTER], cur, hi))
  }

  ghost predicate SplitDone(m: Memory, m': Memory, cur: int, n: nat)
    requires 0 <= cur && cur + STRUCT_SIZE <= |m|
    requires n + OVERHEAD <= m[cur]
  {
    var p, q := m[cur + BEFORE], m[cur + AFTER];
    && |m'| == |m|
    && Confined(m, m', cur, cur + OVERHEAD + m[cur], p, q)
    && HeaderOk(m', cur, Block(n, false))
    && HeaderOk(m', SplitAt(cur, n), Block(m[cur] - n - OVERHEAD, true))
    && Adopted(m', p, q, SplitAt(cur, n))
  }

  // split_metadata has written the header and footer of the rest and the new footer of cur.
  lemma RestMarked(m0: Memory, m1: Memory, cur: int, n: nat)
    requires 0 < cur && cur + OVERHEAD <= |m0| && n + OVERHEAD < m0[cur] && cur + OVERHEAD + m0[cur] <= |m0|
    requires var d, rest := SplitAt(cur, n), m0[cur] - n - OVERHEAD;
             m1 == m0[d := rest][d + FREE := 1][d + BEFORE := m0[cur + BEFORE]][d + AFTER := m0[cur + AFTER]]
                     [cur + STRUCT_SIZE + n := n][d + STRUCT_SIZE + rest := rest]
    ensures HeaderOk(m1, SplitAt(cur, n), Block(m0[cur] - n - OVERHEAD, true))
    ensures Confined(m0, m1, cur, cur + OVERHEAD + m0[cur], NULL, NULL)
    ensures m1[cur + STRUCT_SIZE + n] == n
    ensures m1[SplitAt(cur, n) + BEFORE] == m0[cur + BEFORE] && m1[SplitAt(cur, n) + AFTER] == m0[cur + AFTER]
    ensures m1[cur + BEFORE] == m0[cur + BEFORE] && m1[cur + AFTER] == m0[cur + AFTER]
    ensures LinksReadable(m0, cur) ==> LinksReadable(m1, cur)
  {
  }

  lemma SplitFacts(m0: Memory, m1: Memory, m2: Memory, m3: Memory, cur: int, n: nat)
    requires 0 < cur && cur + OVERHEAD <= |m0| && n + OVERHEAD < m0[cur] && cur + OVERHEAD + m0[cur] <= |m0|
    requires LinksReadable(m0, cur) && NeighboursClear(m0, cur)
    requires |m1| == |m0| && Confined(m0, m1, cur, cur + OVERHEAD + m0[cur], NULL, NULL)
    requires HeaderOk(m1, SplitAt(cur, n), Block(m0[cur] - n - OVERHEAD, true))
    requires m1[cur + STRUCT_SIZE + n] == n
    requires m1[SplitAt(cur, n) + BEFORE] == m0[cur + BEFORE] && m1[SplitAt(cur, n) + AFTER] == m0[cur + AFTER]
    requires Spliced(m1, m2, m0[cur + BEFORE], m0[cur + AFTER], SplitAt(cur, n), SplitAt(cur, n), {})
    requires m3 == m2[cur := n][cur + FREE := 0]
    ensures SplitDone(m0, m3, cur, n)
  {
    var p, q, d := m0[cur + BEFORE], m0[cur + AFTER], SplitAt(cur, n);
    SplicedBeside(m1, m2, p, q, cur, cur + OVERHEAD + m0[cur], d);
    assert HeaderOk(m3, cur, Block(n, false));
    assert HeaderOk(m3, d, Block(m0[cur] - n - OVERHEAD, true));
    hide Spliced, LinkCell, LinksReadable, HeaderOk;
    SplitConfined(m0, m1, m2, m3, cur, n, p, q);
  }

  // A splice whose neighbours lie clear of [lo, hi) changes nothing there.
  lemma SplicedBeside(m: Memory, m': Memory, p: int, q: int, lo: int, hi: int, v: int)
    requires Spliced(m, m', p, q, v, v, {})
    requires p != NULL ==> Clear(p, lo, hi)
    requires q != NULL ==> Clear(q, lo, hi)
    ensures |m'| == |m| && Confined(m, m', lo, lo, p, q)
    ensures forall y | 0 <= y < |m| && lo <= y < hi :: m'[y] == m[y]
    ensures p != NULL ==> m'[p + AFTER] == v
    ensures q != NULL ==> m'[q + BEFORE] == v
  {
  }

  lemma SplitConfined(m0: Memory, m1: Memory, m2: Memory, m3: Memory, cur: int, n: nat, p: int, q: int)
    requires 0 < cur && cur + OVERHEAD <= |m0| == |m1| == |m2| && 0 <= m0[cur]
    requires cur + OVERHEAD + m0[cur] <= |m0|
    requires Confined(m0, m1, cur, cur + OVERHEAD + m0[cur], NULL, NULL) && Confined(m1, m2, cur, cur, p, q)
    requires m3 == m2[cur := n][cur + FREE := 0]
    ensures Confined(m0, m3, cur, cur + OVERHEAD + m0[cur], p, q)
  {
  }

  // What taking the k-th listed block does to the tiling and to the list.
  ghost predicate Taken(blk: Blocks, blk': Blocks, fl: seq<int>, fl': seq<int>, size: nat, k: nat)
    requires FirstFit(blk, fl, size, k) && k < |fl|
  {
    var x := fl[k];
    if blk[x].size - size > OVERHEAD then
      blk' == SplitBlock(blk, x, size) && fl' == fl[k := SplitAt(x, size)]
    else
      blk' == blk[x := Block(blk[x].size, false)] && fl' == RemoveAt(fl, k)
  }

  // What malloc does to the tiling and to the list.
  ghost predicate Malloced(m: Memory, m': Memory, blk: Blocks, blk': Blocks, fl: seq<int>, fl': seq<int>,
                           size: nat, k: nat, grant: bool, ptr: int)
    requires size > 0 ==> FirstFit(blk, fl, size, k)
  {
    if size > 0 && k < |fl| then
      && ptr == fl[k] + STRUCT_SIZE
      && |m'| == |m|
      && Taken(blk, blk', fl, fl', size, k)
    else if size > 0 && grant then
      && ptr == |m| + STRUCT_SIZE
      && |m'| == |m| + OVERHEAD + size
      && blk' == blk[|m| := Block(size, false)]
      && fl' == fl
    else
      ptr == NULL && m' == m && blk' == blk && fl' == fl
  }

  lemma AllKept(m: Memory, blk: Blocks)
    requires exists head, start, fl :: Inv(m, head, start, blk, fl)
    ensures LiveKept(m, m, blk, NULL)
  {
  }

  lemma MallocFresh(m0: Memory, m1: Memory, m': Memory, head: int, head': int, start: int, blk: Blocks, fl: seq<int>,
                    size: nat)
    requires Inv(m0, head, start, blk, fl) && DATA_SIZE_SIZE <= start
    requires Expanded(m0, m1, head, size)
    requires |m0| + STRUCT_SIZE <= |m1|
    requires Spliced(m1, m', m1[|m0| + BEFORE], m1[|m0| + AFTER], m1[|m0| + AFTER], m1[|m0| + BEFORE], {})
    requires head' == if m1[|m0| + BEFORE] == NULL then m1[|m0| + AFTER] else |m0|
    ensures Inv(m', head', start, blk[|m0| := Block(size, false)], fl)
    ensures LiveKept(m0, m', blk, NULL)
    ensures |m'| == |m0| + OVERHEAD + size && forall y | 0 <= y < |m0| :: m'[y] == m0[y]
  {
    assert 0 < |fl| ==> LinkOk(m0, fl, 0);
    hide Tiling, Headers, Listed;
    Grow(m0, m', head, start, blk, fl, size);
  }

  lemma MallocWhole(m0: Memory, m': Memory, head: int, head': int, start: int, blk: Blocks, fl: seq<int>, k: int)
    requires Inv(m0, head, start, blk, fl) && DATA_SIZE_SIZE <= start
    requires 0 <= k < |fl| && fl[k] in blk && 0 <= fl[k] + FREE < |m0|
    requires Spliced(m0[fl[k] + FREE := 0], m', Prev(fl, k), Next(fl, k), Next(fl, k), Prev(fl, k), {})
    requires head' == if Prev(fl, k) == NULL then Next(fl, k) else head
    ensures Inv(m', head', start, blk[fl[k] := Block(blk[fl[k]].size, false)], RemoveAt(fl, k))
    ensures LiveKept(m0, m', blk, NULL)
    ensures |m'| == |m0| && forall y | 0 <= y < start && y < |m0| :: m'[y] == m0[y]
  {
    var x := fl[k];
    ListedNode(m0, head, start, blk, fl, k);
    assert Within(x, blk[x], start, |m0|);
    BelowKept(m0, m', start, blk, |m0|, x, End(x, blk[x]), Prev(fl, k), Next(fl, k));
    TakeWhole(m0, m', head, start, blk, fl, k);
  }

  lemma MallocSplit(m0: Memory, m': Memory, head: int, head': int, start: int, blk: Blocks, fl: seq<int>, k: int,
                    size: nat)
    requires Inv(m0, head, start, blk, fl) && DATA_SIZE_SIZE <= start
    requires 0 <= k < |fl| && fl[k] in blk && HeaderOk(m0, fl[k], blk[fl[k]])
    requires size + OVERHEAD < blk[fl[k]].size
    requires SplitDone(m0[fl[k] + FREE := 0], m', fl[k], size)
    requires head' == if Prev(fl, k) == NULL then SplitAt(fl[k], size) else head
    ensures Inv(m', head', start, SplitBlock(blk, fl[k], size), fl[k := SplitAt(fl[k], size)])
    ensures LiveKept(m0, m', blk, NULL)
    ensures |m'| == |m0| && forall y | 0 <= y < start && y < |m0| :: m'[y] == m0[y]
  {
    var x := fl[k];
    ListedNode(m0, head, start, blk, fl, k);
    assert Within(x, blk[x], start, |m0|);
    BelowKept(m0, m', start, blk, |m0|, x, End(x, blk[x]), Prev(fl, k), Next(fl, k));
    TakeSplit(m0, m', head, start, blk, fl, k, size);
  }

  lemma NeighboursOutside(m: Memory, head: int, start: int, blk: Blocks, fl: seq<int>, k: int)
    requires Inv(m, head, start, blk, fl)
    requires 0 <= k < |fl| && fl[k] in blk && HeaderOk(m, fl[k], blk[fl[k]])
    ensures NeighboursClear(m[fl[k] + FREE := 0], fl[k])
  {
    ListedNode(m, head, start, blk, fl, k);
    ListAvoids(blk, start, |m|, fl, fl[k]);
    assert k > 0 ==> Apart(fl[k - 1], fl[k]);
    assert k + 1 < |fl| ==> Apart(fl[k], fl[k + 1]);
  }

  // ---------- what the merges read and write ----------

  ghost predicate LeftSide(m: Memory, cur: int)
    requires 0 < cur && cur + STRUCT_SIZE <= |m|
  {
    && 0 < m[cur + BEFORE] && m[cur + BEFORE] + OVERHEAD <= cur
    && 0 <= m[cur] && cur + OVERHEAD + m[cur] <= |m|
  }

  ghost predicate LeftMerged(m: Memory, m': Memory, cur: int)
    requires 0 < cur && cur + STRUCT_SIZE <= |m| && LeftSide(m, cur)
  {
    var a, foot := m[cur + BEFORE], cur + STRUCT_SIZE + m[cur];
    && Same(m, m', {a, cur + FREE, foot})
    && m'[a] == m[a] + m[cur] + OVERHEAD == m'[foot]
  }

  ghost predicate RightSide(m: Memory, cur: int)
    requires 0 < cur && cur + STRUCT_SIZE <= |m|
  {
    var b := m[cur + AFTER];
    && 0 <= m[cur] && b == cur + OVERHEAD + m[cur]
    && b + OVERHEAD <= |m| && 0 <= m[b] && b + OVERHEAD + m[b] <= |m|
    && LinksReadable(m, b)
    && (m[b + BEFORE] != NULL ==> Clear(m[b + BEFORE], cur, b + OVERHEAD + m[b]))
    && (m[b + AFTER] != NULL ==> Clear(m[b + AFTER], cur, b + OVERHEAD + m[b]))
  }

  ghost predicate RightMerged(m: Memory, m': Memory, cur: int)
    requires 0 < cur && cur + STRUCT_SIZE <= |m| && RightSide(m, cur)
  {
    var b := m[cur + AFTER];
    && |m'| == |m|
    && Confined(m, m', cur, b + OVERHEAD + m[b], m[b + BEFORE], m[b + AFTER])
    && m'[cur] == m[cur] + m[b] + OVERHEAD == m'[b + STRUCT_SIZE + m[b]]
    && Adopted(m', m[b + BEFORE], m[b + AFTER], cur)
  }

  lemma RightFacts(m0: Memory, m1: Memory, m2: Memory, m3: Memory, cur: int)
    requires 0 < cur && cur + STRUCT_SIZE <= |m0| && RightSide(m0, cur)
    requires |m1| == |m0|
    requires var b := m0[cur + AFTER];
             && Same(m0, m1, {cur, cur + BEFORE, cur + AFTER, b + STRUCT_SIZE + m0[b]})
             && m1[cur] == m0[cur] + m0[b] + OVERHEAD == m1[b + STRUCT_SIZE + m0[b]]
             && m1[cur + BEFORE] == m0[b + BEFORE] && m1[cur + AFTER] == m0[b + AFTER]
             && Spliced(m1, m2, m0[b + BEFORE], m0[b + AFTER], cur, cur, {})
             && m3 == m2[b + FREE := 0]
    ensures RightMerged(m0, m3, cur)
  {
  }

  ghost predicate BothSides(m: Memory, cur: int)
    requires 0 < cur && cur + STRUCT_SIZE <= |m|
  {
    var a, b := m[cur + BEFORE], m[cur + AFTER];
    && LeftSide(m, cur)
    && b == cur + OVERHEAD + m[cur]
    && b + OVERHEAD <= |m| && 0 <= m[b] && b + OVERHEAD + m[b] <= |m|
    && LinksReadable(m, b)
    && OffMarks(m[b + BEFORE], a, cur, b, b + OVERHEAD + m[b])
    && OffMarks(m[b + AFTER], a, cur, b, b + OVERHEAD + m[b])
  }

  // A list neighbour of b is the block a itself or lies clear of all three blocks.
  ghost predicate OffMarks(n: int, a: int, cur: int, b: int, hi: int) {
    n != NULL ==> n == a || n + OVERHEAD <= a || (a + OVERHEAD <= n && n + OVERHEAD <= cur) || hi <= n
  }

  ghost predicate BothMerged(m: Memory, m': Memory, cur: int)
    requires 0 < cur && cur + STRUCT_SIZE <= |m| && BothSides(m, cur)
  {
    var a, b := m[cur + BEFORE], m[cur + AFTER];
    var foot := b + STRUCT_SIZE + m[b];
    && |m'| == |m|
    && Spliced(m, m', m[b + BEFORE], m[b + AFTER], m[b + AFTER], m[b + BEFORE], {a, cur + FREE, b + FREE, foot})
    && m'[a] == m[a] + m[cur] + m[b] + 2 * OVERHEAD == m'[foot]
  }

  lemma BothFacts(m0: Memory, m1: Memory, m2: Memory, m3: Memory, cur: int)
    requires 0 < cur && cur + STRUCT_SIZE <= |m0| && BothSides(m0, cur)
    requires |m1| == |m0|
    requires var a, b := m0[cur + BEFORE], m0[cur + AFTER];
             && Same(m0, m1, {a, b + STRUCT_SIZE + m0[b]})
             && m1[a] == m0[a] + m0[cur] + m0[b] + 2 * OVERHEAD == m1[b + STRUCT_SIZE + m0[b]]
             && Spliced(m1, m2, m0[b + BEFORE], m0[b + AFTER], m0[b + AFTER], m0[b + BEFORE], {})
             && m3 == m2[cur + FREE := 0][b + FREE := 0]
    ensures BothMerged(m0, m3, cur)
  {
  }

  // ---------- free ----------

  ghost predicate LeftOf(blk: Blocks, a: int, x: int) {
    a in blk && End(a, blk[a]) == x
  }

  // `left` is the free block that ends where x starts, or NULL when there is none.
  ghost predicate FreeLeft(blk: Blocks, x: int, left: int) {
    if left == NULL then forall a | LeftOf(blk, a, x) :: !blk[a].free
    else LeftOf(blk, left, x) && blk[left].free
  }

  // `right` is the free block that starts where x ends and is not too close to the break,
  // or NULL when there is none.
  ghost predicate FreeRight(blk: Blocks, x: int, brk: int, right: int)
    requires x in blk
  {
    var b := End(x, blk[x]);
    if right == NULL then !(b + GUARD <= brk && b in blk && blk[b].free)
    else right == b && b + GUARD <= brk && b in blk && blk[b].free
  }

  // What free does to the tiling and to the list.
  ghost predicate Freed(blk: Blocks, blk': Blocks, fl: seq<int>, fl': seq<int>, x: int, left: int, right: int)
    requires x in blk
  {
    if left == NULL && right == NULL then
      blk' == blk[x := Block(blk[x].size, true)] && fl' == [x] + fl
    else if left == NULL then
      && right in blk && blk' == MergeBlocks(blk, x, right)
      && exists k | 0 <= k < |fl| && fl[k] == right :: fl' == fl[k := x]
    else if right == NULL then
      left in blk && blk' == MergeBlocks(blk, left, x) && fl' == fl
    else
      && left in blk && right in blk && left != right && x != right
      && blk' == MergeThree(blk, left, x, right)
      && exists k | 0 <= k < |fl| && fl[k] == right :: fl' == RemoveAt(fl, k)
  }

  // free has set x's `free` and stored its physical neighbours in its link fields.
  ghost predicate Freeing(m0: Memory, m1: Memory, head: int, start: int, blk: Blocks, fl: seq<int>, x: int) {
    && DATA_SIZE_SIZE <= start <= |m0| && 0 <= m0[start - DATA_SIZE_SIZE]
    && Inv(m0, head, start, blk, fl)
    && x in blk && !blk[x].free
    && DATA_SIZE_SIZE <= x && x + STRUCT_SIZE <= |m0|
    && Same(m0, m1, {x + BEFORE, x + AFTER, x + FREE})
    && m1[x + FREE] == 1
    && m1[x + BEFORE] == x - DATA_SIZE_SIZE - m0[x - DATA_SIZE_SIZE] - STRUCT_SIZE
    && m1[x + AFTER] == x + STRUCT_SIZE + m0[x] + DATA_SIZE_SIZE
  }

  lemma FreeingStarts(m0: Memory, m1: Memory, head: int, start: int, blk: Blocks, fl: seq<int>, x: int)
    requires DATA_SIZE_SIZE <= start <= |m0| && 0 <= m0[start - DATA_SIZE_SIZE]
    requires Inv(m0, head, start, blk, fl)
    requires x in blk && !blk[x].free && start <= x && x + OVERHEAD <= |m0|
    requires var m := m0[x + FREE := 1];
             m1 == m[x + BEFORE := x - DATA_SIZE_SIZE - m[x - DATA_SIZE_SIZE] - STRUCT_SIZE]
                    [x + AFTER := x + STRUCT_SIZE + m0[x] + DATA_SIZE_SIZE]
    ensures Freeing(m0, m1, head, start, blk, fl, x)
    ensures m1[x + BEFORE] == x - DATA_SIZE_SIZE - m0[x - DATA_SIZE_SIZE] - STRUCT_SIZE
    ensures |m1| == |m0|
  {
    hide Inv;
  }

  // The neighbours computed from the footers and sizes are the adjacent blocks, whenever
  // the guards of merge_get_addrs let them through.
  lemma PhysicalNeighbours(m0: Memory, m1: Memory, head: int, start: int, blk: Blocks, fl: seq<int>, x: int)
    requires Freeing(m0, m1, head, start, blk, fl, x)
    ensures m1[x + AFTER] == End(x, blk[x])
    ensures m1[x + AFTER] + GUARD <= |m0| ==>
              && m1[x + AFTER] in blk
              && 0 <= m1[x + AFTER] + FREE < |m1|
              && (m1[m1[x + AFTER] + FREE] != 0 <==> blk[m1[x + AFTER]].free)
    ensures start <= m1[x + BEFORE] ==>
              && LeftOf(blk, m1[x + BEFORE], x)
              && 0 < m1[x + BEFORE] + FREE < |m1|
              && (m1[m1[x + BEFORE] + FREE] != 0 <==> blk[m1[x + BEFORE]].free)
    ensures |m1| == |m0|
    ensures forall a | LeftOf(blk, a, x) :: start <= a && a == m1[x + BEFORE]
  {
    LeftPhysical(m0, m1, head, start, blk, fl, x);
    assert Tiling(blk, start, |m0|);
    hide Inv, LeftOf;
    ListedHeader(m0, head, start, blk, fl, x);
    var b := End(x, blk[x]);
    if b + GUARD <= |m0| {
      assert Continues(blk, |m0|, x);
      hide Tiling;
      FlagReadable(m0, m1, head, start, blk, fl, x, b);
    }
  }

  lemma LeftPhysical(m0: Memory, m1: Memory, head: int, start: int, blk: Blocks, fl: seq<int>, x: int)
    requires Freeing(m0, m1, head, start, blk, fl, x)
    ensures |m1| == |m0| && 0 < x && x + STRUCT_SIZE <= |m1|
    ensures start <= m1[x + BEFORE] ==>
              && LeftOf(blk, m1[x + BEFORE], x)
              && 0 < m1[x + BEFORE] + FREE < |m1|
              && (m1[m1[x + BEFORE] + FREE] != 0 <==> blk[m1[x + BEFORE]].free)
    ensures forall a | LeftOf(blk, a, x) :: start <= a && a == m1[x + BEFORE]
  {
    assert Tiling(blk, start, |m0|);
    hide Inv;
    ListedHeader(m0, head, start, blk, fl, x);
    forall a | LeftOf(blk, a, x)
      ensures start <= a && a == m1[x + BEFORE]
    {
      ListedHeader(m0, head, start, blk, fl, a);
    }
    if start < x {
      assert start in blk;
      var a := LeftNeighbour(blk, start, |m0|, x, start);
      hide Tiling;
      assert LeftOf(blk, a, x);
      FlagReadable(m0, m1, head, start, blk, fl, x, a);
    }
  }

  // Another block's `free` word is where it was while x is being freed.
  lemma FlagReadable(m0: Memory, m1: Memory, head: int, start: int, blk: Blocks, fl: seq<int>, x: int, c: int)
    requires Freeing(m0, m1, head, start, blk, fl, x) && c in blk && c != x
    ensures 0 < c + FREE < |m1| && (m1[c + FREE] != 0 <==> blk[c].free)
  {
    assert c < x ==> End(c, blk[c]) <= x;
    assert x < c ==> End(x, blk[x]) <= c;
    hide Inv;
    ListedHeader(m0, head, start, blk, fl, c);
    ListedHeader(m0, head, start, blk, fl, x);
  }

  lemma HeadReadable(m0: Memory, m1: Memory, head: int, start: int, blk: Blocks, fl: seq<int>, x: int)
    requires Freeing(m0, m1, head, start, blk, fl, x)
    ensures |m1| == |m0|
    ensures head != NULL ==>
              0 < head && head + STRUCT_SIZE <= |m0| && (head + STRUCT_SIZE <= x || End(x, blk[x]) <= head)
  {
    HeadClear(m0, head, start, blk, fl, x);
  }

  // x has been put in front of a list that starts at `head`.
  ghost predicate Pushed(m: Memory, m': Memory, head: int, x: int) {
    && |m'| == |m|
    && Confined(m, m', x, x + STRUCT_SIZE, NULL, head)
    && Adopted(m', NULL, head, x)
    && (0 <= x && x + STRUCT_SIZE <= |m| ==> m'[x] == m[x] && m'[x + FREE] == m[x + FREE])
  }

  lemma AloneDone(m0: Memory, m1: Memory, m2: Memory, head: int, start: int, blk: Blocks, fl: seq<int>, x: int)
    requires Freeing(m0, m1, head, start, blk, fl, x)
    requires head != NULL ==>
               0 < head && head + STRUCT_SIZE <= |m0| && (head + STRUCT_SIZE <= x || End(x, blk[x]) <= head)
    requires Pushed(m1, m2, head, x)
    ensures |m2| == |m0|
    ensures Inv(m2[x + FREE := 1], x, start, blk[x := Block(blk[x].size, true)], [x] + fl)
    ensures LiveKept(m0, m2[x + FREE := 1], blk, x)
    ensures forall y | 0 <= y < start :: m2[y] == m0[y]
  {
    hide Tiling, Headers, Links, LiveKept;
    var m3 := m2[x + FREE := 1];
    ListedHeader(m0, head, start, blk, fl, x);
    HeadListed(m0, head, blk, fl);
    assert Confined(m0, m3, x, End(x, blk[x]), NULL, head);
    FreeAlone(m0, m3, head, start, blk, fl, x);
    BelowKept(m0, m3, start, blk, |m0|, x, End(x, blk[x]), NULL, head);
  }

  lemma ListedHeader(m: Memory, head: int, start: int, blk: Blocks, fl: seq<int>, x: int)
    requires Inv(m, head, start, blk, fl)
    requires x in blk
    ensures HeaderOk(m, x, blk[x]) && Within(x, blk[x], start, |m|)
  {
  }

  lemma LeftReady(m0: Memory, m1: Memory, head: int, start: int, blk: Blocks, fl: seq<int>, x: int)
    requires Freeing(m0, m1, head, start, blk, fl, x)
    requires LeftOf(blk, m1[x + BEFORE], x)
    ensures LeftSide(m1, x)
  {
    ListedHeader(m0, head, start, blk, fl, x);
    ListedHeader(m0, head, start, blk, fl, m1[x + BEFORE]);
  }

  lemma LeftDone(m0: Memory, m1: Memory, m2: Memory, head: int, start: int, blk: Blocks, fl: seq<int>, x: int)
    requires Freeing(m0, m1, head, start, blk, fl, x)
    requires LeftOf(blk, m1[x + BEFORE], x) && blk[m1[x + BEFORE]].free
    requires LeftSide(m1, x) && LeftMerged(m1, m2, x)
    ensures |m2| == |m0| && Inv(m2[x + FREE := 1], head, start, MergeBlocks(blk, m1[x + BEFORE], x), fl)
    ensures LiveKept(m0, m2[x + FREE := 1], blk, x)
    ensures forall y | 0 <= y < start :: m2[y] == m0[y]
  {
    hide Inv, LiveKept;
    var a, m3 := m1[x + BEFORE], m2[x + FREE := 1];
    ListedHeader(m0, head, start, blk, fl, x);
    ListedHeader(m0, head, start, blk, fl, a);
    assert HeaderOk(m3, a, MergeBlocks(blk, a, x)[a]);
    assert Same(m0, m3, {a, x + BEFORE, x + AFTER, x + FREE, x + STRUCT_SIZE + blk[x].size});
    FreeIntoLeft(m0, m3, head, start, blk, fl, a, x);
  }

  lemma RightReady(m0: Memory, m1: Memory, head: int, start: int, blk: Blocks, fl: seq<int>, x: int) returns (k: nat)
    requires Freeing(m0, m1, head, start, blk, fl, x)
    requires m1[x + AFTER] == End(x, blk[x]) && m1[x + AFTER] in blk && blk[m1[x + AFTER]].free
    ensures k < |fl| && fl[k] == m1[x + AFTER]
    ensures RightSide(m1, x)
    ensures m1[fl[k] + BEFORE] == Prev(fl, k) && m1[fl[k] + AFTER] == Next(fl, k)
  {
    hide Inv;
    var b := m1[x + AFTER];
    k := ListIndex(m0, head, start, blk, fl, b);
    ListedHeader(m0, head, start, blk, fl, x);
    NodeLinks(m0, head, start, blk, fl, k);
    NeighboursClearOf(m0, head, start, blk, fl, k, x);
    NeighboursClearOf(m0, head, start, blk, fl, k, b);
  }

  lemma ListIndex(m: Memory, head: int, start: int, blk: Blocks, fl: seq<int>, b: int) returns (k: nat)
    requires Inv(m, head, start, blk, fl)
    requires b in blk && blk[b].free
    ensures k < |fl| && fl[k] == b
  {
    assert b in fl;
    k :| 0 <= k < |fl| && fl[k] == b;
  }

  lemma NodeLinks(m: Memory, head: int, start: int, blk: Blocks, fl: seq<int>, k: int)
    requires Inv(m, head, start, blk, fl)
    requires 0 <= k < |fl|
    ensures fl[k] in blk && HeaderOk(m, fl[k], blk[fl[k]])
    ensures 0 < fl[k] && fl[k] + STRUCT_SIZE <= |m| && LinksReadable(m, fl[k])
    ensures m[fl[k] + BEFORE] == Prev(fl, k) && m[fl[k] + AFTER] == Next(fl, k)
  {
    ListedNode(m, head, start, blk, fl, k);
  }

  // The list neighbours of node k, where they differ from the block at x, lie clear of it.
  lemma NeighboursClearOf(m: Memory, head: int, start: int, blk: Blocks, fl: seq<int>, k: int, x: int)
    requires Inv(m, head, start, blk, fl)
    requires 0 <= k < |fl| && x in blk
    ensures Prev(fl, k) != NULL && Prev(fl, k) != x ==> Prev(fl, k) + OVERHEAD <= x || End(x, blk[x]) <= Prev(fl, k)
    ensures Next(fl, k) != NULL && Next(fl, k) != x ==> Next(fl, k) + OVERHEAD <= x || End(x, blk[x]) <= Next(fl, k)
    ensures !blk[x].free ==> Prev(fl, k) != x && Next(fl, k) != x
    ensures Prev(fl, k) != fl[k] && Next(fl, k) != fl[k]
  {
    ListAvoids(blk, start, |m|, fl, x);
    ListedHeader(m, head, start, blk, fl, x);
    assert LinkOk(m, fl, k);
    assert k > 0 ==> Apart(fl[k - 1], fl[k]);
    assert k + 1 < |fl| ==> Apart(fl[k], fl[k + 1]);
  }

  lemma RightDone(m0: Memory, m1: Memory, m2: Memory, head: int, start: int, blk: Blocks, fl: seq<int>, x: int, k: nat)
    requires Freeing(m0, m1, head, start, blk, fl, x)
    requires k < |fl| && fl[k] == m1[x + AFTER] == End(x, blk[x]) && fl[k] in blk
    requires RightSide(m1, x) && RightMerged(m1, m2, x)
    requires m1[fl[k] + BEFORE] == Prev(fl, k) && m1[fl[k] + AFTER] == Next(fl, k)
    ensures |m2| == |m0|
    ensures Inv(m2[x + FREE := 1], if Prev(fl, k) == NULL then x else head, start,
                MergeBlocks(blk, x, fl[k]), fl[k := x])
    ensures LiveKept(m0, m2[x + FREE := 1], blk, x)
    ensures forall y | 0 <= y < start :: m2[y] == m0[y]
  {
    hide Inv, LiveKept;
    var b, m3 := fl[k], m2[x + FREE := 1];
    ListedHeader(m0, head, start, blk, fl, x);
    NodeLinks(m0, head, start, blk, fl, k);
    NeighboursClearOf(m0, head, start, blk, fl, k, x);
    RightMarks(m0, m1, m2, blk, x, b, Prev(fl, k), Next(fl, k));
    FreeIntoRight(m0, m3, head, start, blk, fl, x, k);
    BelowKeptInv(m0, m3, head, start, blk, fl, x, End(b, blk[b]), k);
  }

  lemma RightMarks(m0: Memory, m1: Memory, m2: Memory, blk: Blocks, x: int, b: int, p: int, q: int)
    requires x in blk && b in blk && HeaderOk(m0, x, blk[x]) && HeaderOk(m0, b, blk[b])
    requires b == End(x, blk[x])
    requires Same(m0, m1, {x + BEFORE, x + AFTER, x + FREE})
    requires m1[x + AFTER] == b
    requires RightSide(m1, x) && RightMerged(m1, m2, x)
    requires m1[b + BEFORE] == p && m1[b + AFTER] == q
    requires p != NULL ==> p + OVERHEAD <= x || b <= p
    requires q != NULL ==> q + OVERHEAD <= x || b <= q
    ensures |m2| == |m0| && Confined(m0, m2[x + FREE := 1], x, End(b, blk[b]), p, q)
    ensures HeaderOk(m2[x + FREE := 1], x, MergeBlocks(blk, x, b)[x])
    ensures Adopted(m2[x + FREE := 1], p, q, x)
  {
    assert m1[x] == blk[x].size && m1[b] == blk[b].size;
    RightUnfolded(m1, m2, x, b, p, q);
    hide RightSide, RightMerged, LinksReadable;
    assert HeaderOk(m2[x + FREE := 1], x, MergeBlocks(blk, x, b)[x]);
    hide HeaderOk;
    assert Confined(m0, m2[x + FREE := 1], x, End(b, blk[b]), p, q);
    hide Confined, Same;
  }

  lemma RightUnfolded(m1: Memory, m2: Memory, x: int, b: int, p: int, q: int)
    requires 0 < x && x + STRUCT_SIZE <= |m1|
    requires RightSide(m1, x) && RightMerged(m1, m2, x)
    requires m1[x + AFTER] == b && m1[b + BEFORE] == p && m1[b + AFTER] == q
    ensures |m2| == |m1| && 0 <= m1[b] && b + OVERHEAD + m1[b] <= |m1|
    ensures Confined(m1, m2, x, b + OVERHEAD + m1[b], p, q) && Adopted(m2, p, q, x)
    ensures m2[x] == m1[x] + m1[b] + OVERHEAD == m2[b + STRUCT_SIZE + m1[b]]
  {
  }

  lemma BelowKeptInv(m: Memory, m': Memory, head: int, start: int, blk: Blocks, fl: seq<int>, lo: int, hi: int, k: int)
    requires Inv(m, head, start, blk, fl)
    requires 0 <= k < |fl| && start <= lo
    requires |m| == |m'| && Confined(m, m', lo, hi, Prev(fl, k), Next(fl, k))
    ensures forall y | 0 <= y < start && y < |m| :: m'[y] == m[y]
  {
    NeighboursListed(m, head, start, blk, fl, k);
    BelowKept(m, m', start, blk, |m|, lo, hi, Prev(fl, k), Next(fl, k));
  }

  lemma BothReady(m0: Memory, m1: Memory, head: int, start: int, blk: Blocks, fl: seq<int>, x: int) returns (k: nat)
    requires Freeing(m0, m1, head, start, blk, fl, x)
    requires LeftOf(blk, m1[x + BEFORE], x)
    requires m1[x + AFTER] == End(x, blk[x]) && m1[x + AFTER] in blk && blk[m1[x + AFTER]].free
    ensures k < |fl| && fl[k] == m1[x + AFTER]
    ensures BothSides(m1, x)
    ensures m1[fl[k] + BEFORE] == Prev(fl, k) && m1[fl[k] + AFTER] == Next(fl, k)
  {
    hide Inv;
    k := RightReady(m0, m1, head, start, blk, fl, x);
    LeftReady(m0, m1, head, start, blk, fl, x);
    NeighboursClearOf(m0, head, start, blk, fl, k, m1[x + BEFORE]);
    NeighboursClearOf(m0, head, start, blk, fl, k, x);
    NeighboursClearOf(m0, head, start, blk, fl, k, fl[k]);
    NodeLinks(m0, head, start, blk, fl, k);
    ListedHeader(m0, head, start, blk, fl, x);
  }

  lemma BothDone(m0: Memory, m1: Memory, m2: Memory, head: int, start: int, blk: Blocks, fl: seq<int>, x: int, k: nat)
    requires Freeing(m0, m1, head, start, blk, fl, x)
    requires LeftOf(blk, m1[x + BEFORE], x) && blk[m1[x + BEFORE]].free
    requires k < |fl| && fl[k] == m1[x + AFTER] == End(x, blk[x]) && fl[k] in blk
    requires BothSides(m1, x) && BothMerged(m1, m2, x)
    requires m1[fl[k] + BEFORE] == Prev(fl, k) && m1[fl[k] + AFTER] == Next(fl, k)
    ensures |m2| == |m0|
    ensures Inv(m2[x + FREE := 1], if Prev(fl, k) == NULL then Next(fl, k) else head, start,
                MergeThree(blk, m1[x + BEFORE], x, fl[k]), RemoveAt(fl, k))
    ensures LiveKept(m0, m2[x + FREE := 1], blk, x)
    ensures forall y | 0 <= y < start :: m2[y] == m0[y]
  {
    hide Inv, LiveKept, Spliced, BothSides, BothMerged, Confined, HeaderOk, MergeThree;
    var a, b := m1[x + BEFORE], fl[k];
    ListedHeader(m0, head, start, blk, fl, x);
    ListedHeader(m0, head, start, blk, fl, a);
    NodeLinks(m0, head, start, blk, fl, k);
    NeighboursClearOf(m0, head, start, blk, fl, k, a);
    NeighboursClearOf(m0, head, start, blk, fl, k, x);
    var extra := {a, x + BEFORE, x + AFTER, x + FREE, b + FREE, b + STRUCT_SIZE + blk[b].size};
    BothMarks(m0, m1, m2, blk, a, x, b, Prev(fl, k), Next(fl, k), extra);
    var m3 := m2[x + FREE := 1];
    BothConfined(m0, m3, start, blk, a, x, b, Prev(fl, k), Next(fl, k), extra);
    FreeIntoBoth(m0, m3, head, start, blk, fl, a, x, k, extra);
    BelowKeptInv(m0, m3, head, start, blk, fl, a, End(b, blk[b]), k);
  }

  lemma BothMarks(m0: Memory, m1: Memory, m2: Memory, blk: Blocks, a: int, x: int, b: int, p: int, q: int,
                  extra: set<int>)
    requires a in blk && x in blk && b in blk
    requires HeaderOk(m0, a, blk[a]) && HeaderOk(m0, x, blk[x]) && HeaderOk(m0, b, blk[b])
    requires blk[a].free && x == End(a, blk[a]) && b == End(x, blk[x])
    requires Same(m0, m1, {x + BEFORE, x + AFTER, x + FREE})
    requires m1[x + BEFORE] == a && m1[x + AFTER] == b
    requires BothSides(m1, x) && BothMerged(m1, m2, x)
    requires m1[b + BEFORE] == p && m1[b + AFTER] == q
    requires p != NULL && p != a ==> p + OVERHEAD <= a || x <= p
    requires q != NULL && q != a ==> q + OVERHEAD <= a || x <= q
    requires p != NULL ==> p + OVERHEAD <= x || b <= p
    requires q != NULL ==> q + OVERHEAD <= x || b <= q
    requires extra == {a, x + BEFORE, x + AFTER, x + FREE, b + FREE, b + STRUCT_SIZE + blk[b].size}
    ensures |m2| == |m0| && Spliced(m0, m2[x + FREE := 1], p, q, q, p, extra)
    ensures HeaderOk(m2[x + FREE := 1], a, MergeThree(blk, a, x, b)[a])
  {
    hide Spliced, BothSides, BothMerged;
    BothUnfolded(m0, m1, m2, blk, a, x, b, p, q);
    BothSpliced(m0, m1, m2, x, a, b, p, q, b + STRUCT_SIZE + blk[b].size, extra);
    SplicedKeeps(m0, m2[x + FREE := 1], p, q, q, p, extra, a + FREE);
  }

  lemma BothUnfolded(m0: Memory, m1: Memory, m2: Memory, blk: Blocks, a: int, x: int, b: int, p: int, q: int)
    requires a in blk && x in blk && b in blk
    requires HeaderOk(m0, a, blk[a]) && HeaderOk(m0, x, blk[x]) && HeaderOk(m0, b, blk[b])
    requires x == End(a, blk[a]) && b == End(x, blk[x])
    requires Same(m0, m1, {x + BEFORE, x + AFTER, x + FREE})
    requires m1[x + BEFORE] == a && m1[x + AFTER] == b
    requires BothSides(m1, x) && BothMerged(m1, m2, x)
    requires m1[b + BEFORE] == p && m1[b + AFTER] == q
    ensures |m2| == |m0|
    ensures Spliced(m1, m2, p, q, q, p, {a, x + FREE, b + FREE, b + STRUCT_SIZE + blk[b].size})
    ensures m2[a] == blk[a].size + blk[x].size + blk[b].size + 2 * OVERHEAD == m2[b + STRUCT_SIZE + blk[b].size]
  {
    hide Spliced, OffMarks, LinksReadable;
    assert m1[a] == blk[a].size && m1[x] == blk[x].size && m1[b] == blk[b].size;
  }

  lemma SplicedKeeps(m: Memory, m': Memory, b: int, a: int, va: int, vb: int, extra: set<int>, y: int)
    requires Spliced(m, m', b, a, va, vb, extra)
    requires 0 <= y < |m| && !LinkCell(y, b, a) && y !in extra
    ensures m'[y] == m[y]
  {
  }

  lemma BothSpliced(m0: Memory, m1: Memory, m2: Memory, x: int, a: int, b: int, p: int, q: int, foot: int,
                    extra: set<int>)
    requires 0 < x && x + STRUCT_SIZE <= |m0| == |m2|
    requires Same(m0, m1, {x + BEFORE, x + AFTER, x + FREE})
    requires Spliced(m1, m2, p, q, q, p, {a, x + FREE, b + FREE, foot})
    requires p != NULL ==> p + OVERHEAD <= x || x + STRUCT_SIZE <= p
    requires q != NULL ==> q + OVERHEAD <= x || x + STRUCT_SIZE <= q
    requires extra == {a, x + BEFORE, x + AFTER, x + FREE, b + FREE, foot}
    ensures Spliced(m0, m2[x + FREE := 1], p, q, q, p, extra)
  {
  }

  // A write inside the payload of a live block.
  lemma PayloadWritten(m: Memory, m': Memory, head: int, start: int, blk: Blocks, fl: seq<int>, x: int)
    requires Inv(m, head, start, blk, fl)
    requires x in blk && !blk[x].free
    requires |m'| == |m|
    requires forall y | 0 <= y < |m| && !(x + STRUCT_SIZE <= y < x + STRUCT_SIZE + blk[x].size) :: m'[y] == m[y]
    ensures Inv(m', head, start, blk, fl)
    ensures LiveKept(m, m', blk, x)
    ensures forall y | 0 <= y < start && y < |m| :: m'[y] == m[y]
  {
    hide Links, LiveKept;
    assert Within(x, blk[x], start, |m|) && HeaderOk(m, x, blk[x]);
    OutsideUntouched(m, m', blk, start, x, End(x, blk[x]), NULL, NULL);
    OthersOutside(blk, start, |m|, x);
    assert Headers(m', blk);
    ListAvoids(blk, start, |m|, fl, x);
    forall i | 0 <= i < |fl|
      ensures SameLinks(m, m', fl[i])
    {
      assert Within(fl[i], blk[fl[i]], start, |m|) && fl[i] != x;
    }
    LinksFrame(m, m', head, fl);
    LiveOthers(m, m', blk, x, End(x, blk[x]));
  }

  lemma LiveOthers(m: Memory, m': Memory, blk: Blocks, x: int, hi: int)
    requires forall c | c in blk && c != x :: Outside(c, blk[c], x, hi)
    requires forall c | c in blk && Outside(c, blk[c], x, hi) :: SamePayload(m, m', c, blk[c].size)
    ensures LiveKept(m, m', blk, x)
  {
  }

  // The split of a large live block by a shrinking realloc.
  lemma ShrinkDone(m: Memory, m': Memory, head: int, start: int, blk: Blocks, fl: seq<int>, x: int, n: nat)
    requires Inv(m, head, start, blk, fl)
    requires x in blk && !blk[x].free && n + OVERHEAD < blk[x].size
    requires |m'| == |m| && Confined(m, m', x, End(x, blk[x]), NULL, head)
    requires HeaderOk(m', x, Block(n, false))
    requires HeaderOk(m', SplitAt(x, n), Block(blk[x].size - n - OVERHEAD, true))
    requires Adopted(m', NULL, head, SplitAt(x, n))
    ensures Inv(m', SplitAt(x, n), start, SplitBlock(blk, x, n), [SplitAt(x, n)] + fl)
    ensures LiveKept(m, m', blk, x)
    ensures forall y | 0 <= y < start && y < |m| :: m'[y] == m[y]
  {
    hide Tiling, Headers, Links, Confined, HeaderOk, Adopted, LiveKept;
    HeadListed(m, head, blk, fl);
    ListedHeader(m, head, start, blk, fl, x);
    SplitHeaders(m, m', start, blk, x, n, NULL, head);
    TilingSplit(blk, start, |m|, x, n);
    ListAvoids(blk, start, |m|, fl, x);
    LinksPush(m, m', head, fl, SplitAt(x, n), x, End(x, blk[x]));
    ListedPush(blk, fl, SplitAt(x, n), SplitBlock(blk, x, n));
    BelowKept(m, m', start, blk, |m|, x, End(x, blk[x]), NULL, head);
  }

  // ---------- the callers' view ----------

  lemma LedgerKept(m: Memory, m': Memory, blk: Blocks, blk': Blocks, x: int)
    requires Headers(m, blk) && Headers(m', blk')
    requires LiveKept(m, m', blk, x)
    requires Live(blk') - {x} == Live(blk) - {x}
    ensures Ledger(m', blk') - {x} == Ledger(m, blk) - {x}
  {
    var l, l' := Ledger(m, blk) - {x}, Ledger(m', blk') - {x};
    forall a
      ensures a in l <==> a in l'
      ensures a in l ==> l'[a] == l[a]
    {
      assert a in l <==> a in Live(blk) - {x};
      assert a in l' <==> a in Live(blk') - {x};
      if a in l {
        SamePayloadSlice(m, m', blk, blk', x, a);
      }
    }
  }

  lemma SamePayloadSlice(m: Memory, m': Memory, blk: Blocks, blk': Blocks, x: int, a: int)
    requires Headers(m, blk) && Headers(m', blk')
    requires LiveKept(m, m', blk, x)
    requires Live(blk') - {x} == Live(blk) - {x}
    requires a in Ledger(m, blk) - {x}
    ensures a in Ledger(m', blk') && Ledger(m', blk')[a] == Ledger(m, blk)[a]
  {
    assert a in Live(blk) - {x};
    assert (Live(blk') - {x})[a] == (Live(blk) - {x})[a];
    assert SamePayload(m, m', a, blk[a].size);
  }

  // malloc adds one live block with room for the request, and touches no other.
  lemma MallocedLive(m: Memory, m': Memory, blk: Blocks, blk': Blocks, fl: seq<int>, fl': seq<int>,
                     size: nat, k: nat, grant: bool, ptr: int, head: int, start: int)
    requires Inv(m, head, start, blk, fl)
    requires size > 0 ==> FirstFit(blk, fl, size, k)
    requires Malloced(m, m', blk, blk', fl, fl', size, k, grant, ptr)
    ensures ptr == NULL ==> Live(blk') == Live(blk)
    ensures ptr != NULL ==> var x := ptr - STRUCT_SIZE;
              x !in Live(blk) && x in Live(blk') && Live(blk')[x] >= size && Live(blk') - {x} == Live(blk)
  {
    if size > 0 && k < |fl| {
      hide Tiling, Headers, Links, Live;
      assert HeaderOk(m, fl[k], blk[fl[k]]) by { ListedHeader(m, head, start, blk, fl, fl[k]); }
      TakenLive(blk, blk', fl, fl', size, k, start, |m|);
    } else if size > 0 && grant {
      hide Headers, Links, Listed, Live, Taken;
      TilingGrow(blk, start, |m|, size);
      hide Tiling;
      AddedLive(blk, |m|, size);
    }
  }

  lemma TakenLive(blk: Blocks, blk': Blocks, fl: seq<int>, fl': seq<int>, size: nat, k: nat, start: int, brk: int)
    requires Tiling(blk, start, brk)
    requires FirstFit(blk, fl, size, k) && k < |fl| && blk[fl[k]].free
    requires Taken(blk, blk', fl, fl', size, k)
    ensures var x := fl[k];
            x !in Live(blk) && x in Live(blk') && Live(blk')[x] >= size && Live(blk') - {x} == Live(blk)
  {
    hide Live, Tiling;
    var x := fl[k];
    if blk[x].size - size > OVERHEAD {
      TilingSplit(blk, start, brk, x, size);
      AddedLive(blk, x, size);
      FreeNotLive(blk[x := Block(size, false)], SplitAt(x, size), blk[x].size - size - OVERHEAD);
    } else {
      AddedLive(blk, x, blk[x].size);
    }
  }

  lemma AddedLive(blk: Blocks, x: int, n: nat)
    requires x !in blk || blk[x].free
    ensures var l := Live(blk[x := Block(n, false)]);
            x !in Live(blk) && x in l && l[x] == n && l - {x} == Live(blk)
  {
  }

  lemma FreeNotLive(blk: Blocks, x: int, n: nat)
    requires x !in blk || blk[x].free
    ensures Live(blk[x := Block(n, true)]) == Live(blk)
  {
  }

  // free takes one live block away, and touches no other.
  lemma FreedLive(blk: Blocks, blk': Blocks, fl: seq<int>, fl': seq<int>, x: int, left: int, right: int, brk: int)
    requires x in blk && !blk[x].free
    requires FreeLeft(blk, x, left) && FreeRight(blk, x, brk, right)
    requires Freed(blk, blk', fl, fl', x, left, right)
    ensures Live(blk') == Live(blk) - {x}
  {
  }

  lemma MallocLedger(m: Memory, m': Memory, head: int, head': int, start: int, blk: Blocks, blk': Blocks,
                     fl: seq<int>, fl': seq<int>, size: nat, k: nat, grant: bool, ptr: int)
    requires Inv(m, head, start, blk, fl) && Inv(m', head', start, blk', fl')
    requires size > 0 ==> FirstFit(blk, fl, size, k)
    requires Malloced(m, m', blk, blk', fl, fl', size, k, grant, ptr)
    requires LiveKept(m, m', blk, NULL)
    ensures ptr == NULL ==> Ledger(m', blk') == Ledger(m, blk)
    ensures ptr != NULL ==> Grown(Ledger(m, blk), Ledger(m', blk'), ptr - STRUCT_SIZE, size)
  {
    hide Tiling, Links, Listed, Malloced, LiveKept;
    MallocedLive(m, m', blk, blk', fl, fl', size, k, grant, ptr, head, start);
    if ptr == NULL {
      LedgerKept(m, m', blk, blk', NULL);
      NullNoBlock(m, blk);
      NullNoBlock(m', blk');
      assert Ledger(m', blk') - {NULL} == Ledger(m', blk') && Ledger(m, blk) - {NULL} == Ledger(m, blk);
    } else {
      LedgerGrows(m, m', blk, blk', ptr - STRUCT_SIZE, size);
    }
  }

  // The owner view l' is l with one more payload, of at least `size` bytes.
  ghost predicate Grown(l: map<int, seq<int>>, l': map<int, seq<int>>, x: int, size: nat) {
    x !in l && x in l' && |l'[x]| >= size && l' - {x} == l
  }

  lemma NullNoBlock(m: Memory, blk: Blocks)
    requires Headers(m, blk)
    ensures NULL !in blk
  {
  }

  lemma LedgerGrows(m: Memory, m': Memory, blk: Blocks, blk': Blocks, x: int, size: nat)
    requires Headers(m, blk) && Headers(m', blk')
    requires LiveKept(m, m', blk, NULL)
    requires x !in Live(blk) && x in Live(blk') && Live(blk')[x] >= size && Live(blk') - {x} == Live(blk)
    ensures Grown(Ledger(m, blk), Ledger(m', blk'), x, size)
  {
    NullNoBlock(m, blk);
    assert Live(blk) - {x} == Live(blk);
    LedgerKept(m, m', blk, blk', x);
    assert x in blk' && HeaderOk(m', x, blk'[x]);
    assert Ledger(m, blk) - {x} == Ledger(m, blk);
  }

  lemma FreeLedger(m: Memory, m': Memory, head': int, start: int, blk: Blocks, blk': Blocks, fl: seq<int>,
                   fl': seq<int>, x: int, left: int, right: int)
    requires exists head :: Inv(m, head, start, blk, fl)
    requires Inv(m', head', start, blk', fl')
    requires x in blk && !blk[x].free
    requires FreeLeft(blk, x, left) && FreeRight(blk, x, |m|, right) && Freed(blk, blk', fl, fl', x, left, right)
    requires LiveKept(m, m', blk, x)
    ensures Ledger(m', blk') == Ledger(m, blk) - {x}
  {
    hide Tiling, Links, Listed, Freed, FreeLeft, FreeRight, LiveKept;
    FreedLive(blk, blk', fl, fl', x, left, right, |m|);
    assert Live(blk') - {x} == Live(blk') == Live(blk) - {x};
    LedgerKept(m, m', blk, blk', x);
    assert Ledger(m', blk') - {x} == Ledger(m', blk');
  }

  lemma LedgerLive(m: Memory, head: int, start: int, blk: Blocks, fl: seq<int>, x: int)
    requires Inv(m, head, start, blk, fl) && x in Ledger(m, blk)
    ensures x in blk && !blk[x].free
  {
  }

  lemma PayloadLive(m: Memory, head: int, start: int, blk: Blocks, fl: seq<int>, x: int)
    requires Inv(m, head, start, blk, fl)
    requires x in Ledger(m, blk)
    ensures x in blk && !blk[x].free && start <= x && x + OVERHEAD <= |m| && m[x] == blk[x].size
  {
    assert HeaderOk(m, x, blk[x]) && Within(x, blk[x], start, |m|);
  }

  lemma PayloadRange(m: Memory, blk: Blocks, x: int)
    requires Headers(m, blk)
    requires x in Ledger(m, blk)
    ensures x in blk && 0 < x && x + STRUCT_SIZE + |Ledger(m, blk)[x]| < |m| && |Ledger(m, blk)[x]| == blk[x].size
  {
    assert HeaderOk(m, x, blk[x]);
  }

  // In the owner view l' the payload of x starts with `data`, and only that changed.
  ghost predicate Filled(l: map<int, seq<int>>, l': map<int, seq<int>>, x: int, data: seq<int>) {
    && x in l && x in l' && |l[x]| == |l'[x]| && |data| <= |l[x]|
    && l' == l[x := data + l[x][|data|..]]
  }

  lemma GrownHolds(l: map<int, seq<int>>, l': map<int, seq<int>>, x: int, size: nat)
    requires Grown(l, l', x, size)
    ensures x in l' && size <= |l'[x]|
  {
  }

  lemma GrownThenFilled(l: map<int, seq<int>>, l1: map<int, seq<int>>, l2: map<int, seq<int>>, x: int, data: seq<int>)
    requires Grown(l, l1, x, |data|) && Filled(l1, l2, x, data)
    ensures Grown(l, l2, x, |data|) && l2[x][..|data|] == data
  {
    assert l2 - {x} == l1 - {x};
  }

  function Repeat(value: int, n: nat): (r: seq<int>)
    ensures |r| == n
  {
    seq(n, _ => value)
  }

  // Memory with `data` stored from address `at` on.
  function Overwrite(m: Memory, at: int, data: seq<int>): (m': Memory)
    requires 0 <= at && at + |data| <= |m|
    ensures |m'| == |m|
    ensures forall y | 0 <= y < |m| && !(at <= y < at + |data|) :: m'[y] == m[y]
  {
    m[..at] + data + m[at + |data|..]
  }

  lemma OverwriteNothing(m: Memory, at: int)
    requires 0 <= at <= |m|
    ensures Overwrite(m, at, []) == m
  {
  }

  lemma OverwriteMore(m: Memory, at: int, data: seq<int>, v: int)
    requires 0 <= at && at + |data| < |m|
    ensures Overwrite(m, at, data)[at + |data| := v] == Overwrite(m, at, data + [v])
  {
  }

  lemma FillDone(m: Memory, head: int, start: int, blk: Blocks, fl: seq<int>, x: int, data: seq<int>)
    requires Inv(m, head, start, blk, fl)
    requires x in Ledger(m, blk) && |data| <= |Ledger(m, blk)[x]|
    requires 0 < x && x + STRUCT_SIZE + |data| <= |m|
    ensures var m' := Overwrite(m, x + STRUCT_SIZE, data);
            && Inv(m', head, start, blk, fl)
            && Filled(Ledger(m, blk), Ledger(m', blk), x, data)
            && forall y | 0 <= y < start && y < |m| :: m'[y] == m[y]
  {
    hide Tiling, Links, Listed, LiveKept;
    var m' := Overwrite(m, x + STRUCT_SIZE, data);
    PayloadRange(m, blk, x);
    PayloadWritten(m, m', head, start, blk, fl, x);
    LedgerKept(m, m', blk, blk, x);
    var l, l' := Ledger(m, blk), Ledger(m', blk);
    assert l'[x] == data + l[x][|data|..];
    assert l' == (l' - {x})[x := l'[x]];
    assert l[x := l'[x]] == (l - {x})[x := l'[x]];
  }

  // The payload of x is now that of y; it has room for `size` bytes, and its first
  // min(old, size) bytes are the old ones. Nothing else changed hands.
  ghost predicate Moved(l: map<int, seq<int>>, l': map<int, seq<int>>, x: int, y: int, size: nat) {
    && x in l && y in l' && (y == x || y !in l)
    && l' - {y} == l - {x}
    && |l'[y]| >= size
    && forall i | 0 <= i < size && i < |l[x]| :: l'[y][i] == l[x][i]
  }

  // What a shrinking realloc does to the tiling and to the list.
  ghost predicate Reduced(m: Memory, m': Memory, blk: Blocks, blk': Blocks, fl: seq<int>, fl': seq<int>, x: int, n: nat)
    requires x in blk
  {
    if blk[x].size > REDUCE_LIMIT && blk[x].size - n > OVERHEAD then
      blk' == SplitBlock(blk, x, n) && fl' == [SplitAt(x, n)] + fl
    else
      m' == m && blk' == blk && fl' == fl
  }

  lemma PayloadRangeInv(m: Memory, head: int, start: int, blk: Blocks, fl: seq<int>, x: int)
    requires Inv(m, head, start, blk, fl)
    requires x in Ledger(m, blk)
    ensures x in blk && 0 < x && x + OVERHEAD + blk[x].size <= |m| && |Ledger(m, blk)[x]| == blk[x].size
  {
    PayloadRange(m, blk, x);
    assert HeaderOk(m, x, blk[x]);
  }

  lemma NothingMoved(m: Memory, head: int, start: int, blk: Blocks, fl: seq<int>, x: int, n: nat)
    requires Inv(m, head, start, blk, fl)
    requires x in Ledger(m, blk) && n <= |Ledger(m, blk)[x]|
    ensures Moved(Ledger(m, blk), Ledger(m, blk), x, x, n)
  {
  }

  lemma HeadClear(m: Memory, head: int, start: int, blk: Blocks, fl: seq<int>, x: int)
    requires Inv(m, head, start, blk, fl)
    requires x in blk && !blk[x].free
    ensures head != NULL ==>
              0 < head && head + STRUCT_SIZE <= |m| && (head + STRUCT_SIZE <= x || End(x, blk[x]) <= head)
  {
    assert head != NULL ==> LinkOk(m, fl, 0);
    ListAvoids(blk, start, |m|, fl, x);
  }

  lemma ReductionDone(m0: Memory, m1: Memory, m2: Memory, m3: Memory, head: int, start: int, blk: Blocks, fl: seq<int>,
                      x: int, n: nat)
    requires Inv(m0, head, start, blk, fl)
    requires x in blk && !blk[x].free && n + OVERHEAD < blk[x].size
    requires 0 < x && End(x, blk[x]) <= |m0|
    requires head != NULL ==>
               0 < head && head + STRUCT_SIZE <= |m0| && (head + STRUCT_SIZE <= x || End(x, blk[x]) <= head)
    requires Cut(m0, m1, x, n, blk[x].size)
    requires Pushed(m1, m2, head, SplitAt(x, n))
    requires |m2| == |m0| && m3 == m2[SplitAt(x, n) + FREE := 1][x + FREE := 0]
    ensures Inv(m3, SplitAt(x, n), start, SplitBlock(blk, x, n), [SplitAt(x, n)] + fl)
    ensures Moved(Ledger(m0, blk), Ledger(m3, SplitBlock(blk, x, n)), x, x, n)
    ensures |m3| == |m0| && forall y | 0 <= y < start && y < |m0| :: m3[y] == m0[y]
  {
    hide Tiling, Links, Listed, LiveKept, Cut, Pushed;
    ReductionMarks(m0, m1, m2, m3, head, blk, x, n);
    ShrinkDone(m0, m3, head, start, blk, fl, x, n);
    ShrinkMoved(m0, m3, start, blk, x, n);
  }

  // The sizes and footers of both halves are written; links and `free` are not yet.
  ghost predicate Cut(m: Memory, m': Memory, x: int, n: nat, size: nat) {
    var y, rest := SplitAt(x, n), size - n - OVERHEAD;
    && 0 < x && 0 < rest && x + OVERHEAD + size <= |m|
    && Same(m, m', {x, x + STRUCT_SIZE + n, y, y + STRUCT_SIZE + rest})
    && m'[x] == n == m'[x + STRUCT_SIZE + n]
    && m'[y] == rest == m'[y + STRUCT_SIZE + rest]
  }

  lemma CutLength(m: Memory, m': Memory, x: int, n: nat, size: nat)
    requires Cut(m, m', x, n, size)
    ensures |m'| == |m|
  {
  }

  lemma ReductionMarks(m0: Memory, m1: Memory, m2: Memory, m3: Memory, head: int, blk: Blocks, x: int, n: nat)
    requires x in blk && n + OVERHEAD < blk[x].size
    requires head != NULL ==>
               0 < head && head + STRUCT_SIZE <= |m0| && (head + STRUCT_SIZE <= x || End(x, blk[x]) <= head)
    requires 0 < x && Cut(m0, m1, x, n, blk[x].size)
    requires Pushed(m1, m2, head, SplitAt(x, n))
    requires x + STRUCT_SIZE <= SplitAt(x, n) + STRUCT_SIZE <= |m2|
    requires m3 == m2[SplitAt(x, n) + FREE := 1][x + FREE := 0]
    ensures |m3| == |m0| && Confined(m0, m3, x, End(x, blk[x]), NULL, head)
    ensures HeaderOk(m3, x, Block(n, false))
    ensures HeaderOk(m3, SplitAt(x, n), Block(blk[x].size - n - OVERHEAD, true))
    ensures Adopted(m3, NULL, head, SplitAt(x, n))
    ensures forall y | x + STRUCT_SIZE <= y < x + STRUCT_SIZE + n :: m3[y] == m0[y]
  {
  }

  lemma ShrinkMoved(m: Memory, m': Memory, start: int, blk: Blocks, x: int, n: nat)
    requires Tiling(blk, start, |m|) && Headers(m, blk)
    requires x in blk && !blk[x].free && n + OVERHEAD < blk[x].size
    requires Headers(m', SplitBlock(blk, x, n)) && |m'| == |m|
    requires LiveKept(m, m', blk, x)
    requires forall y | x + STRUCT_SIZE <= y < x + STRUCT_SIZE + n && 0 <= y < |m| :: m'[y] == m[y]
    ensures Moved(Ledger(m, blk), Ledger(m', SplitBlock(blk, x, n)), x, x, n)
  {
    hide Tiling, LiveKept;
    SplitLive(blk, start, |m|, x, n);
    LedgerKept(m, m', blk, SplitBlock(blk, x, n), x);
    assert HeaderOk(m, x, blk[x]);
    assert x in SplitBlock(blk, x, n) && SplitBlock(blk, x, n)[x] == Block(n, false);
  }

  lemma SplitLive(blk: Blocks, start: int, brk: int, x: int, n: nat)
    requires Tiling(blk, start, brk)
    requires x in blk && !blk[x].free && n + OVERHEAD < blk[x].size
    ensures Live(SplitBlock(blk, x, n)) - {x} == Live(blk) - {x}
  {
    TilingSplit(blk, start, brk, x, n);
  }

  // The payloads of two live blocks do not overlap each other.
  lemma PayloadsApart(m: Memory, head: int, start: int, blk: Blocks, fl: seq<int>, x: int, y: int)
    requires Inv(m, head, start, blk, fl)
    requires x in Ledger(m, blk) && y in Ledger(m, blk) && x != y
    ensures 0 <= x && x + STRUCT_SIZE + |Ledger(m, blk)[x]| <= |m|
    ensures Ledger(m, blk)[x] == m[x + STRUCT_SIZE..x + STRUCT_SIZE + |Ledger(m, blk)[x]|]
    ensures x + OVERHEAD + |Ledger(m, blk)[x]| <= y || y + OVERHEAD + |Ledger(m, blk)[y]| <= x
  {
    PayloadRange(m, blk, x);
    PayloadRange(m, blk, y);
    assert x < y ==> End(x, blk[x]) <= y;
  }

  // Allocate, copy, free: the old payload has moved.
  lemma CopyMoves(l0: map<int, seq<int>>, l1: map<int, seq<int>>, l2: map<int, seq<int>>, l3: map<int, seq<int>>,
                  x: int, y: int, size: nat)
    requires x in l0 && |l0[x]| < size
    requires Grown(l0, l1, y, size)
    requires Filled(l1, l2, y, l0[x])
    requires l3 == l2 - {x}
    ensures Moved(l0, l3, x, y, size)
  {
    assert l3 - {y} == l0 - {x} by {
      assert l2 - {y} == l1 - {y} == l0;
      assert l3 - {y} == (l2 - {y}) - {x};
    }
  }

  lemma StoreDone(m: Memory, m': Memory, head: int, start: int, blk: Blocks, fl: seq<int>, x: int, at: nat, value: int)
    requires Inv(m, head, start, blk, fl)
    requires x in Ledger(m, blk) && at < |Ledger(m, blk)[x]|
    requires 0 < x && x + STRUCT_SIZE + at < |m| && m' == m[x + STRUCT_SIZE + at := value]
    ensures Inv(m', head, start, blk, fl)
    ensures Ledger(m', blk) == Ledger(m, blk)[x := Ledger(m, blk)[x][at := value]]
    ensures forall y | 0 <= y < start && y < |m| :: m'[y] == m[y]
  {
    hide Tiling, Links, Listed, LiveKept;
    PayloadRange(m, blk, x);
    PayloadWritten(m, m', head, start, blk, fl, x);
    LedgerKept(m, m', blk, blk, x);
    var l, l' := Ledger(m, blk), Ledger(m', blk);
    assert l'[x] == l[x][at := value];
    assert l' == (l' - {x})[x := l'[x]];
    assert l[x := l'[x]] == (l - {x})[x := l'[x]];
  }
}
