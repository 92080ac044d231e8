/**
 * How the tiling of the heap range reacts to the block operations of malloc/alloc.c:
 * splitting a block, merging two neighbours, growing at the break; and what a change
 * confined to a few blocks and a few links leaves alone.
 */
module HeapTiling {
  import opened HeapLayout

  function SplitAt(a: int, n: int): int {
    a + OVERHEAD + n
  }

  // The block at a keeps n bytes; the rest becomes a free block of its own.
  function SplitBlock(blk: Blocks, a: int, n: nat): Blocks
    requires a in blk && n + OVERHEAD <= blk[a].size
  {
    blk[a := Block(n, false)][SplitAt(a, n) := Block(blk[a].size - n - OVERHEAD, true)]
  }

  // The block at a swallows its right neighbour b.
  function MergeBlocks(blk: Blocks, a: int, b: int): Blocks
    requires a in blk && b in blk
  {
    (blk - {b})[a := Block(blk[a].size + blk[b].size + OVERHEAD, true)]
  }

  lemma TilingSplit(blk: Blocks, start: int, brk: int, a: int, n: nat)
    requires Tiling(blk, start, brk)
    requires a in blk && n + OVERHEAD <= blk[a].size
    ensures SplitAt(a, n) !in blk
    ensures Tiling(SplitBlock(blk, a, n), start, brk)
  {
    var r := SplitBlock(blk, a, n);
    var d := SplitAt(a, n);
    assert Within(a, blk[a], start, brk);
    assert d !in blk;
    forall c | c in r
      ensures Continues(r, brk, c)
    {
      SplitContinues(blk, start, brk, a, n, c);
    }
    forall c | c in r
      ensures Within(c, r[c], start, brk)
    {
      assert c in blk ==> Within(c, blk[c], start, brk);
    }
    forall c, e | c in r && e in r && c < e
      ensures End(c, r[c]) <= e
    {
      hide Continues, Within;
      assert c in blk && e in blk ==> End(c, blk[c]) <= e;
      assert c == d ==> End(a, blk[a]) <= e;
      assert e == d && c != a ==> c < a && End(c, blk[c]) <= a;
    }
  }

  lemma SplitContinues(blk: Blocks, start: int, brk: int, a: int, n: nat, c: int)
    requires Tiling(blk, start, brk)
    requires a in blk && n + OVERHEAD <= blk[a].size && c in SplitBlock(blk, a, n)
    ensures Continues(SplitBlock(blk, a, n), brk, c)
  {
    assert Continues(blk, brk, a);
    assert c in blk ==> Continues(blk, brk, c);
  }

  lemma TilingMerge(blk: Blocks, start: int, brk: int, a: int, b: int)
    requires Tiling(blk, start, brk)
    requires a in blk && b in blk && b == End(a, blk[a])
    ensures Tiling(MergeBlocks(blk, a, b), start, brk)
  {
    var r := MergeBlocks(blk, a, b);
    assert Within(a, blk[a], start, brk) && Within(b, blk[b], start, brk);
    assert End(a, r[a]) == End(b, blk[b]);
    forall c | c in r
      ensures Continues(r, brk, c)
    {
      MergeContinues(blk, start, brk, a, b, c);
    }
    forall c | c in r
      ensures Within(c, r[c], start, brk)
    {
      assert Within(c, blk[c], start, brk);
    }
    forall c, d | c in r && d in r && c < d
      ensures End(c, r[c]) <= d
    {
      assert End(c, blk[c]) <= d;
      assert c == a ==> End(b, blk[b]) <= d;
    }
  }

  lemma MergeContinues(blk: Blocks, start: int, brk: int, a: int, b: int, c: int)
    requires Tiling(blk, start, brk)
    requires a in blk && b in blk && b == End(a, blk[a])
    requires c in blk && c != b
    ensures Continues(MergeBlocks(blk, a, b), brk, c)
  {
    var r := MergeBlocks(blk, a, b);
    assert r.Keys == blk.Keys - {b};
    assert Continues(blk, brk, c) && Continues(blk, brk, b);
    if c < a {
      assert End(c, blk[c]) <= a;
    } else if c > a {
      assert End(b, blk[b]) <= c;
    }
  }

  lemma TilingGrow(blk: Blocks, start: int, brk: int, n: nat)
    requires Tiling(blk, start, brk)
    ensures brk !in blk
    ensures Tiling(blk[brk := Block(n, false)], start, SplitAt(brk, n))
  {
    var r := blk[brk := Block(n, false)];
    assert brk in blk ==> Within(brk, blk[brk], start, brk);
    forall c | c in r
      ensures Continues(r, SplitAt(brk, n), c) && Within(c, r[c], start, SplitAt(brk, n))
    {
      assert c in blk ==> Continues(blk, brk, c) && Within(c, blk[c], start, brk);
    }
  }

  lemma TilingRelabel(blk: Blocks, start: int, brk: int, a: int, free: bool)
    requires Tiling(blk, start, brk)
    requires a in blk
    ensures Tiling(blk[a := Block(blk[a].size, free)], start, brk)
  {
    var r := blk[a := Block(blk[a].size, free)];
    assert Within(a, blk[a], start, brk);
    forall c | c in r
      ensures Continues(r, brk, c) && Within(c, r[c], start, brk)
    {
      assert Continues(blk, brk, c) && Within(c, blk[c], start, brk);
    }
  }

  // Every block but the first has a left neighbour that ends where it starts.
  lemma {:induction false} LeftNeighbour(blk: Blocks, start: int, brk: int, b: int, from: int) returns (a: int)
    requires Tiling(blk, start, brk)
    requires b in blk && from in blk && from < b
    ensures a in blk && End(a, blk[a]) == b
    decreases b - from
  {
    assert Continues(blk, brk, from);
    assert Within(b, blk[b], start, brk);
    var e := End(from, blk[from]);
    if e == b {
      a := from;
    } else {
      a := LeftNeighbour(blk, start, brk, b, e);
    }
  }

  // ---------- frames ----------

  ghost predicate SamePayload(m: Memory, m': Memory, a: int, size: nat) {
    && 0 <= a && a + STRUCT_SIZE + size <= |m| <= |m'|
    && forall y | a + STRUCT_SIZE <= y < a + STRUCT_SIZE + size :: m'[y] == m[y]
  }

  ghost predicate NodeOrNull(blk: Blocks, p: int) {
    p == NULL || p in blk
  }

  lemma OutsideKept(m: Memory, m': Memory, blk: Blocks, start: int, brk: int, c: int, lo: int, hi: int, p: int, n: int)
    requires Tiling(blk, start, brk)
    requires c in blk && HeaderOk(m, c, blk[c])
    requires Confined(m, m', lo, hi, p, n)
    requires NodeOrNull(blk, p) && NodeOrNull(blk, n)
    requires hi <= c || End(c, blk[c]) <= lo
    ensures HeaderOk(m', c, blk[c])
    ensures SamePayload(m, m', c, blk[c].size)
  {
    assert forall d | d in blk && d != c :: d + OVERHEAD <= c || End(c, blk[c]) <= d by {
      forall d | d in blk && d != c
        ensures d + OVERHEAD <= c || End(c, blk[c]) <= d
      {
        assert Within(d, blk[d], start, brk);
      }
    }
  }
}
