/**
 * Every way malloc/alloc.c rearranges the heap keeps the three views of it in agreement
 * (address-order tiling, headers and footers, free list) and leaves the payload of every
 * live block alone. One lemma per way.
 */
module HeapSteps {
  import opened HeapLayout
  import opened HeapTiling

  // No byte of a live payload differs, except in the block at `except`.
  ghost predicate LiveKept(m: Memory, m': Memory, blk: Blocks, except: int) {
    forall a | a in blk && !blk[a].free && a != except :: SamePayload(m, m', a, blk[a].size)
  }

  lemma LinkCellsHarmless(blk: Blocks, start: int, brk: int, p: int, n: int, c: int)
    requires Tiling(blk, start, brk)
    requires c in blk && NodeOrNull(blk, p) && NodeOrNull(blk, n)
    ensures forall y | y == c || c + FREE <= y < End(c, blk[c]) :: !LinkCell(y, p, n)
  {
    assert forall d | d in blk && d != c :: d + OVERHEAD <= c || End(c, blk[c]) <= d by {
      forall d | d in blk && d != c
        ensures d + OVERHEAD <= c || End(c, blk[c]) <= d
      {
        assert Within(d, blk[d], start, brk);
      }
    }
  }

  ghost predicate Outside(c: int, b: Block, lo: int, hi: int) {
    hi <= c || End(c, b) <= lo
  }

  lemma OutsideUntouched(m: Memory, m': Memory, blk: Blocks, start: int, lo: int, hi: int, p: int, n: int)
    requires Tiling(blk, start, |m|) && Headers(m, blk)
    requires Confined(m, m', lo, hi, p, n)
    requires NodeOrNull(blk, p) && NodeOrNull(blk, n)
    ensures forall c | c in blk && Outside(c, blk[c], lo, hi) ::
              HeaderOk(m', c, blk[c]) && SamePayload(m, m', c, blk[c].size)
  {
    forall c | c in blk && Outside(c, blk[c], lo, hi)
      ensures HeaderOk(m', c, blk[c]) && SamePayload(m, m', c, blk[c].size)
    {
      OutsideKept(m, m', blk, start, |m|, c, lo, hi, p, n);
    }
  }

  // The region of one block lies outside every other block.
  lemma OthersOutside(blk: Blocks, start: int, brk: int, x: int)
    requires Tiling(blk, start, brk) && x in blk
    ensures forall c | c in blk && c != x :: Outside(c, blk[c], x, End(x, blk[x]))
  {
  }

  lemma NeighboursListed(m: Memory, head: int, start: int, blk: Blocks, fl: seq<int>, k: int)
    requires Inv(m, head, start, blk, fl)
    requires 0 <= k < |fl|
    ensures NodeOrNull(blk, Prev(fl, k)) && NodeOrNull(blk, Next(fl, k))
    ensures fl[k] in blk && blk[fl[k]].free && HeaderOk(m, fl[k], blk[fl[k]])
  {
  }

  // The free block fl[k] is handed out whole.
  lemma TakeWhole(m: Memory, m': Memory, head: int, start: int, blk: Blocks, fl: seq<int>, k: int)
    requires Inv(m, head, start, blk, fl)
    requires 0 <= k < |fl| && fl[k] in blk && 0 <= fl[k] + FREE < |m|
    requires Spliced(m[fl[k] + FREE := 0], m', Prev(fl, k), Next(fl, k), Next(fl, k), Prev(fl, k), {})
    ensures Inv(m', if Prev(fl, k) == NULL then Next(fl, k) else head, start,
                blk[fl[k] := Block(blk[fl[k]].size, false)], RemoveAt(fl, k))
    ensures LiveKept(m, m', blk, NULL)
  {
    hide Tiling, Headers, Links, Listed, Spliced, LiveKept, HeaderOk, Confined;
    var x := fl[k];
    var b := blk[x];
    NeighboursListed(m, head, start, blk, fl, k);
    TilingRelabel(blk, start, |m|, x, false);
    TakeWholeMarks(m, m', start, blk, x, Prev(fl, k), Next(fl, k), Next(fl, k), Prev(fl, k));
    TakeWholeHeaders(m, m', start, blk, x, Prev(fl, k), Next(fl, k));
    TakeWholeLinks(m, m', head, fl, k);
    ListedRemove(blk, fl, k, m, head, blk[x := Block(b.size, false)]);
  }

  lemma TakeWholeMarks(m: Memory, m': Memory, start: int, blk: Blocks, x: int, p: int, n: int, vp: int, vn: int)
    requires Tiling(blk, start, |m|)
    requires x in blk && HeaderOk(m, x, blk[x]) && 0 <= x + FREE < |m|
    requires NodeOrNull(blk, p) && NodeOrNull(blk, n)
    requires Spliced(m[x + FREE := 0], m', p, n, vp, vn, {})
    ensures Confined(m, m', x, End(x, blk[x]), p, n)
    ensures |m'| == |m| && HeaderOk(m', x, Block(blk[x].size, false))
  {
    LinkCellsHarmless(blk, start, |m|, p, n, x);
  }

  lemma TakeWholeHeaders(m: Memory, m': Memory, start: int, blk: Blocks, x: int, p: int, n: int)
    requires Tiling(blk, start, |m|) && Headers(m, blk)
    requires x in blk && blk[x].free
    requires NodeOrNull(blk, p) && NodeOrNull(blk, n)
    requires |m'| == |m| && Confined(m, m', x, End(x, blk[x]), p, n)
    requires HeaderOk(m', x, Block(blk[x].size, false))
    ensures Headers(m', blk[x := Block(blk[x].size, false)])
    ensures LiveKept(m, m', blk, NULL)
  {
    OutsideUntouched(m, m', blk, start, x, End(x, blk[x]), p, n);
    OthersOutside(blk, start, |m|, x);
  }

  lemma TakeWholeLinks(m: Memory, m': Memory, head: int, fl: seq<int>, k: int)
    requires Links(m, head, fl)
    requires 0 <= k < |fl|
    requires 0 <= fl[k] + FREE < |m|
    requires Spliced(m[fl[k] + FREE := 0], m', Prev(fl, k), Next(fl, k), Next(fl, k), Prev(fl, k), {})
    ensures Links(m', if Prev(fl, k) == NULL then Next(fl, k) else head, RemoveAt(fl, k))
  {
    forall i | 0 <= i < |fl|
      ensures fl[i] + BEFORE != fl[k] + FREE && fl[i] + AFTER != fl[k] + FREE
    {
      assert i < k ==> Apart(fl[i], fl[k]);
      assert i > k ==> Apart(fl[k], fl[i]);
    }
    LinksRemove(m, m', head, fl, k, {fl[k] + FREE});
  }

  // Taking entry k off the list leaves exactly the other free blocks on it.
  lemma ListedRemove(blk: Blocks, fl: seq<int>, k: int, m: Memory, head: int, blk': Blocks)
    requires Links(m, head, fl) && Listed(blk, fl)
    requires 0 <= k < |fl|
    requires forall a | a in blk' && blk'[a].free :: a in blk && blk[a].free && a != fl[k]
    requires forall a | a in blk && blk[a].free && a != fl[k] :: a in blk' && blk'[a].free
    ensures Listed(blk', RemoveAt(fl, k))
  {
    var r := RemoveAt(fl, k);
    forall i | 0 <= i < |r|
      ensures r[i] in blk' && blk'[r[i]].free
    {
      var j := if i < k then i else i + 1;
      assert r[i] == fl[j];
      assert j < k ==> Apart(fl[j], fl[k]);
      assert j > k ==> Apart(fl[k], fl[j]);
    }
    forall a | a in blk' && blk'[a].free
      ensures a in r
    {
      var j :| 0 <= j < |fl| && fl[j] == a;
      assert r[if j < k then j else j - 1] == a;
    }
  }

  // Listed headers other than c stay clear of the region of c.
  lemma ListAvoids(blk: Blocks, start: int, brk: int, fl: seq<int>, c: int)
    requires Tiling(blk, start, brk) && Listed(blk, fl)
    requires c in blk
    ensures forall i | 0 <= i < |fl| && fl[i] != c :: fl[i] + OVERHEAD <= c || End(c, blk[c]) <= fl[i]
    ensures !blk[c].free ==> c !in fl
  {
    forall i | 0 <= i < |fl| && fl[i] != c
      ensures fl[i] + OVERHEAD <= c || End(c, blk[c]) <= fl[i]
    {
      assert Within(fl[i], blk[fl[i]], start, brk);
    }
  }

  // The block at x is cut in two, in place: its first n payload bytes are kept.
  lemma SplitHeaders(m: Memory, m': Memory, start: int, blk: Blocks, x: int, n: nat, p: int, q: int)
    requires Tiling(blk, start, |m|) && Headers(m, blk)
    requires x in blk && n + OVERHEAD <= blk[x].size
    requires NodeOrNull(blk, p) && NodeOrNull(blk, q)
    requires |m'| == |m| && Confined(m, m', x, End(x, blk[x]), p, q)
    requires HeaderOk(m', x, Block(n, false))
    requires HeaderOk(m', SplitAt(x, n), Block(blk[x].size - n - OVERHEAD, true))
    ensures Tiling(SplitBlock(blk, x, n), start, |m'|)
    ensures Headers(m', SplitBlock(blk, x, n))
    ensures LiveKept(m, m', blk, x)
  {
    TilingSplit(blk, start, |m|, x, n);
    OutsideUntouched(m, m', blk, start, x, End(x, blk[x]), p, q);
    OthersOutside(blk, start, |m|, x);
  }

  // Both halves of a split replace the old block in the list at its own position.
  lemma ListedReplace(blk: Blocks, fl: seq<int>, k: int, x: int, m: Memory, head: int, blk': Blocks)
    requires Links(m, head, fl) && Listed(blk, fl)
    requires 0 <= k < |fl|
    requires x in blk' && blk'[x].free
    requires forall a | a in blk' && blk'[a].free && a != x :: a in blk && blk[a].free && a != fl[k]
    requires forall a | a in blk && blk[a].free && a != fl[k] :: a in blk' && blk'[a].free
    ensures Listed(blk', fl[k := x])
  {
    var r := fl[k := x];
    forall i | 0 <= i < |r|
      ensures r[i] in blk' && blk'[r[i]].free
    {
      assert i < k ==> Apart(fl[i], fl[k]);
      assert i > k ==> Apart(fl[k], fl[i]);
    }
    forall a | a in blk' && blk'[a].free
      ensures a in r
    {
      if a == x {
        assert r[k] == a;
      } else {
        var j :| 0 <= j < |fl| && fl[j] == a;
        assert r[j] == a;
      }
    }
  }

  lemma ListedPush(blk: Blocks, fl: seq<int>, x: int, blk': Blocks)
    requires Listed(blk, fl)
    requires x in blk' && blk'[x].free
    requires forall a | a in blk' && blk'[a].free && a != x :: a in blk && blk[a].free
    requires forall a | a in blk && blk[a].free :: a in blk' && blk'[a].free
    ensures Listed(blk', [x] + fl)
  {
    var r := [x] + fl;
    forall i | 0 <= i < |r|
      ensures r[i] in blk' && blk'[r[i]].free
    {
      assert r[i] == if i == 0 then x else fl[i - 1];
    }
    forall a | a in blk' && blk'[a].free
      ensures a in r
    {
      if a == x {
        assert r[0] == a;
      } else {
        var j :| 0 <= j < |fl| && fl[j] == a;
        assert r[j + 1] == a;
      }
    }
  }

  // The live block at x becomes free on its own.
  lemma FreeHeaders(m: Memory, m': Memory, start: int, blk: Blocks, x: int, q: int)
    requires Tiling(blk, start, |m|) && Headers(m, blk)
    requires x in blk && NodeOrNull(blk, q)
    requires |m'| == |m| && Confined(m, m', x, End(x, blk[x]), NULL, q)
    requires HeaderOk(m', x, Block(blk[x].size, true))
    ensures Tiling(blk[x := Block(blk[x].size, true)], start, |m'|)
    ensures Headers(m', blk[x := Block(blk[x].size, true)])
    ensures LiveKept(m, m', blk, x)
  {
    TilingRelabel(blk, start, |m|, x, true);
    OutsideUntouched(m, m', blk, start, x, End(x, blk[x]), NULL, q);
    OthersOutside(blk, start, |m|, x);
  }

  // The adjacent blocks a and b become one free block; at most x of the two was live.
  lemma MergeHeaders(m: Memory, m': Memory, start: int, blk: Blocks, a: int, b: int, x: int, p: int, q: int)
    requires Tiling(blk, start, |m|) && Headers(m, blk)
    requires a in blk && b in blk && b == End(a, blk[a])
    requires (a == x || blk[a].free) && (b == x || blk[b].free)
    requires NodeOrNull(blk, p) && NodeOrNull(blk, q)
    requires |m'| == |m| && Confined(m, m', a, End(b, blk[b]), p, q)
    requires HeaderOk(m', a, MergeBlocks(blk, a, b)[a])
    ensures Tiling(MergeBlocks(blk, a, b), start, |m'|)
    ensures Headers(m', MergeBlocks(blk, a, b))
    ensures LiveKept(m, m', blk, x)
  {
    TilingMerge(blk, start, |m|, a, b);
    OutsideUntouched(m, m', blk, start, a, End(b, blk[b]), p, q);
    OthersOutside(blk, start, |m|, a);
    OthersOutside(blk, start, |m|, b);
    var r := MergeBlocks(blk, a, b);
    forall c | c in blk && c != a && c != b
      ensures Outside(c, blk[c], a, End(b, blk[b]))
    {
    }
  }

  // The adjacent blocks a, x and b become one free block.
  function MergeThree(blk: Blocks, a: int, x: int, b: int): Blocks
    requires a in blk && x in blk && b in blk && a != b && x != b
  {
    MergeBlocks(MergeBlocks(blk, a, x), a, b)
  }

  lemma MergeThreeHeaders(m: Memory, m': Memory, start: int, blk: Blocks, a: int, x: int, b: int, p: int, q: int)
    requires Tiling(blk, start, |m|) && Headers(m, blk)
    requires a in blk && x in blk && b in blk && x == End(a, blk[a]) && b == End(x, blk[x])
    requires blk[a].free && blk[b].free
    requires NodeOrNull(blk, p) && NodeOrNull(blk, q)
    requires |m'| == |m| && Confined(m, m', a, End(b, blk[b]), p, q)
    requires HeaderOk(m', a, MergeThree(blk, a, x, b)[a])
    ensures Tiling(MergeThree(blk, a, x, b), start, |m'|)
    ensures Headers(m', MergeThree(blk, a, x, b))
    ensures LiveKept(m, m', blk, x)
  {
    MergeThreeTiling(blk, start, |m|, a, x, b);
    MergeThreeOthers(blk, start, |m|, a, x, b);
    OutsideUntouched(m, m', blk, start, a, End(b, blk[b]), p, q);
    var r := MergeThree(blk, a, x, b);
    hide Tiling, Headers, Outside, MergeThree;
    forall c | c in r
      ensures HeaderOk(m', c, r[c])
    {
      assert c != a ==> c in blk && r[c] == blk[c] && Outside(c, blk[c], a, End(b, blk[b]));
    }
    assert Headers(m', r) by { HeadersFrom(m', r); }
  }

  lemma HeadersFrom(m: Memory, blk: Blocks)
    requires forall c | c in blk :: HeaderOk(m, c, blk[c])
    ensures Headers(m, blk)
  {
  }

  lemma MergeThreeTiling(blk: Blocks, start: int, brk: int, a: int, x: int, b: int)
    requires Tiling(blk, start, brk)
    requires a in blk && x in blk && b in blk && x == End(a, blk[a]) && b == End(x, blk[x])
    ensures Tiling(MergeThree(blk, a, x, b), start, brk)
  {
    var blk1 := MergeBlocks(blk, a, x);
    TilingMerge(blk, start, brk, a, x);
    assert b in blk1 && blk1[b] == blk[b] && End(a, blk1[a]) == b;
    hide Tiling;
    TilingMerge(blk1, start, brk, a, b);
  }

  // The blocks that are not merged are as they were, and lie outside the merged range.
  lemma MergeThreeOthers(blk: Blocks, start: int, brk: int, a: int, x: int, b: int)
    requires Tiling(blk, start, brk)
    requires a in blk && x in blk && b in blk && x == End(a, blk[a]) && b == End(x, blk[x])
    ensures MergeThree(blk, a, x, b).Keys == blk.Keys - {x, b}
    ensures forall c | c in blk && c != a && c != x && c != b ::
              MergeThree(blk, a, x, b)[c] == blk[c] && Outside(c, blk[c], a, End(b, blk[b]))
  {
    forall c | c in blk && c != a && c != x && c != b
      ensures Outside(c, blk[c], a, End(b, blk[b]))
    {
      assert c < a ==> End(c, blk[c]) <= a;
      assert a < c ==> End(a, blk[a]) <= c;
      assert x < c ==> End(x, blk[x]) <= c;
      assert b < c ==> End(b, blk[b]) <= c;
      assert c < x ==> End(c, blk[c]) <= x;
      assert c < b ==> End(c, blk[c]) <= b;
    }
  }

  // The free block fl[k] is cut: its first n bytes are handed out, the rest stays listed.
  lemma TakeSplit(m: Memory, m': Memory, head: int, start: int, blk: Blocks, fl: seq<int>, k: int, n: nat)
    requires Inv(m, head, start, blk, fl)
    requires 0 <= k < |fl| && fl[k] in blk && n + OVERHEAD <= blk[fl[k]].size
    requires |m'| == |m| && Confined(m, m', fl[k], End(fl[k], blk[fl[k]]), Prev(fl, k), Next(fl, k))
    requires HeaderOk(m', fl[k], Block(n, false))
    requires HeaderOk(m', SplitAt(fl[k], n), Block(blk[fl[k]].size - n - OVERHEAD, true))
    requires Adopted(m', Prev(fl, k), Next(fl, k), SplitAt(fl[k], n))
    ensures Inv(m', if Prev(fl, k) == NULL then SplitAt(fl[k], n) else head, start,
                SplitBlock(blk, fl[k], n), fl[k := SplitAt(fl[k], n)])
    ensures LiveKept(m, m', blk, NULL)
  {
    var x, y := fl[k], SplitAt(fl[k], n);
    SplitHeaders(m, m', start, blk, x, n, Prev(fl, k), Next(fl, k));
    TakeSplitLinks(m, m', head, start, blk, fl, k, y);
    TakeSplitListed(m, head, start, blk, fl, k, n);
  }

  lemma TakeSplitLinks(m: Memory, m': Memory, head: int, start: int, blk: Blocks, fl: seq<int>, k: int, y: int)
    requires Tiling(blk, start, |m|) && Listed(blk, fl) && Links(m, head, fl)
    requires 0 <= k < |fl| && fl[k] in blk
    requires |m'| == |m| && Confined(m, m', fl[k], End(fl[k], blk[fl[k]]), Prev(fl, k), Next(fl, k))
    requires Adopted(m', Prev(fl, k), Next(fl, k), y)
    requires fl[k] <= y && y + STRUCT_SIZE <= End(fl[k], blk[fl[k]])
    ensures Links(m', if Prev(fl, k) == NULL then y else head, fl[k := y])
  {
    var x := fl[k];
    ListAvoids(blk, start, |m|, fl, x);
    forall i | 0 <= i < |fl| && i != k
      ensures Clear(fl[i], x, End(x, blk[x]))
    {
      assert i < k ==> Apart(fl[i], fl[k]);
      assert i > k ==> Apart(fl[k], fl[i]);
    }
    LinksReplace(m, m', head, fl, k, y, x, End(x, blk[x]));
  }

  lemma TakeSplitListed(m: Memory, head: int, start: int, blk: Blocks, fl: seq<int>, k: int, n: nat)
    requires Tiling(blk, start, |m|) && Listed(blk, fl) && Links(m, head, fl)
    requires 0 <= k < |fl| && fl[k] in blk && n + OVERHEAD <= blk[fl[k]].size
    ensures Listed(SplitBlock(blk, fl[k], n), fl[k := SplitAt(fl[k], n)])
  {
    TilingSplit(blk, start, |m|, fl[k], n);
    ListedReplace(blk, fl, k, SplitAt(fl[k], n), m, head, SplitBlock(blk, fl[k], n));
  }

  // A live block is added at the break.
  lemma Grow(m: Memory, m': Memory, head: int, start: int, blk: Blocks, fl: seq<int>, n: nat)
    requires Inv(m, head, start, blk, fl) && 0 < start
    requires |m'| == |m| + OVERHEAD + n
    requires HeaderOk(m', |m|, Block(n, false))
    requires forall y | 0 <= y < |m| :: m'[y] == m[y]
    ensures |m| !in blk
    ensures Inv(m', head, start, blk[|m| := Block(n, false)], fl)
    ensures LiveKept(m, m', blk, NULL)
  {
    TilingGrow(blk, start, |m|, n);
    var blk' := blk[|m| := Block(n, false)];
    LinksGrow(m, m', head, fl);
    HeadersGrow(m, m', start, blk);
    forall a | a in blk' && blk'[a].free
      ensures a in fl
    {
      assert a in blk && blk[a].free;
    }
  }

  lemma LinksGrow(m: Memory, m': Memory, head: int, fl: seq<int>)
    requires Links(m, head, fl) && |m| <= |m'|
    requires forall y | 0 <= y < |m| :: m'[y] == m[y]
    ensures Links(m', head, fl)
  {
    forall i | 0 <= i < |fl|
      ensures LinkOk(m', fl, i)
    {
      assert LinkOk(m, fl, i);
    }
  }

  lemma HeadersGrow(m: Memory, m': Memory, start: int, blk: Blocks)
    requires Headers(m, blk) && |m| <= |m'|
    requires forall y | 0 <= y < |m| :: m'[y] == m[y]
    ensures Headers(m', blk) && LiveKept(m, m', blk, NULL)
  {
    forall c | c in blk
      ensures HeaderOk(m', c, blk[c]) && SamePayload(m, m', c, blk[c].size)
    {
      assert HeaderOk(m, c, blk[c]);
    }
  }

  // Nothing below the heap is written.
  lemma BelowKept(m: Memory, m': Memory, start: int, blk: Blocks, brk: int, lo: int, hi: int, p: int, q: int)
    requires Tiling(blk, start, brk)
    requires Confined(m, m', lo, hi, p, q)
    requires NodeOrNull(blk, p) && NodeOrNull(blk, q)
    requires start <= lo
    ensures forall y | 0 <= y < start && y < |m| :: m'[y] == m[y]
  {
    assert p in blk ==> Within(p, blk[p], start, brk);
    assert q in blk ==> Within(q, blk[q], start, brk);
  }

  // ---------- free ----------

  // The live block x goes in front of the list.
  lemma FreeAlone(m: Memory, m': Memory, head: int, start: int, blk: Blocks, fl: seq<int>, x: int)
    requires Inv(m, head, start, blk, fl)
    requires x in blk && !blk[x].free
    requires |m'| == |m| && Confined(m, m', x, End(x, blk[x]), NULL, head)
    requires HeaderOk(m', x, Block(blk[x].size, true))
    requires Adopted(m', NULL, head, x)
    ensures Inv(m', x, start, blk[x := Block(blk[x].size, true)], [x] + fl)
    ensures LiveKept(m, m', blk, x)
  {
    hide Tiling, Headers, Links, Confined, HeaderOk, Adopted, LiveKept;
    HeadListed(m, head, blk, fl);
    FreeHeaders(m, m', start, blk, x, head);
    ListAvoids(blk, start, |m|, fl, x);
    LinksPush(m, m', head, fl, x, x, End(x, blk[x]));
    ListedPush(blk, fl, x, blk[x := Block(blk[x].size, true)]);
  }

  lemma HeadListed(m: Memory, head: int, blk: Blocks, fl: seq<int>)
    requires Links(m, head, fl) && Listed(blk, fl)
    ensures NodeOrNull(blk, head)
  {
  }

  lemma NodesInBounds(m: Memory, head: int, fl: seq<int>)
    requires Links(m, head, fl)
    ensures forall i | 0 <= i < |fl| :: 0 < fl[i] && fl[i] + STRUCT_SIZE <= |m|
  {
    forall i | 0 <= i < |fl|
      ensures 0 < fl[i] && fl[i] + STRUCT_SIZE <= |m|
    {
      assert LinkOk(m, fl, i);
    }
  }

  // x joins the free block a on its left; the list stays as it is.
  lemma FreeIntoLeft(m: Memory, m': Memory, head: int, start: int, blk: Blocks, fl: seq<int>, a: int, x: int)
    requires Inv(m, head, start, blk, fl)
    requires x in blk && !blk[x].free
    requires a in blk && blk[a].free && End(a, blk[a]) == x
    requires Same(m, m', {a, x + BEFORE, x + AFTER, x + FREE, x + STRUCT_SIZE + blk[x].size})
    requires HeaderOk(m', a, MergeBlocks(blk, a, x)[a])
    ensures Inv(m', head, start, MergeBlocks(blk, a, x), fl)
    ensures LiveKept(m, m', blk, x)
  {
    hide Links, HeaderOk, LiveKept;
    assert Confined(m, m', a, End(x, blk[x]), NULL, NULL);
    MergeHeaders(m, m', start, blk, a, x, x, NULL, NULL);
    ListAvoids(blk, start, |m|, fl, x);
    ListAvoids(blk, start, |m|, fl, a);
    NodesInBounds(m, head, fl);
    LinksFrame(m, m', head, fl);
  }

  // x swallows the free block b = fl[k] on its right and takes its place in the list.
  lemma FreeIntoRight(m: Memory, m': Memory, head: int, start: int, blk: Blocks, fl: seq<int>, x: int, k: int)
    requires Inv(m, head, start, blk, fl)
    requires x in blk && !blk[x].free
    requires 0 <= k < |fl| && fl[k] == End(x, blk[x]) && fl[k] in blk
    requires |m'| == |m| && Confined(m, m', x, End(fl[k], blk[fl[k]]), Prev(fl, k), Next(fl, k))
    requires HeaderOk(m', x, MergeBlocks(blk, x, fl[k])[x])
    requires Adopted(m', Prev(fl, k), Next(fl, k), x)
    ensures Inv(m', if Prev(fl, k) == NULL then x else head, start, MergeBlocks(blk, x, fl[k]), fl[k := x])
    ensures LiveKept(m, m', blk, x)
  {
    hide Tiling, Headers, Links, HeaderOk, LiveKept, Confined, Adopted;
    var b := fl[k];
    NeighboursListed(m, head, start, blk, fl, k);
    MergeHeaders(m, m', start, blk, x, b, x, Prev(fl, k), Next(fl, k));
    ListAvoids(blk, start, |m|, fl, x);
    ListAvoids(blk, start, |m|, fl, b);
    EntriesDiffer(m, head, fl, k);
    LinksReplace(m, m', head, fl, k, x, x, End(b, blk[b]));
    ListedReplace(blk, fl, k, x, m, head, MergeBlocks(blk, x, b));
  }

  lemma EntriesDiffer(m: Memory, head: int, fl: seq<int>, k: int)
    requires Links(m, head, fl)
    requires 0 <= k < |fl|
    ensures forall i | 0 <= i < |fl| && i != k :: fl[i] != fl[k]
  {
    forall i | 0 <= i < |fl| && i != k
      ensures fl[i] != fl[k]
    {
      assert i < k ==> Apart(fl[i], fl[k]);
      assert k < i ==> Apart(fl[k], fl[i]);
    }
  }

  // The free blocks a and b = fl[k] on both sides of x and x itself become one; b leaves
  // the list.
  lemma FreeIntoBoth(m: Memory, m': Memory, head: int, start: int, blk: Blocks, fl: seq<int>, a: int, x: int, k: int,
                     extra: set<int>)
    requires Inv(m, head, start, blk, fl)
    requires x in blk && !blk[x].free
    requires a in blk && blk[a].free && End(a, blk[a]) == x
    requires 0 <= k < |fl| && fl[k] == End(x, blk[x]) && fl[k] in blk
    requires extra == {a, x + BEFORE, x + AFTER, x + FREE, fl[k] + FREE, fl[k] + STRUCT_SIZE + blk[fl[k]].size}
    requires Spliced(m, m', Prev(fl, k), Next(fl, k), Next(fl, k), Prev(fl, k), extra)
    requires HeaderOk(m', a, MergeThree(blk, a, x, fl[k])[a])
    ensures Inv(m', if Prev(fl, k) == NULL then Next(fl, k) else head, start,
                MergeThree(blk, a, x, fl[k]), RemoveAt(fl, k))
    ensures LiveKept(m, m', blk, x)
  {
    hide Headers, Links, HeaderOk, LiveKept;
    var b := fl[k];
    NeighboursListed(m, head, start, blk, fl, k);
    OffLinks(blk, start, |m|, fl, a, x, b, extra);
    BothConfined(m, m', start, blk, a, x, b, Prev(fl, k), Next(fl, k), extra);
    hide Spliced, Tiling, Confined, Listed;
    MergeThreeHeaders(m, m', start, blk, a, x, b, Prev(fl, k), Next(fl, k));
    LinksRemove(m, m', head, fl, k, extra);
    ListedRemove(blk, fl, k, m, head, MergeThree(blk, a, x, b));
  }

  lemma BothConfined(m: Memory, m': Memory, start: int, blk: Blocks, a: int, x: int, b: int, p: int, q: int,
                     extra: set<int>)
    requires a in blk && x in blk && b in blk && End(a, blk[a]) == x && End(x, blk[x]) == b
    requires extra == {a, x + BEFORE, x + AFTER, x + FREE, b + FREE, b + STRUCT_SIZE + blk[b].size}
    requires Spliced(m, m', p, q, q, p, extra)
    ensures Confined(m, m', a, End(b, blk[b]), p, q)
  {
  }

  // The words written while a, x and b are merged are no links of listed blocks.
  lemma OffLinks(blk: Blocks, start: int, brk: int, fl: seq<int>, a: int, x: int, b: int, extra: set<int>)
    requires Tiling(blk, start, brk) && Listed(blk, fl)
    requires a in blk && x in blk && b in blk && !blk[x].free && End(a, blk[a]) == x && End(x, blk[x]) == b
    requires extra == {a, x + BEFORE, x + AFTER, x + FREE, b + FREE, b + STRUCT_SIZE + blk[b].size}
    ensures forall i | 0 <= i < |fl| :: fl[i] + BEFORE !in extra && fl[i] + AFTER !in extra
  {
    ListAvoids(blk, start, brk, fl, a);
    ListAvoids(blk, start, brk, fl, x);
    ListAvoids(blk, start, brk, fl, b);
  }
}
