/**
 * What the heap invariant means to somebody who only sees memory: walking the headers,
 * following the list, and looking at where payloads lie.
 */
module HeapTheorems {
  import opened HeapLayout
  import opened HeapFacts

  // The addresses reached from a by steps of header, size and footer, as the size words in
  // memory say; the last one is where the walk has to stop.
  ghost function Walk(m: Memory, a: int): (r: seq<int>)
    ensures |r| > 0
    decreases |m| - a
  {
    if 0 <= a && a + OVERHEAD <= |m| && 0 <= m[a] then [a] + Walk(m, a + OVERHEAD + m[a]) else [a]
  }

  // The walk from the start of the heap ends exactly at the break and visits exactly the
  // blocks, in ascending order.
  lemma WalkVisitsBlocks(m: Memory, head: int, start: int, blk: Blocks, fl: seq<int>)
    requires Inv(m, head, start, blk, fl)
    ensures var w := Walk(m, start);
            && w[|w| - 1] == |m|
            && (forall i, j | 0 <= i < j < |w| :: w[i] < w[j])
            && (forall a :: a in w[..|w| - 1] <==> a in blk)
  {
    WalkFrom(m, head, start, blk, fl, start);
    var w := Walk(m, start);
    forall a | a in blk
      ensures a in w[..|w| - 1]
    {
      assert Within(a, blk[a], start, |m|);
    }
  }

  lemma {:induction false} WalkFrom(m: Memory, head: int, start: int, blk: Blocks, fl: seq<int>, a: int)
    requires Inv(m, head, start, blk, fl)
    requires a in blk || a == |m|
    ensures var w := Walk(m, a);
            && w[0] == a && w[|w| - 1] == |m|
            && (forall i, j | 0 <= i < j < |w| :: w[i] < w[j])
            && (forall c :: c in w[..|w| - 1] <==> c in blk && a <= c)
    decreases |m| - a
  {
    hide Inv;
    if a == |m| {
      NothingBehind(m, head, start, blk, fl);
    } else {
      var b := End(a, blk[a]);
      WalkNext(m, head, start, blk, fl, a);
      WalkFrom(m, head, start, blk, fl, b);
      hide Walk;
      Prepended(a, b, Walk(m, b), blk);
    }
  }

  lemma NothingBehind(m: Memory, head: int, start: int, blk: Blocks, fl: seq<int>)
    requires Inv(m, head, start, blk, fl)
    ensures forall c | c in blk :: c < |m|
  {
    forall c | c in blk
      ensures c < |m|
    {
      assert Within(c, blk[c], start, |m|);
    }
  }

  // One step of the walk leads from a block to its right neighbour or to the break.
  lemma WalkNext(m: Memory, head: int, start: int, blk: Blocks, fl: seq<int>, a: int)
    requires Inv(m, head, start, blk, fl) && a in blk
    ensures var b := End(a, blk[a]);
            && a < b <= |m| && (b in blk || b == |m|) && Walk(m, a) == [a] + Walk(m, b)
            && forall c | c in blk && a <= c :: c == a || b <= c
  {
    assert Tiling(blk, start, |m|);
    hide Inv, Tiling, Headers, Walk;
    ListedHeader(m, head, start, blk, fl, a);
    RightNeighbour(blk, start, |m|, a);
    WalkHeader(m, a, blk[a]);
  }

  lemma RightNeighbour(blk: Blocks, start: int, brk: int, a: int)
    requires Tiling(blk, start, brk) && a in blk
    ensures End(a, blk[a]) in blk || End(a, blk[a]) == brk
    ensures forall c | c in blk && a <= c :: c == a || End(a, blk[a]) <= c
  {
    assert Continues(blk, brk, a);
  }

  lemma WalkHeader(m: Memory, a: int, b: Block)
    requires HeaderOk(m, a, b)
    ensures Walk(m, a) == [a] + Walk(m, End(a, b))
  {
  }

  // A walk that continues behind the block at a, with a put in front.
  lemma Prepended(a: int, b: int, v: seq<int>, blk: Blocks)
    requires |v| > 0 && v[0] == b && a < b && a in blk
    requires forall i, j | 0 <= i < j < |v| :: v[i] < v[j]
    requires forall c :: c in v[..|v| - 1] <==> c in blk && b <= c
    requires forall c | c in blk && a <= c :: c == a || b <= c
    ensures var w := [a] + v;
            && w[|w| - 1] == v[|v| - 1]
            && (forall i, j | 0 <= i < j < |w| :: w[i] < w[j])
            && (forall c :: c in w[..|w| - 1] <==> c in blk && a <= c)
  {
    var w := [a] + v;
    assert w[..|w| - 1] == [a] + v[..|v| - 1];
    forall c
      ensures c in w[..|w| - 1] <==> c in blk && a <= c
    {
      assert c in w[..|w| - 1] <==> c == a || c in v[..|v| - 1];
    }
  }

  // The nodes met by following `after` from a node until NULL are exactly `nodes`.
  ghost predicate Chain(m: Memory, a: int, nodes: seq<int>)
    decreases |nodes|
  {
    if nodes == [] then a == NULL
    else a == nodes[0] && 0 < a && a + STRUCT_SIZE <= |m| && Chain(m, m[a + AFTER], nodes[1..])
  }

  // `before` undoes `after` at a, and the other way round, without leaving the list.
  ghost predicate Mutual(m: Memory, fl: seq<int>, a: int) {
    && 0 < a && a + STRUCT_SIZE <= |m|
    && var b, n := m[a + BEFORE], m[a + AFTER];
       && (n != NULL ==> n in fl && 0 < n && n + STRUCT_SIZE <= |m| && m[n + BEFORE] == a)
       && (b != NULL ==> b in fl && 0 < b && b + STRUCT_SIZE <= |m| && m[b + AFTER] == a)
  }

  // The list from `head` reaches NULL and meets every free block exactly once and nothing
  // else; its links are mutually inverse.
  lemma ListIsExactlyTheFreeBlocks(m: Memory, head: int, start: int, blk: Blocks, fl: seq<int>)
    requires Inv(m, head, start, blk, fl)
    ensures Chain(m, head, fl)
    ensures forall i, j | 0 <= i < j < |fl| :: fl[i] != fl[j]
    ensures forall a :: a in fl <==> a in blk && 0 <= a + FREE < |m| && m[a + FREE] == 1
    ensures forall a | a in fl :: Mutual(m, fl, a)
  {
    hide Tiling, Headers, Links, Listed, Mutual, Chain;
    ChainFrom(m, head, fl, 0);
    assert fl[0..] == fl;
    HeadFirst(m, head, fl);
    FlagsTellFree(m, blk, fl);
    ListMutual(m, head, fl);
  }

  lemma HeadFirst(m: Memory, head: int, fl: seq<int>)
    requires Links(m, head, fl)
    ensures head == First(fl)
  {
  }

  lemma ListMutual(m: Memory, head: int, fl: seq<int>)
    requires Links(m, head, fl)
    ensures forall i, j | 0 <= i < j < |fl| :: fl[i] != fl[j]
    ensures forall a | a in fl :: Mutual(m, fl, a)
  {
    forall i, j | 0 <= i < j < |fl|
      ensures fl[i] != fl[j]
    {
      assert Apart(fl[i], fl[j]);
    }
    forall a | a in fl
      ensures Mutual(m, fl, a)
    {
      var i :| 0 <= i < |fl| && fl[i] == a;
      assert LinkOk(m, fl, i);
      assert i > 0 ==> LinkOk(m, fl, i - 1) && fl[i - 1] in fl;
      assert i + 1 < |fl| ==> LinkOk(m, fl, i + 1) && fl[i + 1] in fl;
    }
  }

  lemma FlagsTellFree(m: Memory, blk: Blocks, fl: seq<int>)
    requires Headers(m, blk) && Listed(blk, fl)
    ensures forall a :: a in fl <==> a in blk && 0 <= a + FREE < |m| && m[a + FREE] == 1
  {
    forall a
      ensures a in fl <==> a in blk && 0 <= a + FREE < |m| && m[a + FREE] == 1
    {
      assert a in blk ==> HeaderOk(m, a, blk[a]);
    }
  }

  lemma {:induction false} ChainFrom(m: Memory, head: int, fl: seq<int>, i: nat)
    requires Links(m, head, fl)
    requires i <= |fl|
    ensures Chain(m, if i < |fl| then fl[i] else NULL, fl[i..])
    decreases |fl| - i
  {
    if i < |fl| {
      assert LinkOk(m, fl, i);
      assert fl[i..][1..] == fl[i + 1..];
      ChainFrom(m, head, fl, i + 1);
    }
  }

  ghost predicate Disjoint(lo: int, hi: int, lo': int, hi': int) {
    hi <= lo' || hi' <= lo
  }

  // A live payload overlaps no other live payload and no header or footer at all.
  lemma PayloadsAreSafe(m: Memory, head: int, start: int, blk: Blocks, fl: seq<int>, x: int, c: int)
    requires Inv(m, head, start, blk, fl)
    requires x in Ledger(m, blk) && c in blk
    ensures var lo := x + STRUCT_SIZE;
            var hi := lo + |Ledger(m, blk)[x]|;
            && start <= lo && hi <= |m|
            && Disjoint(lo, hi, c, c + STRUCT_SIZE)
            && Disjoint(lo, hi, End(c, blk[c]) - DATA_SIZE_SIZE, End(c, blk[c]))
            && (c in Ledger(m, blk) && c != x ==>
                  Disjoint(lo, hi, c + STRUCT_SIZE, c + STRUCT_SIZE + |Ledger(m, blk)[c]|))
  {
    ListedHeader(m, head, start, blk, fl, x);
    ListedHeader(m, head, start, blk, fl, c);
    assert x < c ==> End(x, blk[x]) <= c;
    assert c < x ==> End(c, blk[c]) <= x;
  }
}
