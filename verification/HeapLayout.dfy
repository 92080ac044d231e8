/**
 * The heap of malloc/alloc.c as values: the memory words, the address-order tiling of
 * the heap range by blocks, and the explicit free list threaded through the headers.
 *
 * An address is an integer and memory is a sequence of cells, so `|mem|` is the program
 * break. A header field, a footer and a payload byte each live in the cell at their
 * lowest address; the constants are those of the LP64 layout of `data_node`.
 */
module HeapLayout {
  const STRUCT_SIZE: nat := 32
  const DATA_SIZE_SIZE: nat := 8
  const OVERHEAD: nat := STRUCT_SIZE + DATA_SIZE_SIZE

  // Offsets of the fields of data_node; `size` is at offset 0.
  const BEFORE: nat := 8
  const AFTER: nat := 16
  const FREE: nat := 24

  const NULL: int := 0

  type Memory = seq<int>

  datatype Block = Block(size: nat, free: bool)

  // Keyed by the address of the block's header.
  type Blocks = map<int, Block>

  function End(a: int, b: Block): int {
    a + STRUCT_SIZE + b.size + DATA_SIZE_SIZE
  }

  ghost predicate Within(a: int, b: Block, start: int, brk: int) {
    start <= a && End(a, b) <= brk
  }

  ghost predicate Continues(blk: Blocks, brk: int, a: int)
    requires a in blk
  {
    End(a, blk[a]) == brk || End(a, blk[a]) in blk
  }

  // The blocks tile [start, brk): they are disjoint and leave no gap.
  ghost predicate Tiling(blk: Blocks, start: int, brk: int) {
    && start <= brk
    && (start < brk ==> start in blk)
    && (forall a | a in blk :: Within(a, blk[a], start, brk))
    && (forall a, b | a in blk && b in blk && a < b :: End(a, blk[a]) <= b)
    && (forall a {:trigger Continues(blk, brk, a)} | a in blk :: Continues(blk, brk, a))
  }

  ghost predicate HeaderOk(mem: Memory, a: int, b: Block) {
    && 0 < a
    && End(a, b) <= |mem|
    && mem[a] == b.size
    && mem[a + FREE] == (if b.free then 1 else 0)
    && mem[a + STRUCT_SIZE + b.size] == b.size
  }

  // Every header and every footer records its block.
  ghost predicate Headers(mem: Memory, blk: Blocks) {
    forall a | a in blk :: HeaderOk(mem, a, blk[a])
  }

  ghost predicate LinkOk(mem: Memory, fl: seq<int>, i: int)
    requires 0 <= i < |fl|
  {
    && 0 < fl[i]
    && fl[i] + STRUCT_SIZE <= |mem|
    && mem[fl[i] + BEFORE] == Prev(fl, i)
    && mem[fl[i] + AFTER] == Next(fl, i)
  }

  function Prev(fl: seq<int>, i: int): int
    requires 0 <= i < |fl|
  {
    if i == 0 then NULL else fl[i - 1]
  }

  function Next(fl: seq<int>, i: int): int
    requires 0 <= i < |fl|
  {
    if i + 1 < |fl| then fl[i + 1] else NULL
  }

  function First(fl: seq<int>): int {
    if fl == [] then NULL else fl[0]
  }

  // The list from `head` is exactly `fl`, with mutually inverse links; the headers in it
  // do not overlap one another.
  ghost predicate Links(mem: Memory, head: int, fl: seq<int>) {
    && head == First(fl)
    && (forall i | 0 <= i < |fl| :: LinkOk(mem, fl, i))
    && (forall i, j | 0 <= i < j < |fl| :: Apart(fl[i], fl[j]))
  }

  ghost predicate Apart(a: int, b: int) {
    a + STRUCT_SIZE <= b || b + STRUCT_SIZE <= a
  }

  // The list holds exactly the free blocks of the tiling.
  ghost predicate Listed(blk: Blocks, fl: seq<int>) {
    && (forall i | 0 <= i < |fl| :: fl[i] in blk && blk[fl[i]].free)
    && (forall a | a in blk && blk[a].free :: a in fl)
  }

  ghost predicate Inv(mem: Memory, head: int, start: int, blk: Blocks, fl: seq<int>) {
    && Tiling(blk, start, |mem|)
    && Headers(mem, blk)
    && Links(mem, head, fl)
    && Listed(blk, fl)
  }

  // ---------- memory updates ----------

  ghost predicate Same(m: Memory, m': Memory, changed: set<int>) {
    && |m| == |m'|
    && forall y | 0 <= y < |m| && y !in changed :: m'[y] == m[y]
  }

  // What delete_data_node and relist_split do to the neighbours b and a of a node: the
  // predecessor's `after` becomes va and the successor's `before` becomes vb. Cells of
  // `extra` may change as well.
  ghost predicate Spliced(m: Memory, m': Memory, b: int, a: int, va: int, vb: int, extra: set<int>) {
    && |m'| == |m|
    && (forall y | 0 <= y < |m| && !LinkCell(y, b, a) && y !in extra :: m'[y] == m[y])
    && (b != NULL ==> 0 < b && b + STRUCT_SIZE <= |m| && m'[b + AFTER] == va)
    && (a != NULL ==> 0 < a && a + STRUCT_SIZE <= |m| && m'[a + BEFORE] == vb)
  }

  ghost predicate LinkCell(y: int, b: int, a: int) {
    (b != NULL && y == b + AFTER) || (a != NULL && y == a + BEFORE)
  }

  // Only cells of [lo, hi) and the links next to p and n may differ.
  ghost predicate Confined(m: Memory, m': Memory, lo: int, hi: int, p: int, n: int) {
    && |m| <= |m'|
    && forall y | 0 <= y < |m| && !(lo <= y < hi) && !LinkCell(y, p, n) :: m'[y] == m[y]
  }

  function RemoveAt(fl: seq<int>, k: int): (r: seq<int>)
    requires 0 <= k < |fl|
    ensures |r| == |fl| - 1
    ensures forall i | 0 <= i < k :: r[i] == fl[i]
    ensures forall i | k <= i < |r| :: r[i] == fl[i + 1]
  {
    fl[..k] + fl[k + 1..]
  }

  // ---------- the free list ----------

  lemma LinksRemove(m: Memory, m': Memory, head: int, fl: seq<int>, k: int, extra: set<int>)
    requires Links(m, head, fl)
    requires 0 <= k < |fl|
    requires Spliced(m, m', Prev(fl, k), Next(fl, k), Next(fl, k), Prev(fl, k), extra)
    requires forall i | 0 <= i < |fl| :: fl[i] + BEFORE !in extra && fl[i] + AFTER !in extra
    ensures Links(m', if Prev(fl, k) == NULL then Next(fl, k) else head, RemoveAt(fl, k))
  {
    var r := RemoveAt(fl, k);
    forall i | 0 <= i < |r|
      ensures LinkOk(m', r, i)
    {
      LinkRemoved(m, m', head, fl, k, extra, i);
    }
    assert k > 0 ==> LinkOk(m, fl, k - 1);
    forall i, j | 0 <= i < j < |r|
      ensures Apart(r[i], r[j])
    {
      assert Apart(fl[if i < k then i else i + 1], fl[if j < k then j else j + 1]);
    }
  }

  lemma LinkRemoved(m: Memory, m': Memory, head: int, fl: seq<int>, k: int, extra: set<int>, i: int)
    requires Links(m, head, fl)
    requires 0 <= k < |fl| && 0 <= i < |fl| - 1
    requires Spliced(m, m', Prev(fl, k), Next(fl, k), Next(fl, k), Prev(fl, k), extra)
    requires forall i | 0 <= i < |fl| :: fl[i] + BEFORE !in extra && fl[i] + AFTER !in extra
    ensures LinkOk(m', RemoveAt(fl, k), i)
  {
    var j := if i < k then i else i + 1;
    var p, q := Prev(fl, k), Next(fl, k);
    assert LinkOk(m, fl, j);
    // only the two neighbours of k own cells that are spliced
    assert k > 0 && j != k - 1 ==> fl[j] != p && (Apart(fl[j], p) || Apart(p, fl[j]));
    assert k + 1 < |fl| && j != k + 1 ==> fl[j] != q && (Apart(fl[j], q) || Apart(q, fl[j]));
    assert j != k + 1 ==> m'[fl[j] + BEFORE] == m[fl[j] + BEFORE];
    assert j != k - 1 ==> m'[fl[j] + AFTER] == m[fl[j] + AFTER];
  }

  // The neighbours p and q now point at x, and x at them.
  ghost predicate Adopted(m: Memory, p: int, q: int, x: int) {
    && 0 < x && x + STRUCT_SIZE <= |m|
    && m[x + BEFORE] == p && m[x + AFTER] == q
    && (p != NULL ==> 0 < p && p + STRUCT_SIZE <= |m| && m[p + AFTER] == x)
    && (q != NULL ==> 0 < q && q + STRUCT_SIZE <= |m| && m[q + BEFORE] == x)
  }

  ghost predicate Clear(a: int, lo: int, hi: int) {
    a + STRUCT_SIZE <= lo || hi <= a
  }

  // x, inside [lo, hi), takes the place of node k; everything else that changed is there too.
  lemma LinksReplace(m: Memory, m': Memory, head: int, fl: seq<int>, k: int, x: int, lo: int, hi: int)
    requires Links(m, head, fl)
    requires 0 <= k < |fl|
    requires |m| == |m'| && Confined(m, m', lo, hi, Prev(fl, k), Next(fl, k))
    requires Adopted(m', Prev(fl, k), Next(fl, k), x)
    requires lo <= x && x + STRUCT_SIZE <= hi
    requires forall i | 0 <= i < |fl| && i != k :: Clear(fl[i], lo, hi)
    ensures Links(m', if Prev(fl, k) == NULL then x else head, fl[k := x])
  {
    var r := fl[k := x];
    forall i | 0 <= i < |r|
      ensures LinkOk(m', r, i)
    {
      LinkReplaced(m, m', head, fl, k, x, lo, hi, i);
    }
    assert k > 0 ==> LinkOk(m, fl, k - 1);
    forall i, j | 0 <= i < j < |r|
      ensures Apart(r[i], r[j])
    {
      assert i != k && j != k ==> Apart(fl[i], fl[j]);
      assert i != k ==> Clear(fl[i], lo, hi);
      assert j != k ==> Clear(fl[j], lo, hi);
    }
  }

  lemma LinkReplaced(m: Memory, m': Memory, head: int, fl: seq<int>, k: int, x: int, lo: int, hi: int, i: int)
    requires Links(m, head, fl)
    requires 0 <= k < |fl| && 0 <= i < |fl|
    requires |m| == |m'| && Confined(m, m', lo, hi, Prev(fl, k), Next(fl, k))
    requires Adopted(m', Prev(fl, k), Next(fl, k), x)
    requires forall i | 0 <= i < |fl| && i != k :: Clear(fl[i], lo, hi)
    ensures LinkOk(m', fl[k := x], i)
  {
    assert LinkOk(m, fl, i);
    assert i != k ==> Clear(fl[i], lo, hi);
    assert k > 0 && i < k - 1 ==> Apart(fl[i], fl[k - 1]);
    assert k > 0 && i > k ==> Apart(fl[k - 1], fl[i]);
    assert k + 1 < |fl| && i < k ==> Apart(fl[i], fl[k + 1]);
    assert k + 1 < |fl| && i > k + 1 ==> Apart(fl[k + 1], fl[i]);
    assert k > 0 ==> LinkOk(m, fl, k - 1);
    assert k + 1 < |fl| ==> LinkOk(m, fl, k + 1);
  }

  // x, inside [lo, hi), is pushed in front of the list; everything else that changed is
  // there too.
  lemma LinksPush(m: Memory, m': Memory, head: int, fl: seq<int>, x: int, lo: int, hi: int)
    requires Links(m, head, fl)
    requires |m| == |m'| && Confined(m, m', lo, hi, NULL, head)
    requires Adopted(m', NULL, head, x)
    requires lo <= x && x + STRUCT_SIZE <= hi
    requires forall i | 0 <= i < |fl| :: Clear(fl[i], lo, hi)
    ensures Links(m', x, [x] + fl)
  {
    var r := [x] + fl;
    forall i | 0 <= i < |r|
      ensures LinkOk(m', r, i)
    {
      if i > 0 {
        assert LinkOk(m, fl, i - 1);
        assert Clear(fl[i - 1], lo, hi);
        assert i > 1 ==> Apart(fl[0], fl[i - 1]);
      }
    }
    forall i, j | 0 <= i < j < |r|
      ensures Apart(r[i], r[j])
    {
      assert i > 0 ==> Apart(fl[i - 1], fl[j - 1]);
      assert Clear(fl[j - 1], lo, hi);
    }
  }

  ghost predicate SameLinks(m: Memory, m': Memory, a: int) {
    && 0 <= a && a + STRUCT_SIZE <= |m| == |m'|
    && m'[a + BEFORE] == m[a + BEFORE] && m'[a + AFTER] == m[a + AFTER]
  }

  lemma LinksFrame(m: Memory, m': Memory, head: int, fl: seq<int>)
    requires Links(m, head, fl)
    requires |m| == |m'|
    requires forall i | 0 <= i < |fl| :: SameLinks(m, m', fl[i])
    ensures Links(m', head, fl)
  {
    forall i | 0 <= i < |fl|
      ensures LinkOk(m', fl, i)
    {
      assert LinkOk(m, fl, i) && SameLinks(m, m', fl[i]);
    }
  }
}
