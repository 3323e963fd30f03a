/**
 The kernel heap as a value: the list of blocks that tile the heap's frames,
 and what splitting, first-fit allocation, freeing and coalescing do to it.
 */
module HeapSpec {
  const HEADER: nat := 16                // BLOCK_HEADER_SIZE: four 32-bit fields
  const MIN_SPLIT: nat := 8

  datatype Block = Block(addr: nat, size: nat, free: bool)

  function End(b: Block): nat { b.addr + HEADER + b.size }
  function Payload(b: Block): nat { b.addr + HEADER }

  /** Addresses ascend and blocks do not overlap. */
  ghost predicate Ordered(bs: seq<Block>) {
    forall i, j :: 0 <= i < j < |bs| ==> End(bs[i]) <= bs[j].addr
  }

  ghost predicate Aligned(bs: seq<Block>) {
    forall b :: b in bs ==> b.addr % 4 == 0 && b.size % 4 == 0
  }

  predicate Contains(b: Block, x: nat) { b.addr <= x < End(b) }

  ghost predicate Covered(bs: seq<Block>, x: nat) {
    exists k :: 0 <= k < |bs| && Contains(bs[k], x)
  }

  ghost predicate SameCover(bs: seq<Block>, cs: seq<Block>) {
    forall x: nat :: Covered(bs, x) <==> Covered(cs, x)
  }

  function TotalBytes(bs: seq<Block>): nat {
    if bs == [] then 0 else HEADER + bs[0].size + TotalBytes(bs[1..])
  }

  /** The blocks handed out, as a set: address and size of each. */
  ghost function Live(bs: seq<Block>): set<Block> {
    set b | b in bs && !b.free
  }

  // ---------------------------------------------------------------- coalescing

  predicate Mergeable(a: Block, b: Block) { a.free && b.free && End(a) == b.addr }

  function Merge(a: Block, b: Block): Block { Block(a.addr, a.size + HEADER + b.size, a.free) }

  /** One forward pass: absorb the next block as long as it is free and adjacent, then move on. */
  function Coalesce(bs: seq<Block>): seq<Block>
    decreases |bs|
  {
    if |bs| < 2 then bs
    else if Mergeable(bs[0], bs[1]) then Coalesce([Merge(bs[0], bs[1])] + bs[2..])
    else [bs[0]] + Coalesce(bs[1..])
  }

  ghost predicate NoAdjacentFree(bs: seq<Block>) {
    forall k :: 0 <= k < |bs| - 1 ==> !Mergeable(bs[k], bs[k + 1])
  }

  lemma {:induction false} CoalesceHead(bs: seq<Block>)
    requires bs != []
    ensures Coalesce(bs) != []
    ensures Coalesce(bs)[0].addr == bs[0].addr && Coalesce(bs)[0].free == bs[0].free
    ensures |Coalesce(bs)| <= |bs|
    decreases |bs|
  {
    if |bs| >= 2 {
      if Mergeable(bs[0], bs[1]) {
        CoalesceHead([Merge(bs[0], bs[1])] + bs[2..]);
      } else {
        CoalesceHead(bs[1..]);
      }
    }
  }

  /** One pass is enough: afterwards no two list neighbours are both free and adjacent. */
  lemma {:induction false} CoalesceSuffices(bs: seq<Block>)
    ensures NoAdjacentFree(Coalesce(bs))
    decreases |bs|
  {
    if |bs| >= 2 {
      if Mergeable(bs[0], bs[1]) {
        CoalesceSuffices([Merge(bs[0], bs[1])] + bs[2..]);
      } else {
        var rest := Coalesce(bs[1..]);
        CoalesceSuffices(bs[1..]);
        CoalesceHead(bs[1..]);
        var all := [bs[0]] + rest;
        forall k | 0 <= k < |all| - 1 ensures !Mergeable(all[k], all[k + 1]) {
          if k > 0 {
            assert all[k] == rest[k - 1] && all[k + 1] == rest[k];
          }
        }
      }
    }
  }

  /** What any step of a coalescing pass, and so the whole pass, leaves alone. */
  ghost predicate Rearranged(bs: seq<Block>, cs: seq<Block>) {
    && Tiles(bs, cs)
    && Live(bs) == Live(cs)
    && (forall x: nat :: FreeByte(bs, x) <==> FreeByte(cs, x))
  }

  /** Byte `x` lies in a free block, header included. */
  ghost predicate FreeByte(bs: seq<Block>, x: nat) {
    exists k :: 0 <= k < |bs| && bs[k].free && Contains(bs[k], x)
  }

  lemma CoverOfConcat(p: seq<Block>, q: seq<Block>, x: nat)
    ensures Covered(p + q, x) <==> Covered(p, x) || Covered(q, x)
    ensures FreeByte(p + q, x) <==> FreeByte(p, x) || FreeByte(q, x)
  {
    var s := p + q;
    if Covered(p, x) {
      var k :| 0 <= k < |p| && Contains(p[k], x);
      assert s[k] == p[k];
    }
    if Covered(q, x) {
      var k :| 0 <= k < |q| && Contains(q[k], x);
      assert s[|p| + k] == q[k];
    }
    if FreeByte(p, x) {
      var k :| 0 <= k < |p| && p[k].free && Contains(p[k], x);
      assert s[k] == p[k];
    }
    if FreeByte(q, x) {
      var k :| 0 <= k < |q| && q[k].free && Contains(q[k], x);
      assert s[|p| + k] == q[k];
    }
  }

  lemma {:induction false} BytesOfConcat(p: seq<Block>, q: seq<Block>)
    ensures TotalBytes(p + q) == TotalBytes(p) + TotalBytes(q)
  {
    if p == [] {
      assert p + q == q;
    } else {
      BytesOfConcat(p[1..], q);
      assert (p + q)[1..] == p[1..] + q;
    }
  }

  /** Blocks keep tiling the same bytes. */
  ghost predicate Tiles(bs: seq<Block>, cs: seq<Block>) {
    Ordered(cs) && Aligned(cs) && SameCover(bs, cs) && TotalBytes(bs) == TotalBytes(cs)
  }

  lemma ReplaceTiles(p: seq<Block>, m: seq<Block>, m': seq<Block>, q: seq<Block>)
    requires Ordered(p + m + q) && Aligned(p + m + q) && Tiles(m, m')
    ensures Tiles(p + m + q, p + m' + q)
  {
    BytesOfConcat(p + m, q);
    BytesOfConcat(p, m);
    BytesOfConcat(p + m', q);
    BytesOfConcat(p, m');
    forall x: nat ensures Covered(p + m + q, x) <==> Covered(p + m' + q, x) {
      CoverOfConcat(p + m, q, x);
      CoverOfConcat(p, m, x);
      CoverOfConcat(p + m', q, x);
      CoverOfConcat(p, m', x);
    }
    ReplaceKeepsOrder(p, m, m', q);
  }

  /** Replacing a stretch `m` of the list by `m'` that covers, frees and hands out the same. */
  lemma ReplaceMiddle(p: seq<Block>, m: seq<Block>, m': seq<Block>, q: seq<Block>)
    requires Ordered(p + m + q) && Aligned(p + m + q)
    requires Rearranged(m, m')
    ensures Rearranged(p + m + q, p + m' + q)
  {
    var bs, cs := p + m + q, p + m' + q;
    ReplaceTiles(p, m, m', q);
    forall x: nat ensures FreeByte(bs, x) <==> FreeByte(cs, x) {
      CoverOfConcat(p + m, q, x);
      CoverOfConcat(p, m, x);
      CoverOfConcat(p + m', q, x);
      CoverOfConcat(p, m', x);
    }
    assert forall b :: b in cs <==> b in p || b in m' || b in q;
    assert forall b :: b in bs <==> b in p || b in m || b in q;
    assert forall b :: b in Live(m) <==> b in Live(m');
    assert forall b :: b in Live(cs) <==> b in Live(p) || b in Live(m') || b in Live(q);
    assert forall b :: b in Live(bs) <==> b in Live(p) || b in Live(m) || b in Live(q);
  }

  /** A block of the new middle lies where blocks of the old middle lay: after `p` and before `q`. */
  lemma MiddleStays(p: seq<Block>, m: seq<Block>, m': seq<Block>, q: seq<Block>, k: nat)
    requires Ordered(p + m + q) && SameCover(m, m') && k < |m'|
    ensures forall i :: 0 <= i < |p| ==> End(p[i]) <= m'[k].addr
    ensures forall i :: 0 <= i < |q| ==> End(m'[k]) <= q[i].addr
  {
    var bs, b := p + m + q, m'[k];
    assert Contains(m'[k], b.addr) && Contains(m'[k], End(b) - 1);
    assert Covered(m', b.addr) && Covered(m', End(b) - 1);
    var u :| 0 <= u < |m| && Contains(m[u], b.addr);
    var v :| 0 <= v < |m| && Contains(m[v], End(b) - 1);
    assert bs[|p| + u] == m[u] && bs[|p| + v] == m[v];
    forall i | 0 <= i < |p| ensures End(p[i]) <= b.addr { assert bs[i] == p[i]; }
    forall i | 0 <= i < |q| ensures End(b) <= q[i].addr { assert bs[|p| + |m| + i] == q[i]; }
  }

  lemma OuterOrder(p: seq<Block>, m: seq<Block>, q: seq<Block>)
    requires Ordered(p + m + q)
    ensures Ordered(p) && Ordered(q)
    ensures forall i, j :: 0 <= i < |p| && 0 <= j < |q| ==> End(p[i]) <= q[j].addr
  {
    var bs := p + m + q;
    assert forall i :: 0 <= i < |p| ==> bs[i] == p[i];
    assert forall i :: 0 <= i < |q| ==> bs[|p| + |m| + i] == q[i];
  }

  lemma ReplaceKeepsOrder(p: seq<Block>, m: seq<Block>, m': seq<Block>, q: seq<Block>)
    requires Ordered(p + m + q) && Ordered(m') && SameCover(m, m')
    ensures Ordered(p + m' + q)
  {
    hide SameCover;
    OuterOrder(p, m, q);
    forall k: nat | k < |m'|
      ensures forall i :: 0 <= i < |p| ==> End(p[i]) <= m'[k].addr
      ensures forall i :: 0 <= i < |q| ==> End(m'[k]) <= q[i].addr
    {
      MiddleStays(p, m, m', q, k);
    }
  }

  lemma MergeRearranges(a: Block, b: Block)
    requires Mergeable(a, b) && Aligned([a, b])
    ensures Rearranged([a, b], [Merge(a, b)])
  {
    var m := Merge(a, b);
    assert [a, b][0] == a && [a, b][1] == b && [m][0] == m;
    forall x: nat ensures Covered([a, b], x) <==> Covered([m], x) ensures FreeByte([a, b], x) <==> FreeByte([m], x) {
      assert Contains(m, x) <==> Contains(a, x) || Contains(b, x);
      CoverOfOne(m, x);
      CoverOfConcat([a], [b], x);
      CoverOfOne(a, x);
      CoverOfOne(b, x);
      assert [a] + [b] == [a, b];
    }
    assert TotalBytes([a, b]) == TotalBytes([m]) by {
      assert [a, b][1..] == [b] && [b][1..] == [] && [m][1..] == [];
    }
    assert Live([a, b]) == {} && Live([m]) == {};
  }

  lemma CoverOfOne(b: Block, x: nat)
    ensures Covered([b], x) <==> Contains(b, x)
    ensures FreeByte([b], x) <==> b.free && Contains(b, x)
  {
    assert [b][0] == b;
  }

  lemma RearrangedTwice(bs: seq<Block>, cs: seq<Block>, ds: seq<Block>)
    requires Rearranged(bs, cs) && Rearranged(cs, ds)
    ensures Rearranged(bs, ds)
  {
    hide Covered; hide FreeByte; hide Live; hide TotalBytes; hide Ordered; hide Aligned;
  }

  lemma RearrangedRefl(bs: seq<Block>)
    requires Ordered(bs) && Aligned(bs)
    ensures Rearranged(bs, bs)
  {
  }

  lemma RearrangedShape(bs: seq<Block>, cs: seq<Block>)
    requires Rearranged(bs, cs)
    ensures Ordered(cs) && Aligned(cs)
  {
  }

  lemma MergeFront(bs: seq<Block>)
    requires Ordered(bs) && Aligned(bs) && |bs| >= 2 && Mergeable(bs[0], bs[1])
    ensures Rearranged(bs, [Merge(bs[0], bs[1])] + bs[2..])
  {
    hide Rearranged; hide Ordered;
    assert [] + [bs[0], bs[1]] + bs[2..] == bs;
    MergeRearranges(bs[0], bs[1]);
    ReplaceMiddle([], [bs[0], bs[1]], [Merge(bs[0], bs[1])], bs[2..]);
    assert [] + [Merge(bs[0], bs[1])] + bs[2..] == [Merge(bs[0], bs[1])] + bs[2..];
  }

  lemma KeepFront(bs: seq<Block>, cs: seq<Block>)
    requires Ordered(bs) && Aligned(bs) && bs != [] && Rearranged(bs[1..], cs)
    ensures Rearranged(bs, [bs[0]] + cs)
  {
    hide Rearranged; hide Ordered; hide Aligned;
    assert [bs[0]] + bs[1..] + [] == bs;
    ReplaceMiddle([bs[0]], bs[1..], cs, []);
    assert [bs[0]] + cs + [] == [bs[0]] + cs;
  }

  lemma TailShape(bs: seq<Block>)
    requires Ordered(bs) && Aligned(bs) && bs != []
    ensures Ordered(bs[1..]) && Aligned(bs[1..])
  {
  }

  /** The pass changes neither the bytes covered, nor the bytes free, nor the blocks handed out. */
  lemma {:induction false} CoalesceRearranges(bs: seq<Block>)
    requires Ordered(bs) && Aligned(bs)
    ensures Rearranged(bs, Coalesce(bs))
    decreases |bs|
  {
    hide Rearranged; hide Ordered; hide Aligned;
    if |bs| < 2 {
      RearrangedRefl(bs);
    } else if Mergeable(bs[0], bs[1]) {
      var cs := [Merge(bs[0], bs[1])] + bs[2..];
      MergeFront(bs);
      RearrangedShape(bs, cs);
      CoalesceRearranges(cs);
      RearrangedTwice(bs, cs, Coalesce(bs));
    } else {
      TailShape(bs);
      CoalesceRearranges(bs[1..]);
      KeepFront(bs, Coalesce(bs[1..]));
    }
  }

  // ---------------------------------------------------------------- allocation and release

  /** The first free block with at least `n` bytes, or |bs|. */
  function FirstFit(bs: seq<Block>, n: nat): (k: nat)
    ensures k <= |bs|
    ensures k < |bs| ==> bs[k].free && bs[k].size >= n
    ensures forall i :: 0 <= i < k ==> !(bs[i].free && bs[i].size >= n)
  {
    if bs == [] then 0
    else if bs[0].free && bs[0].size >= n then 0
    else
      var k := FirstFit(bs[1..], n);
      assert forall i :: 1 <= i < |bs| ==> bs[i] == bs[1..][i - 1];
      1 + k
  }

  /** What block `k` becomes when `n` bytes of it are handed out: itself, or the used part and the rest. */
  function Carved(b: Block, n: nat): (cs: seq<Block>)
    requires b.size >= n
    ensures |cs| >= 1 && cs[0].addr == b.addr && cs[0].size >= n && !cs[0].free
  {
    if b.size <= n + HEADER + MIN_SPLIT then [b.(free := false)]
    else [Block(b.addr, n, false), Block(b.addr + HEADER + n, b.size - n - HEADER, true)]
  }

  function HandOut(bs: seq<Block>, k: nat, n: nat): seq<Block>
    requires k < |bs| && bs[k].size >= n
  {
    bs[..k] + Carved(bs[k], n) + bs[k + 1..]
  }

  function Release(bs: seq<Block>, k: nat): seq<Block>
    requires k < |bs|
  {
    Coalesce(bs[k := bs[k].(free := true)])
  }

  lemma CarvedTiles(b: Block, n: nat)
    requires b.size >= n && b.addr % 4 == 0 && b.size % 4 == 0 && n % 4 == 0
    ensures Tiles([b], Carved(b, n))
  {
    var cs := Carved(b, n);
    forall x: nat ensures Covered([b], x) <==> Covered(cs, x) {
      CoverOfOne(b, x);
      if |cs| == 1 {
        CoverOfOne(cs[0], x);
        assert cs == [cs[0]];
      } else {
        CoverOfOne(cs[0], x);
        CoverOfOne(cs[1], x);
        CoverOfConcat([cs[0]], [cs[1]], x);
        assert cs == [cs[0]] + [cs[1]];
        assert Contains(b, x) <==> Contains(cs[0], x) || Contains(cs[1], x);
      }
    }
    assert [b][1..] == [] && cs[|cs| - 1..][1..] == [];
    if |cs| == 2 { assert cs[1..] == [cs[1]]; }
  }

  /** Allocation keeps the tiling and hands out exactly one new block, at the address of the block it fits in. */
  lemma AllocTiles(bs: seq<Block>, k: nat, n: nat)
    requires Ordered(bs) && Aligned(bs) && k < |bs| && bs[k].free && bs[k].size >= n && n % 4 == 0
    ensures Tiles(bs, HandOut(bs, k, n))
    ensures Live(HandOut(bs, k, n)) == Live(bs) + {Carved(bs[k], n)[0]}
    ensures forall b :: b in Live(bs) ==> b.addr != bs[k].addr
  {
    var p, q, cs := bs[..k], bs[k + 1..], Carved(bs[k], n);
    assert bs == p + [bs[k]] + q;
    assert bs[k] in bs;
    CarvedTiles(bs[k], n);
    ReplaceTiles(p, [bs[k]], cs, q);
    AllocLive(bs, k, n);
  }

  lemma AllocLive(bs: seq<Block>, k: nat, n: nat)
    requires Ordered(bs) && k < |bs| && bs[k].free && bs[k].size >= n
    ensures Live(HandOut(bs, k, n)) == Live(bs) + {Carved(bs[k], n)[0]}
    ensures forall b :: b in Live(bs) ==> b.addr != bs[k].addr
  {
    var p, q, cs := bs[..k], bs[k + 1..], Carved(bs[k], n);
    assert bs == p + [bs[k]] + q;
    assert forall b :: b in HandOut(bs, k, n) <==> b in p || b in cs || b in q;
    assert forall b :: b in bs <==> b in p || b == bs[k] || b in q;
    forall b | b in Live(bs) ensures b.addr != bs[k].addr {
      var i :| 0 <= i < |bs| && bs[i] == b;
      DistinctAddresses(bs, i, k);
    }
  }

  /** Splitting does not create adjacent free neighbours. */
  lemma AllocKeepsMerged(bs: seq<Block>, k: nat, n: nat)
    requires k < |bs| && bs[k].free && bs[k].size >= n && NoAdjacentFree(bs)
    ensures NoAdjacentFree(HandOut(bs, k, n))
  {
    var cs := HandOut(bs, k, n);
    var d := |Carved(bs[k], n)| - 1;
    assert forall i :: 0 <= i < k ==> cs[i] == bs[i];
    assert forall i :: k + d < i < |cs| ==> cs[i] == bs[i - d];
    forall i | 0 <= i < |cs| - 1 ensures !Mergeable(cs[i], cs[i + 1]) {
      if i + 1 < k {
        assert !Mergeable(bs[i], bs[i + 1]);
      } else if i > k + d {
        assert !Mergeable(bs[i - d], bs[i - d + 1]);
      } else if i == k + d && d == 1 {
        assert !Mergeable(bs[k], bs[k + 1]);
      }
    }
  }

  /** Freeing a block keeps the tiling, takes exactly that block back and leaves nothing to merge. */
  lemma ReleaseTiles(bs: seq<Block>, k: nat)
    requires Ordered(bs) && Aligned(bs) && k < |bs| && !bs[k].free
    ensures Tiles(bs, Release(bs, k))
    ensures Live(Release(bs, k)) == Live(bs) - {bs[k]}
    ensures NoAdjacentFree(Release(bs, k))
  {
    var m := bs[k := bs[k].(free := true)];
    MarkFree(bs, k);
    CoalesceRearranges(m);
    CoalesceSuffices(m);
  }

  lemma MarkFree(bs: seq<Block>, k: nat)
    requires Ordered(bs) && Aligned(bs) && k < |bs| && !bs[k].free
    ensures var m := bs[k := bs[k].(free := true)];
            Tiles(bs, m) && Live(m) == Live(bs) - {bs[k]}
  {
    var b, c := bs[k], bs[k].(free := true);
    var p, q := bs[..k], bs[k + 1..];
    assert bs == p + [b] + q && bs[k := c] == p + [c] + q;
    assert b in bs;
    assert Tiles([b], [c]) by {
      forall x: nat ensures Covered([b], x) <==> Covered([c], x) {
        CoverOfOne(b, x);
        CoverOfOne(c, x);
      }
      assert [b][1..] == [] && [c][1..] == [];
    }
    ReplaceTiles(p, [b], [c], q);
    MarkFreeLive(bs, k);
  }

  lemma MarkFreeLive(bs: seq<Block>, k: nat)
    requires Ordered(bs) && k < |bs| && !bs[k].free
    ensures Live(bs[k := bs[k].(free := true)]) == Live(bs) - {bs[k]}
  {
    var m := bs[k := bs[k].(free := true)];
    forall x | x in Live(bs) && x != bs[k] ensures x in Live(m) {
      var i :| 0 <= i < |bs| && bs[i] == x;
      assert m[i] == x;
    }
    forall x | x in Live(m) ensures x in Live(bs) && x != bs[k] {
      var i :| 0 <= i < |m| && m[i] == x;
      assert i != k && bs[i] == x;
      DistinctAddresses(bs, i, k);
    }
  }

  lemma DistinctAddresses(bs: seq<Block>, i: nat, k: nat)
    requires Ordered(bs) && i < |bs| && k < |bs| && i != k
    ensures bs[i].addr != bs[k].addr
  {
    var lo, hi := if i < k then i else k, if i < k then k else i;
    assert End(bs[lo]) <= bs[hi].addr;
  }

  // ---------------------------------------------------------------- when allocation fails

  ghost predicate FreeRun(bs: seq<Block>, a: nat, len: nat) {
    forall x: nat :: a <= x < a + len ==> FreeByte(bs, x)
  }

  /** The block holding the byte right after block `k` is the next one, and starts there. */
  lemma NextBlock(bs: seq<Block>, k: nat, m: nat)
    requires Ordered(bs) && k < |bs| && m < |bs| && Contains(bs[m], End(bs[k]))
    ensures m == k + 1 && bs[m].addr == End(bs[k])
  {
    if k + 1 < |bs| {
      assert End(bs[k]) <= bs[k + 1].addr;
    }
  }

  lemma FreeStopsAfter(bs: seq<Block>, k: nat)
    requires Ordered(bs) && NoAdjacentFree(bs) && k < |bs| && bs[k].free
    ensures !FreeByte(bs, End(bs[k]))
  {
    forall m | 0 <= m < |bs| && Contains(bs[m], End(bs[k])) ensures !bs[m].free {
      NextBlock(bs, k, m);
      assert !Mergeable(bs[k], bs[k + 1]);
    }
  }

  /** A run of free bytes lies inside one block once nothing is left to merge. */
  lemma RunFits(bs: seq<Block>, a: nat, n: nat)
    requires Ordered(bs) && NoAdjacentFree(bs) && FreeRun(bs, a, HEADER + n)
    ensures FirstFit(bs, n) < |bs|
  {
    assert FreeByte(bs, a);
    var i :| 0 <= i < |bs| && bs[i].free && Contains(bs[i], a);
    FreeStopsAfter(bs, i);
    assert bs[i].size >= n;
  }

  /** Allocation fails exactly when no contiguous run of free bytes holds the header and the request. */
  lemma FailsIffNoRun(bs: seq<Block>, n: nat, len: nat)
    requires Ordered(bs) && NoAdjacentFree(bs) && len == HEADER + n
    ensures FirstFit(bs, n) == |bs| <==> !exists a: nat :: FreeRun(bs, a, len)
  {
    var k := FirstFit(bs, n);
    if k < |bs| {
      forall x: nat | bs[k].addr <= x < bs[k].addr + len ensures FreeByte(bs, x) {
        assert Contains(bs[k], x);
      }
      assert FreeRun(bs, bs[k].addr, len);
    }
    forall a: nat | FreeRun(bs, a, len) ensures FirstFit(bs, n) < |bs| {
      RunFits(bs, a, n);
    }
  }

  // ---------------------------------------------------------------- the canonical list

  ghost predicate AllFree(bs: seq<Block>) { forall b :: b in bs ==> b.free }

  lemma EmptyCover(cs: seq<Block>)
    requires forall x: nat :: !Covered(cs, x)
    ensures cs == []
  {
    assert cs == [] || (Contains(cs[0], cs[0].addr) && Covered(cs, cs[0].addr));
  }

  /** Free lists with nothing left to merge are equal as soon as they cover the same bytes. */
  lemma {:induction false} MergedListIsUnique(bs: seq<Block>, cs: seq<Block>)
    requires Ordered(bs) && AllFree(bs) && NoAdjacentFree(bs)
    requires Ordered(cs) && AllFree(cs) && NoAdjacentFree(cs)
    requires SameCover(bs, cs)
    ensures bs == cs
  {
    if bs == [] {
      EmptyCover(cs);
    } else {
      assert Contains(bs[0], bs[0].addr);
      assert Covered(bs, bs[0].addr);
      assert cs != [];
      HeadStartsNoLater(bs, cs);
      HeadStartsNoLater(cs, bs);
      HeadEndsNoLater(bs, cs);
      HeadEndsNoLater(cs, bs);
      assert bs[0] in bs && cs[0] in cs;
      forall x: nat ensures Covered(bs[1..], x) <==> Covered(cs[1..], x) {
        TailCover(bs, x);
        TailCover(cs, x);
      }
      assert forall i :: 0 <= i < |bs| - 1 ==> bs[1..][i] == bs[i + 1];
      assert forall i :: 0 <= i < |cs| - 1 ==> cs[1..][i] == cs[i + 1];
      MergedListIsUnique(bs[1..], cs[1..]);
    }
  }

  lemma HeadStartsNoLater(bs: seq<Block>, cs: seq<Block>)
    requires Ordered(bs) && Ordered(cs) && SameCover(bs, cs) && bs != [] && cs != []
    ensures cs[0].addr <= bs[0].addr
  {
    assert Contains(bs[0], bs[0].addr);
    assert Covered(bs, bs[0].addr);
    var k :| 0 <= k < |cs| && Contains(cs[k], bs[0].addr);
    if k > 0 { assert End(cs[0]) <= cs[k].addr; }
  }

  lemma HeadEndsNoLater(bs: seq<Block>, cs: seq<Block>)
    requires Ordered(bs) && AllFree(bs) && NoAdjacentFree(bs) && Ordered(cs) && SameCover(bs, cs)
    requires bs != [] && cs != [] && bs[0].addr == cs[0].addr
    ensures End(cs[0]) <= End(bs[0])
  {
    var e := End(bs[0]);
    assert bs[0] in bs;
    FreeStopsAfter(bs, 0);
    assert forall m :: 0 <= m < |bs| ==> bs[m] in bs;
    assert Covered(bs, e) ==> FreeByte(bs, e);
    assert Contains(cs[0], e) ==> Covered(cs, e);
  }

  lemma TailCover(bs: seq<Block>, x: nat)
    requires Ordered(bs) && bs != []
    ensures Covered(bs[1..], x) <==> Covered(bs, x) && !Contains(bs[0], x)
  {
    CoverOfConcat([bs[0]], bs[1..], x);
    CoverOfOne(bs[0], x);
    assert [bs[0]] + bs[1..] == bs;
    if Covered(bs[1..], x) {
      var k :| 0 <= k < |bs[1..]| && Contains(bs[1..][k], x);
      assert End(bs[0]) <= bs[k + 1].addr;
    }
  }
}
