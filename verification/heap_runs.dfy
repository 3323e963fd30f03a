/** Whole runs of kmalloc and kfree: what every sequence of calls keeps, and where it ends up. */
module HeapRuns {
  import opened Machine
  import opened HeapSpec

  /** `(size + 3) & ~3` in 32 bits. */
  function Round(size: Word): (n: Word)
    ensures n % 4 == 0
  {
    (size + 3) % 0x1_0000_0000 / 4 * 4
  }

  /** The rounded size holds the request exactly up to 0xFFFFFFFC; above that the rounding wraps to 0. */
  lemma RoundHoldsRequest(size: Word)
    ensures Round(size) >= size <==> size <= 0xFFFF_FFFC
    ensures size <= 0xFFFF_FFFC ==> Round(size) < size + 4
    ensures size > 0xFFFF_FFFC ==> Round(size) == 0
  {
    if size <= 0xFFFF_FFFC {
      assert (size + 3) % 0x1_0000_0000 == size + 3;
    } else {
      assert (size + 3) % 0x1_0000_0000 == size + 3 - 0x1_0000_0000;
    }
  }

  datatype HeapOp = Malloc(size: Word) | Kfree(ptr: nat)

  /** The index of the block handed out at `ptr`, or |bs|. */
  function LiveAt(bs: seq<Block>, ptr: nat): (k: nat)
    ensures k <= |bs|
    ensures k < |bs| ==> !bs[k].free && Payload(bs[k]) == ptr
    ensures k == |bs| ==> forall b :: b in bs && !b.free ==> Payload(b) != ptr
  {
    if bs == [] then 0
    else if !bs[0].free && Payload(bs[0]) == ptr then 0
    else
      assert forall b :: b in bs ==> b == bs[0] || b in bs[1..];
      1 + LiveAt(bs[1..], ptr)
  }

  function MallocStep(bs: seq<Block>, size: Word): seq<Block> {
    var k := FirstFit(bs, Round(size));
    if size == 0 || k == |bs| then bs else HandOut(bs, k, Round(size))
  }

  /** A refused kfree (NULL, or a pointer that is not handed out) leaves the list alone. */
  function StepHeap(bs: seq<Block>, op: HeapOp): seq<Block> {
    match op
    case Malloc(size) => MallocStep(bs, size)
    case Kfree(ptr) => if LiveAt(bs, ptr) < |bs| then Release(bs, LiveAt(bs, ptr)) else bs
  }

  function RunHeap(bs: seq<Block>, ops: seq<HeapOp>): seq<Block> {
    if ops == [] then bs else StepHeap(RunHeap(bs, ops[..|ops| - 1]), ops[|ops| - 1])
  }

  /** Some kfree of the run was given a pointer that was handed out. */
  predicate EverFreed(bs: seq<Block>, ops: seq<HeapOp>) {
    if ops == [] then false
    else
      var n := |ops| - 1;
      EverFreed(bs, ops[..n]) || (ops[n].Kfree? && LiveAt(RunHeap(bs, ops[..n]), ops[n].ptr) < |RunHeap(bs, ops[..n])|)
  }

  lemma StepTiles(bs: seq<Block>, op: HeapOp)
    requires Ordered(bs) && Aligned(bs)
    ensures Tiles(bs, StepHeap(bs, op))
    ensures NoAdjacentFree(bs) ==> NoAdjacentFree(StepHeap(bs, op))
  {
    match op
    case Malloc(size) =>
      var k := FirstFit(bs, Round(size));
      if size != 0 && k < |bs| {
        AllocTiles(bs, k, Round(size));
        if NoAdjacentFree(bs) { AllocKeepsMerged(bs, k, Round(size)); }
      }
    case Kfree(ptr) =>
      if LiveAt(bs, ptr) < |bs| { ReleaseTiles(bs, LiveAt(bs, ptr)); }
  }

  /** Every run keeps the tiling of the initial frames; from the first kfree on nothing is left to merge. */
  lemma {:induction false} RunTiles(bs: seq<Block>, ops: seq<HeapOp>)
    requires Ordered(bs) && Aligned(bs)
    ensures Tiles(bs, RunHeap(bs, ops))
    ensures EverFreed(bs, ops) ==> NoAdjacentFree(RunHeap(bs, ops))
  {
    if ops != [] {
      var n := |ops| - 1;
      var mid := RunHeap(bs, ops[..n]);
      RunTiles(bs, ops[..n]);
      StepTiles(mid, ops[n]);
      if ops[n].Kfree? && LiveAt(mid, ops[n].ptr) < |mid| {
        ReleaseTiles(mid, LiveAt(mid, ops[n].ptr));
      }
    }
  }

  /**
   Confluence: any run with at least one kfree that ends with everything freed
   ends in the canonical list, one free block per maximal contiguous stretch of
   heap frames, whatever the sizes and the order.
   */
  lemma HeapConfluence(bs: seq<Block>, ops: seq<HeapOp>)
    requires Ordered(bs) && Aligned(bs) && AllFree(bs)
    requires EverFreed(bs, ops) && AllFree(RunHeap(bs, ops))
    ensures RunHeap(bs, ops) == Coalesce(bs)
  {
    RunTiles(bs, ops);
    CoalesceRearranges(bs);
    CoalesceSuffices(bs);
    CoalesceFree(bs);
    MergedListIsUnique(RunHeap(bs, ops), Coalesce(bs));
  }

  lemma CoalesceFree(bs: seq<Block>)
    requires Ordered(bs) && Aligned(bs) && AllFree(bs)
    ensures AllFree(Coalesce(bs))
  {
    CoalesceRearranges(bs);
    assert Live(bs) == {};
    forall b | b in Coalesce(bs) ensures b.free {
      assert b !in Live(Coalesce(bs));
    }
  }

  // ---------------------------------------------------------------- what one call takes and gives back

  /** A byte of the heap is free iff it lies in no block that is handed out. */
  lemma FreeIffNotLive(bs: seq<Block>, x: nat)
    requires Ordered(bs)
    ensures FreeByte(bs, x) <==> Covered(bs, x) && forall b :: b in Live(bs) ==> !Contains(b, x)
  {
    forall i, b | 0 <= i < |bs| && bs[i].free && Contains(bs[i], x) && b in Live(bs) ensures !Contains(b, x) {
      var j :| 0 <= j < |bs| && bs[j] == b;
      assert i < j ==> End(bs[i]) <= bs[j].addr;
      assert j < i ==> End(bs[j]) <= bs[i].addr;
    }
    if Covered(bs, x) {
      var k :| 0 <= k < |bs| && Contains(bs[k], x);
      assert bs[k].free || bs[k] in Live(bs);
    }
  }

  /** `n` bytes are what the kernel makes of a request: the next multiple of four, or 0 when that wraps. */
  predicate Rounded(size: Word, n: nat) {
    n % 4 == 0 && if size <= 0xFFFF_FFFC then size <= n < size + 4 else n == 0
  }

  /** The block a request of `n` bytes gets out of `b`: `n` bytes, or all of them when 24 or fewer would be left. */
  function Grant(b: Block, n: nat): Block { Block(b.addr, if b.size <= n + 24 then b.size else n, false) }

  /**
   kmalloc. The first free block that is large enough gives the request and
   nothing else: every other free byte stays free. With none, or for a request of
   nothing, all is as before.
   */
  lemma MallocLaw(bs: seq<Block>, size: Word, n: nat, k: nat, cs: seq<Block>)
    requires Ordered(bs) && Aligned(bs) && cs == MallocStep(bs, size) && Rounded(size, n)
    requires k <= |bs| && (k < |bs| ==> bs[k].free && bs[k].size >= n)
    requires forall i :: 0 <= i < k ==> !(bs[i].free && bs[i].size >= n)
    ensures size == 0 || k == |bs| ==> cs == bs
    ensures size > 0 && k < |bs| ==>
              && Live(cs) == Live(bs) + {Grant(bs[k], n)} && Grant(bs[k], n) !in Live(bs)
              && forall x: nat :: FreeByte(cs, x) <==> FreeByte(bs, x) && !Contains(Grant(bs[k], n), x)
  {
    RoundedIsRound(size, n);
    FirstFitIsFirst(bs, n, k);
    if size > 0 && k < |bs| { HandOutLaw(bs, k, n, cs); }
  }

  lemma RoundedIsRound(size: Word, n: nat)
    requires Rounded(size, n)
    ensures Round(size) == n
  {
    RoundHoldsRequest(size);
  }

  lemma FirstFitIsFirst(bs: seq<Block>, n: nat, k: nat)
    requires k <= |bs| && (k < |bs| ==> bs[k].free && bs[k].size >= n)
    requires forall i :: 0 <= i < k ==> !(bs[i].free && bs[i].size >= n)
    ensures FirstFit(bs, n) == k
  {
  }

  lemma HandOutLaw(bs: seq<Block>, k: nat, n: nat, cs: seq<Block>)
    requires Ordered(bs) && Aligned(bs) && k < |bs| && bs[k].free && bs[k].size >= n && n % 4 == 0
    requires cs == HandOut(bs, k, n)
    ensures Live(cs) == Live(bs) + {Grant(bs[k], n)} && Grant(bs[k], n) !in Live(bs)
    ensures forall x: nat :: FreeByte(cs, x) <==> FreeByte(bs, x) && !Contains(Grant(bs[k], n), x)
  {
    hide HandOut; hide Ordered; hide Aligned; hide TotalBytes; hide Live; hide Covered; hide FreeByte;
    AllocTiles(bs, k, n);
    var g := Grant(bs[k], n);
    assert Carved(bs[k], n)[0] == g;
    forall x: nat ensures FreeByte(cs, x) <==> FreeByte(bs, x) && !Contains(g, x) {
      FreeIffNotLive(bs, x);
      FreeIffNotLive(cs, x);
    }
  }

  /** kfree gives back exactly the block: its bytes are free afterwards, and no others become so. */
  lemma FreeLaw(bs: seq<Block>, k: nat, x: nat)
    requires Ordered(bs) && Aligned(bs) && k < |bs| && !bs[k].free
    ensures Live(Release(bs, k)) == Live(bs) - {bs[k]}
    ensures FreeByte(Release(bs, k), x) <==> FreeByte(bs, x) || Contains(bs[k], x)
  {
    ReleaseTiles(bs, k);
    FreeIffNotLive(bs, x);
    FreeIffNotLive(Release(bs, k), x);
    assert Contains(bs[k], x) ==> Covered(bs, x);
    forall b | Contains(bs[k], x) && b in Live(bs) && b != bs[k] ensures !Contains(b, x) {
      var i :| 0 <= i < |bs| && bs[i] == b;
      assert i < k ==> End(bs[i]) <= bs[k].addr;
      assert k < i ==> End(bs[k]) <= bs[i].addr;
    }
  }

  /** The pointer kmalloc returns. */
  function Returned(bs: seq<Block>, size: Word): nat {
    var k := FirstFit(bs, Round(size));
    if size == 0 || k == |bs| then 0 else Payload(bs[k])
  }

  /** The size of the last request of the run that got pointer `p`, or -1. */
  ghost function LastRequest(bs: seq<Block>, ops: seq<HeapOp>, p: nat): int {
    if ops == [] then -1
    else
      var n := |ops| - 1;
      if ops[n].Malloc? && p == Returned(RunHeap(bs, ops[..n]), ops[n].size) then ops[n].size
      else LastRequest(bs, ops[..n], p)
  }

  /** In every run a block that is handed out has the bytes asked for and at most 27 more. */
  lemma {:induction false} NoWaste(bs: seq<Block>, ops: seq<HeapOp>, b: Block)
    requires Ordered(bs) && Aligned(bs) && AllFree(bs) && b in Live(RunHeap(bs, ops))
    ensures FitsRequest(LastRequest(bs, ops, Payload(b)), b.size)
  {
    if ops != [] {
      var n := |ops| - 1;
      var mid := RunHeap(bs, ops[..n]);
      RunTiles(bs, ops[..n]);
      NoWasteStep(mid, ops[n], b);
      if b in Live(mid) { NoWaste(bs, ops[..n], b); }
    }
  }

  /** A block of `m` bytes fits a request. */
  predicate FitsRequest(size: int, m: nat) {
    size > 0 && if size <= 0xFFFF_FFFC then size <= m <= size + 27 else m <= 24
  }

  lemma NoWasteStep(bs: seq<Block>, op: HeapOp, b: Block)
    requires Ordered(bs) && Aligned(bs) && b in Live(StepHeap(bs, op))
    ensures if op.Malloc? && Payload(b) == Returned(bs, op.size) then FitsRequest(op.size, b.size) else b in Live(bs)
  {
    hide Release; hide LiveAt; hide HandOut; hide Live;
    match op
    case Malloc(size) => NoWasteMalloc(bs, size, b);
    case Kfree(ptr) =>
      if LiveAt(bs, ptr) < |bs| { ReleaseTiles(bs, LiveAt(bs, ptr)); }
  }

  lemma NoWasteMalloc(bs: seq<Block>, size: Word, b: Block)
    requires Ordered(bs) && Aligned(bs) && b in Live(MallocStep(bs, size))
    ensures if Payload(b) == Returned(bs, size) then FitsRequest(size, b.size) else b in Live(bs)
  {
    hide MallocStep; hide Live; hide FirstFit; hide Ordered; hide Aligned; hide FreeByte; hide Round;
    var n := Round(size);
    var k := FirstFit(bs, n);
    RoundHoldsRequest(size);
    MallocLaw(bs, size, n, k, MallocStep(bs, size));
    if size > 0 && k < |bs| { AllocTiles(bs, k, n); }
  }

  // ---------------------------------------------------------------- when kmalloc fails

  /** From the first kfree on, kmalloc fails exactly when no contiguous free run holds header and rounded size. */
  lemma MallocFailsIffNoRun(bs: seq<Block>, ops: seq<HeapOp>, now: seq<Block>, size: Word, len: nat)
    requires Ordered(bs) && Aligned(bs) && EverFreed(bs, ops)
    requires now == RunHeap(bs, ops) && len == HEADER + Round(size)
    ensures FirstFit(now, Round(size)) == |now| <==> !exists a: nat :: FreeRun(now, a, len)
  {
    RunTiles(bs, ops);
    hide *;
    FailsIffNoRun(now, Round(size), len);
  }

  /** A frame as `kmalloc_init` leaves it: one free block. */
  ghost predicate PageBlock(b: Block) {
    b.addr % 4096 == 0 && 0 < b.addr < MAX_FRAMES * 4096 && b.size == PAGE_SIZE - HEADER && b.free
  }

  /** A block of a heap never freed lies in one frame; the free part of a frame is its end. */
  predicate InFrame(b: Block) {
    b.addr % 4096 + HEADER + b.size <= 4096 && (b.free ==> b.addr % 4096 + HEADER + b.size == 4096)
  }

  ghost predicate AllInFrames(bs: seq<Block>) { forall b :: b in bs ==> InFrame(b) }

  lemma CarvedInFrame(b: Block, n: nat)
    requires InFrame(b) && b.free && b.size >= n
    ensures AllInFrames(Carved(b, n))
  {
    var off := b.addr % 4096;
    if b.size > n + HEADER + MIN_SPLIT {
      assert b.addr + HEADER + n == b.addr / 4096 * 4096 + (off + HEADER + n);
      assert (b.addr + HEADER + n) % 4096 == off + HEADER + n;
    }
  }

  /** As long as nothing has been freed, no block crosses a frame. */
  lemma {:induction false} UnfreedRun(bs: seq<Block>, ops: seq<HeapOp>)
    requires AllInFrames(bs) && !EverFreed(bs, ops)
    ensures AllInFrames(RunHeap(bs, ops))
  {
    if ops != [] {
      var n := |ops| - 1;
      var mid := RunHeap(bs, ops[..n]);
      UnfreedRun(bs, ops[..n]);
      if ops[n].Malloc? {
        var k := FirstFit(mid, Round(ops[n].size));
        if ops[n].size != 0 && k < |mid| { CarvedInFrame(mid[k], Round(ops[n].size)); }
      }
    }
  }

  /** In a heap never freed a run of at most one frame lies in one block, or runs on into a whole free frame. */
  lemma FreshRunFits(bs: seq<Block>, a: nat, n: nat)
    requires Ordered(bs) && AllInFrames(bs) && n <= PAGE_SIZE - HEADER && FreeRun(bs, a, HEADER + n)
    ensures FirstFit(bs, n) < |bs|
  {
    hide InFrame;
    assert FreeByte(bs, a);
    var i :| 0 <= i < |bs| && bs[i].free && Contains(bs[i], a);
    var e := End(bs[i]);
    if e < a + HEADER + n {
      assert FreeByte(bs, e);
      var m :| 0 <= m < |bs| && bs[m].free && Contains(bs[m], e);
      NextBlock(bs, i, m);
      assert bs[i] in bs && bs[m] in bs;
      FrameEnd(bs[i], bs[m]);
    }
  }

  /** The block after the free end of a frame, if free, is a whole frame. */
  lemma FrameEnd(b: Block, c: Block)
    requires InFrame(b) && b.free && InFrame(c) && c.free && c.addr == End(b)
    ensures c.size == PAGE_SIZE - HEADER
  {
    assert End(b) == (b.addr / 4096 + 1) * 4096;
    assert c.addr % 4096 == 0;
  }

  /**
   Exactly when kmalloc fails, after any run from the frames of `kmalloc_init`:
   no contiguous free run holds header and rounded size, or the request exceeds
   one frame and nothing has been freed yet.
   */
  lemma MallocFailsExactly(bs: seq<Block>, ops: seq<HeapOp>, now: seq<Block>, size: Word, len: nat)
    requires Ordered(bs) && (forall b :: b in bs ==> PageBlock(b))
    requires now == RunHeap(bs, ops) && len == HEADER + Round(size)
    ensures FirstFit(now, Round(size)) == |now| <==>
            || (!exists a: nat :: FreeRun(now, a, len))
            || (Round(size) > PAGE_SIZE - HEADER && !EverFreed(bs, ops))
  {
    hide FreeRun; hide RunHeap; hide EverFreed; hide Round; hide Ordered;
    FramesAligned(bs);
    RunTiles(bs, ops);
    if EverFreed(bs, ops) {
      MallocFailsIffNoRun(bs, ops, now, size, len);
    } else {
      UnfreedRun(bs, ops);
      FreshFailsIff(now, Round(size), len);
    }
  }

  lemma FramesAligned(bs: seq<Block>)
    requires forall b :: b in bs ==> PageBlock(b)
    ensures Aligned(bs) && AllFree(bs) && AllInFrames(bs)
  {
    hide PageBlock;
    forall b | b in bs ensures b.addr % 4 == 0 && b.size % 4 == 0 && b.free && InFrame(b) { PageBlockAligned(b); }
  }

  lemma PageBlockAligned(b: Block)
    requires PageBlock(b)
    ensures b.addr % 4 == 0 && b.size % 4 == 0 && b.free && InFrame(b)
  {
    assert b.addr == 4 * (1024 * (b.addr / 4096));
  }

  lemma FreshFailsIff(bs: seq<Block>, n: nat, len: nat)
    requires Ordered(bs) && AllInFrames(bs) && len == HEADER + n
    ensures FirstFit(bs, n) == |bs| <==> n > PAGE_SIZE - HEADER || !exists a: nat :: FreeRun(bs, a, len)
  {
    var k := FirstFit(bs, n);
    if k < |bs| {
      forall x: nat | bs[k].addr <= x < bs[k].addr + len ensures FreeByte(bs, x) {
        assert Contains(bs[k], x);
      }
      assert FreeRun(bs, bs[k].addr, len);
      assert InFrame(bs[k]);
    }
    forall a: nat | FreeRun(bs, a, len) && n <= PAGE_SIZE - HEADER ensures FirstFit(bs, n) < |bs| {
      FreshRunFits(bs, a, n);
    }
  }

  /**
   The second case happens: any two adjacent fresh frames hold up to 8176 bytes,
   yet every request above 4080 is refused until a kfree has merged them.
   */
  lemma FreshHeapRefusesLargeRequest(bs: seq<Block>, k: nat, size: Word, len: nat)
    requires Ordered(bs) && (forall b :: b in bs ==> PageBlock(b))
    requires k + 1 < |bs| && End(bs[k]) == bs[k + 1].addr
    requires PAGE_SIZE - HEADER < Round(size) <= 2 * PAGE_SIZE - HEADER && len == HEADER + Round(size)
    ensures FirstFit(bs, Round(size)) == |bs|
    ensures FreeRun(bs, bs[k].addr, len)
    ensures FirstFit(Coalesce(bs), Round(size)) < |Coalesce(bs)|
  {
    hide Round;
    FramesAligned(bs);
    FreshFailsIff(bs, Round(size), len);
    TwoFrames(bs, k, len);
    CoalesceRearranges(bs);
    CoalesceSuffices(bs);
    SameRuns(bs, Coalesce(bs), bs[k].addr, len);
    FailsIffNoRun(Coalesce(bs), Round(size), len);
  }

  lemma TwoFrames(bs: seq<Block>, k: nat, len: nat)
    requires k + 1 < |bs| && PageBlock(bs[k]) && PageBlock(bs[k + 1]) && End(bs[k]) == bs[k + 1].addr
    requires len <= 2 * PAGE_SIZE
    ensures FreeRun(bs, bs[k].addr, len)
  {
    forall x: nat | bs[k].addr <= x < bs[k].addr + len ensures FreeByte(bs, x) {
      assert Contains(bs[if x < End(bs[k]) then k else k + 1], x);
    }
  }

  lemma SameRuns(bs: seq<Block>, cs: seq<Block>, a: nat, len: nat)
    requires Rearranged(bs, cs) && FreeRun(bs, a, len)
    ensures FreeRun(cs, a, len)
  {
    hide FreeByte;
  }
}
