/**
 The kernel heap as the code runs it (mm/kmalloc.c): block headers are words
 inside the arena, linked by address. Memory is word-granular and indexed by
 byte address; every header address is a multiple of four. Headers absorbed by
 coalescing stay behind as stale words.
 */
module KernelHeap {
  import opened Machine
  import opened FrameAllocator
  import opened HeapSpec
  import opened HeapRuns

  const MAGIC: Word := 0xB10C_0DE0       // BLOCK_MAGIC

  type HeapMemory = m: seq<Word> | |m| == 0x1_0000_0000 ghost witness seq<Word>(0x1_0000_0000, _ => 0)

  function AddrAt(bs: seq<Block>, k: nat): nat { if k < |bs| then bs[k].addr else 0 }

  ghost predicate InMemory(b: Block) { 0 < b.addr && End(b) < 0x1_0000_0000 }

  /** The four header fields of block `k`: magic, size, free, next. */
  ghost predicate HeaderAt(m: HeapMemory, bs: seq<Block>, k: nat)
    requires k < |bs|
  {
    var b := bs[k];
    && InMemory(b)
    && m[b.addr] == MAGIC && m[b.addr + 4] == b.size
    && m[b.addr + 8] == (if b.free then 1 else 0)
    && m[b.addr + 12] == AddrAt(bs, k + 1)
  }

  ghost predicate Represents(m: HeapMemory, bs: seq<Block>) {
    && Ordered(bs) && Aligned(bs)
    && forall k: nat :: k < |bs| ==> HeaderAt(m, bs, k)
  }

  /** Two 16-byte headers coincide or do not overlap. */
  predicate Apart(a: nat, h: nat) { a == h || a + HEADER <= h || h + HEADER <= a }

  /** The header before `p`, in the list or stale, still says "free", and no list header overlaps it. */
  ghost predicate Remembered(m: HeapMemory, bs: seq<Block>, p: nat) {
    && HEADER <= p < 0x1_0000_0000 && m[p - 8] != 0 && FreeByte(bs, p - 8)
    && forall b :: b in bs ==> Apart(b.addr, p - HEADER)
  }

  /** Every byte of every handed-out payload is as it was. */
  ghost predicate PayloadsKept(m0: HeapMemory, m: HeapMemory, bs: seq<Block>) {
    forall b, x: nat :: b in bs && !b.free && Payload(b) <= x < End(b) && x < 0x1_0000_0000 ==> m[x] == m0[x]
  }

  // ---------------------------------------------------------------- steps on memory

  function MergeMem(m: HeapMemory, a: nat, b: nat): HeapMemory
    requires a + HEADER <= b && b + HEADER <= 0x1_0000_0000
    requires m[a + 4] + HEADER + m[b + 4] < 0x1_0000_0000
  {
    m[a + 4 := m[a + 4] + HEADER + m[b + 4]][a + 12 := m[b + 12]]
  }

  function MergeAt(bs: seq<Block>, k: nat): seq<Block>
    requires k + 1 < |bs|
  {
    bs[..k] + [Merge(bs[k], bs[k + 1])] + bs[k + 2..]
  }

  /** What one absorption does: block `k` takes in the free, adjacent block after it. */
  ghost predicate Absorbs(m: HeapMemory, bs: seq<Block>, k: nat, m': HeapMemory, cs: seq<Block>) {
    && Represents(m, bs) && k + 1 < |bs| && Mergeable(bs[k], bs[k + 1])
    && bs[k].addr + HEADER <= bs[k + 1].addr && bs[k + 1].addr + HEADER <= 0x1_0000_0000
    && m[bs[k].addr + 4] + HEADER + m[bs[k + 1].addr + 4] < 0x1_0000_0000
    && m' == MergeMem(m, bs[k].addr, bs[k + 1].addr) && cs == MergeAt(bs, k)
  }

  lemma CanAbsorb(m: HeapMemory, bs: seq<Block>, k: nat)
    requires Represents(m, bs) && k + 1 < |bs| && Mergeable(bs[k], bs[k + 1])
    ensures bs[k].addr + HEADER <= bs[k + 1].addr && bs[k + 1].addr + HEADER <= 0x1_0000_0000
    ensures m[bs[k].addr + 4] + HEADER + m[bs[k + 1].addr + 4] < 0x1_0000_0000
  {
    assert HeaderAt(m, bs, k) && HeaderAt(m, bs, k + 1);
  }

  lemma HeaderKept(m: HeapMemory, bs: seq<Block>, i: nat, m': HeapMemory, cs: seq<Block>, j: nat)
    requires i < |bs| && j < |cs| && HeaderAt(m, bs, i) && cs[j] == bs[i] && AddrAt(cs, j + 1) == AddrAt(bs, i + 1)
    requires forall x :: bs[i].addr <= x < bs[i].addr + HEADER ==> m'[x] == m[x]
    ensures HeaderAt(m', cs, j)
  {
  }

  /** Absorbing writes two words of block `k`'s header and nothing else. */
  lemma AbsorbWrites(m: HeapMemory, bs: seq<Block>, k: nat, m': HeapMemory, cs: seq<Block>, x: nat)
    requires Absorbs(m, bs, k, m', cs) && x < 0x1_0000_0000 && x != bs[k].addr + 4 && x != bs[k].addr + 12
    ensures m'[x] == m[x]
  {
    hide Represents; hide MergeAt;
  }

  lemma AbsorbHeaderAt(m: HeapMemory, bs: seq<Block>, k: nat, m': HeapMemory, cs: seq<Block>)
    requires Absorbs(m, bs, k, m', cs)
    ensures k < |cs| && HeaderAt(m', cs, k)
  {
    hide Ordered; hide Aligned;
    assert HeaderAt(m, bs, k) && HeaderAt(m, bs, k + 1);
  }

  lemma AbsorbHeaderElsewhere(m: HeapMemory, bs: seq<Block>, k: nat, m': HeapMemory, cs: seq<Block>, i: nat, j: nat)
    requires Absorbs(m, bs, k, m', cs) && i < |cs| && i != k && j == (if i < k then i else i + 1)
    ensures HeaderAt(m', cs, i)
  {
    hide MergeMem; hide Aligned;
    assert HeaderAt(m, bs, j);
    assert if i < k then End(bs[i]) <= bs[k].addr else End(bs[k]) <= bs[j].addr;
    forall x | bs[j].addr <= x < bs[j].addr + HEADER ensures m'[x] == m[x] { AbsorbWrites(m, bs, k, m', cs, x); }
    HeaderKept(m, bs, j, m', cs, i);
  }

  lemma AbsorbHeader(m: HeapMemory, bs: seq<Block>, k: nat, m': HeapMemory, cs: seq<Block>, i: nat)
    requires Absorbs(m, bs, k, m', cs) && i < |cs|
    ensures HeaderAt(m', cs, i)
  {
    hide Absorbs; hide HeaderAt;
    if i == k {
      AbsorbHeaderAt(m, bs, k, m', cs);
    } else {
      AbsorbHeaderElsewhere(m, bs, k, m', cs, i, if i < k then i else i + 1);
    }
  }

  lemma MergeAtRearranges(bs: seq<Block>, k: nat)
    requires Ordered(bs) && Aligned(bs) && k + 1 < |bs| && Mergeable(bs[k], bs[k + 1])
    ensures Rearranged(bs, MergeAt(bs, k))
  {
    hide Rearranged; hide Ordered; hide Merge;
    var a, b := bs[k], bs[k + 1];
    assert bs[..k] + [a, b] + bs[k + 2..] == bs;
    assert a in bs && b in bs;
    MergeRearranges(a, b);
    ReplaceMiddle(bs[..k], [a, b], [Merge(a, b)], bs[k + 2..]);
  }

  lemma AbsorbRepresents(m: HeapMemory, bs: seq<Block>, k: nat, m': HeapMemory, cs: seq<Block>)
    requires Absorbs(m, bs, k, m', cs)
    ensures Represents(m', cs)
  {
    hide HeaderAt; hide MergeMem; hide MergeAt; hide Mergeable;
    forall i: nat | i < |cs| ensures HeaderAt(m', cs, i) { AbsorbHeader(m, bs, k, m', cs, i); }
    MergeAtRearranges(bs, k);
    RearrangedShape(bs, cs);
  }

  lemma AbsorbMembers(m: HeapMemory, bs: seq<Block>, k: nat, m': HeapMemory, cs: seq<Block>, b: Block)
    requires Absorbs(m, bs, k, m', cs)
    ensures !b.free ==> (b in bs <==> b in cs)
    ensures b in cs ==> b in bs || b.addr == bs[k].addr
    ensures bs[k] in bs
  {
    hide Represents;
    assert bs[..k] + [bs[k], bs[k + 1]] + bs[k + 2..] == bs;
  }

  lemma AbsorbKeepsFreed(m: HeapMemory, bs: seq<Block>, k: nat, m': HeapMemory, cs: seq<Block>, p: nat)
    requires Absorbs(m, bs, k, m', cs) && Remembered(m, bs, p)
    ensures Remembered(m', cs, p)
  {
    MergeAtRearranges(bs, k);
    hide Represents; hide FreeByte; hide MergeAt;
    forall b | b in cs ensures Apart(b.addr, p - HEADER) {
      AbsorbMembers(m, bs, k, m', cs, b);
    }
    AbsorbMembers(m, bs, k, m', cs, bs[k]);
    assert Apart(bs[k].addr, p - HEADER);
  }

  lemma AbsorbKeepsPayload(m: HeapMemory, bs: seq<Block>, k: nat, m': HeapMemory, cs: seq<Block>, b: Block, x: nat)
    requires Absorbs(m, bs, k, m', cs)
    requires b in bs && !b.free && Payload(b) <= x < End(b) && x < 0x1_0000_0000
    ensures m'[x] == m[x]
  {
    hide HeaderAt; hide Aligned; hide MergeAt;
    var i :| 0 <= i < |bs| && bs[i] == b;
    if i < k {
      assert End(bs[i]) <= bs[k].addr;
    } else {
      assert End(bs[k]) <= bs[i].addr;
    }
  }

  /** Absorbing keeps what is remembered about freed pointers and writes no payload that is handed out. */
  lemma AbsorbKeeps(m: HeapMemory, bs: seq<Block>, k: nat, m': HeapMemory, cs: seq<Block>)
    requires Absorbs(m, bs, k, m', cs)
    ensures forall p :: Remembered(m, bs, p) ==> Remembered(m', cs, p)
    ensures PayloadsKept(m, m', bs)
    ensures forall b: Block :: !b.free ==> (b in bs <==> b in cs)
  {
    hide Absorbs; hide Remembered;
    forall p | Remembered(m, bs, p) ensures Remembered(m', cs, p) { AbsorbKeepsFreed(m, bs, k, m', cs, p); }
    forall b, x: nat | b in bs && !b.free && Payload(b) <= x < End(b) && x < 0x1_0000_0000 ensures m'[x] == m[x] {
      AbsorbKeepsPayload(m, bs, k, m', cs, b, x);
    }
    forall b: Block | !b.free ensures b in bs <==> b in cs { AbsorbMembers(m, bs, k, m', cs, b); }
  }

  /** The writes of `split`: a header for the remainder, then the shortened block. */
  function SplitMem(m: HeapMemory, b: Block, n: nat): HeapMemory
    requires InMemory(b) && b.size >= n
  {
    if b.size <= n + HEADER + MIN_SPLIT then m
    else
      var r := b.addr + HEADER + n;
      m[r := MAGIC][r + 4 := b.size - n - HEADER][r + 8 := 1][r + 12 := m[b.addr + 12]]
       [b.addr + 4 := n][b.addr + 12 := r]
  }

  function AllocMem(m: HeapMemory, b: Block, n: nat): HeapMemory
    requires InMemory(b) && b.size >= n
  {
    SplitMem(m, b, n)[b.addr + 8 := 0]
  }

  ghost predicate HandsOut(m: HeapMemory, bs: seq<Block>, k: nat, n: nat, m': HeapMemory, cs: seq<Block>) {
    && Represents(m, bs) && k < |bs| && bs[k].free && bs[k].size >= n && n % 4 == 0 && InMemory(bs[k])
    && m' == AllocMem(m, bs[k], n) && cs == HandOut(bs, k, n)
  }

  lemma HandOutHeader(m: HeapMemory, bs: seq<Block>, k: nat, n: nat, m': HeapMemory, cs: seq<Block>, i: nat)
    requires HandsOut(m, bs, k, n, m', cs) && i < |cs|
    ensures HeaderAt(m', cs, i)
  {
    var d := |Carved(bs[k], n)| - 1;
    if i < k {
      HandOutOther(m, bs, k, n, m', cs, i, i);
    } else if i > k + d {
      HandOutOther(m, bs, k, n, m', cs, i - d, i);
    } else {
      HandOutNew(m, bs, k, n, m', cs, i);
    }
  }

  /** A block other than `k` keeps its header, possibly at a later list position. */
  lemma HandOutOther(m: HeapMemory, bs: seq<Block>, k: nat, n: nat, m': HeapMemory, cs: seq<Block>, i: nat, j: nat)
    requires HandsOut(m, bs, k, n, m', cs) && i < |bs| && i != k
    requires j == if i < k then i else i + |Carved(bs[k], n)| - 1
    ensures j < |cs| && HeaderAt(m', cs, j)
  {
    hide HandOut; hide Aligned;
    assert HeaderAt(m, bs, i);
    if i < k { assert End(bs[i]) <= bs[k].addr; } else { assert End(bs[k]) <= bs[i].addr; }
    HandOutAddr(bs, k, n, i);
    HeaderKept(m, bs, i, m', cs, j);
  }

  lemma HandOutAddr(bs: seq<Block>, k: nat, n: nat, i: nat)
    requires k < |bs| && bs[k].size >= n && i < |bs| && i != k
    ensures var cs := HandOut(bs, k, n);
            var j := if i < k then i else i + |Carved(bs[k], n)| - 1;
            j < |cs| && cs[j] == bs[i] && AddrAt(cs, j + 1) == AddrAt(bs, i + 1)
  {
  }

  lemma HandOutNew(m: HeapMemory, bs: seq<Block>, k: nat, n: nat, m': HeapMemory, cs: seq<Block>, i: nat)
    requires HandsOut(m, bs, k, n, m', cs) && k <= i < k + |Carved(bs[k], n)| <= |cs|
    ensures HeaderAt(m', cs, i)
  {
    assert HeaderAt(m, bs, k);
    var c := Carved(bs[k], n);
    assert cs[i] == c[i - k];
    assert AddrAt(cs, k + |c|) == AddrAt(bs, k + 1);
    hide HandOut; hide Ordered; hide Aligned;
  }

  lemma HandOutRepresents(m: HeapMemory, bs: seq<Block>, k: nat, n: nat, m': HeapMemory, cs: seq<Block>)
    requires HandsOut(m, bs, k, n, m', cs)
    ensures Represents(m', cs) && TotalBytes(cs) == TotalBytes(bs)
    ensures PayloadsKept(m, m', bs)
  {
    hide AllocMem; hide HandOut;
    forall i: nat | i < |cs| ensures HeaderAt(m', cs, i) { HandOutHeader(m, bs, k, n, m', cs, i); }
    AllocTiles(bs, k, n);
    forall b, x: nat | b in bs && !b.free && Payload(b) <= x < End(b) && x < 0x1_0000_0000 ensures m'[x] == m[x] {
      HandOutKeeps(m, bs, k, n, m', cs, b, x);
    }
  }

  lemma HandOutKeeps(m: HeapMemory, bs: seq<Block>, k: nat, n: nat, m': HeapMemory, cs: seq<Block>, b: Block, x: nat)
    requires HandsOut(m, bs, k, n, m', cs)
    requires b in bs && !b.free && Payload(b) <= x < End(b) && x < 0x1_0000_0000
    ensures m'[x] == m[x]
  {
    var i :| 0 <= i < |bs| && bs[i] == b;
    if i < k {
      assert End(bs[i]) <= bs[k].addr;
    } else {
      assert i > k && End(bs[k]) <= bs[i].addr;
    }
  }

  /** Marking block `k` free in place. */
  ghost predicate Frees(m: HeapMemory, bs: seq<Block>, k: nat, m': HeapMemory, cs: seq<Block>) {
    && Represents(m, bs) && k < |bs| && !bs[k].free && InMemory(bs[k])
    && m' == m[bs[k].addr + 8 := 1] && cs == bs[k := bs[k].(free := true)]
  }

  lemma FreesHeader(m: HeapMemory, bs: seq<Block>, k: nat, m': HeapMemory, cs: seq<Block>, i: nat)
    requires Frees(m, bs, k, m', cs) && i < |cs|
    ensures HeaderAt(m', cs, i)
  {
    assert HeaderAt(m, bs, i);
    if i != k {
      var lo, hi := if i < k then i else k, if i < k then k else i;
      assert End(bs[lo]) <= bs[hi].addr;
      HeaderKept(m, bs, i, m', cs, i);
    }
  }

  lemma FreesKeepsFreed(m: HeapMemory, bs: seq<Block>, k: nat, m': HeapMemory, cs: seq<Block>, p: nat)
    requires Frees(m, bs, k, m', cs) && Remembered(m, bs, p)
    ensures Remembered(m', cs, p)
  {
    hide Represents;
    var i :| 0 <= i < |bs| && bs[i].free && Contains(bs[i], p - 8);
    assert cs[i] == bs[i];
    forall b | b in cs ensures Apart(b.addr, p - HEADER) {
      var j :| 0 <= j < |cs| && cs[j] == b;
      assert bs[j] in bs && bs[j].addr == b.addr;
    }
  }

  lemma FreesKeepsPayload(m: HeapMemory, bs: seq<Block>, k: nat, m': HeapMemory, cs: seq<Block>, b: Block, x: nat)
    requires Frees(m, bs, k, m', cs)
    requires b in bs && !b.free && Payload(b) <= x < End(b) && x < 0x1_0000_0000
    ensures m'[x] == m[x]
  {
    hide HeaderAt; hide Aligned;
    var i :| 0 <= i < |bs| && bs[i] == b;
    if i != k {
      var lo, hi := if i < k then i else k, if i < k then k else i;
      assert End(bs[lo]) <= bs[hi].addr;
    }
  }

  lemma FreesKeeps(m: HeapMemory, bs: seq<Block>, k: nat, m': HeapMemory, cs: seq<Block>)
    requires Frees(m, bs, k, m', cs)
    ensures Represents(m', cs) && TotalBytes(cs) == TotalBytes(bs)
    ensures Remembered(m', cs, Payload(bs[k]))
    ensures forall p :: Remembered(m, bs, p) ==> Remembered(m', cs, p)
    ensures PayloadsKept(m, m', bs)
  {
    MarkFree(bs, k);
    FreedIsRemembered(bs, k, m', cs);
    hide Remembered; hide HeaderAt;
    forall i: nat | i < |cs| ensures HeaderAt(m', cs, i) { FreesHeader(m, bs, k, m', cs, i); }
    forall p | Remembered(m, bs, p) ensures Remembered(m', cs, p) { FreesKeepsFreed(m, bs, k, m', cs, p); }
    forall b, x: nat | b in bs && !b.free && Payload(b) <= x < End(b) && x < 0x1_0000_0000 ensures m'[x] == m[x] {
      FreesKeepsPayload(m, bs, k, m', cs, b, x);
    }
  }

  lemma FreedIsRemembered(bs: seq<Block>, k: nat, m: HeapMemory, cs: seq<Block>)
    requires Ordered(bs) && k < |bs| && InMemory(bs[k]) && cs == bs[k := bs[k].(free := true)]
    requires Payload(bs[k]) < 0x1_0000_0000 && m[bs[k].addr + 8] == 1
    ensures Remembered(m, cs, Payload(bs[k]))
  {
    assert cs[k].free && Contains(cs[k], bs[k].addr + 8);
    forall b | b in cs ensures Apart(b.addr, bs[k].addr) {
      var i :| 0 <= i < |cs| && cs[i] == b;
      if i < k { assert End(bs[i]) <= bs[k].addr; }
      if k < i { assert End(bs[k]) <= bs[i].addr; }
    }
  }

  /** The test of `kfree`: wrong magic or not in use, with 32-bit address arithmetic. */
  predicate Refuses(m: HeapMemory, ptr: Word) {
    var blk := Add32(ptr, 0xFFFF_FFF0);
    m[blk] != MAGIC || m[Add32(blk, 8)] != 0
  }

  /** A pointer freed since the last kmalloc is refused, even if its header has been absorbed. */
  lemma RememberedIsRefused(m: HeapMemory, bs: seq<Block>, p: nat)
    requires Remembered(m, bs, p)
    ensures Refuses(m, p)
  {
    assert Add32(p, 0xFFFF_FFF0) == p - 16;
    assert Add32(p - 16, 8) == p - 8;
  }

  lemma LiveIsAccepted(m: HeapMemory, bs: seq<Block>, k: nat)
    requires Represents(m, bs) && k < |bs| && !bs[k].free
    ensures Payload(bs[k]) < 0x1_0000_0000 && !Refuses(m, Payload(bs[k]))
    ensures InMemory(bs[k]) && Add32(Payload(bs[k]), 0xFFFF_FFF0) == bs[k].addr
  {
    assert HeaderAt(m, bs, k);
    assert Add32(Payload(bs[k]), 0xFFFF_FFF0) == bs[k].addr;
    assert Add32(bs[k].addr, 8) == bs[k].addr + 8;
  }

  /** A client writing inside what it was handed disturbs neither headers nor what is remembered. */
  lemma ClientWriteKeeps(m: HeapMemory, bs: seq<Block>, b: Block, x: nat, v: Word)
    requires Represents(m, bs) && b in bs && !b.free && Payload(b) <= x < End(b) && x < 0x1_0000_0000
    ensures Represents(m[x := v], bs)
    ensures forall p :: Remembered(m, bs, p) ==> Remembered(m[x := v], bs, p)
  {
    var i :| 0 <= i < |bs| && bs[i] == b;
    var m' := m[x := v];
    forall k: nat | k < |bs| ensures HeaderAt(m', bs, k) { ClientHeader(m, bs, i, x, v, k); }
    forall p: nat | Remembered(m, bs, p) ensures p - 8 != x { ClientRemembered(m, bs, i, x, p); }
  }

  /** A payload meets no header. */
  lemma ClientHeader(m: HeapMemory, bs: seq<Block>, i: nat, x: nat, v: Word, k: nat)
    requires Represents(m, bs) && i < |bs| && Payload(bs[i]) <= x < End(bs[i]) && x < 0x1_0000_0000 && k < |bs|
    ensures HeaderAt(m[x := v], bs, k)
  {
    assert HeaderAt(m, bs, k);
    assert i < k ==> End(bs[i]) <= bs[k].addr;
    assert k < i ==> End(bs[k]) <= bs[i].addr;
  }

  /** A live payload holds nothing remembered as freed. */
  lemma ClientRemembered(m: HeapMemory, bs: seq<Block>, i: nat, x: nat, p: nat)
    requires Ordered(bs) && i < |bs| && !bs[i].free && Payload(bs[i]) <= x < End(bs[i]) && Remembered(m, bs, p)
    ensures p - 8 != x
  {
    var k :| 0 <= k < |bs| && bs[k].free && Contains(bs[k], p - 8);
    assert i < k ==> End(bs[i]) <= bs[k].addr;
    assert k < i ==> End(bs[k]) <= bs[i].addr;
  }

  class Heap {
    var mem: HeapMemory
    var start: nat                       // heap_start; 0 is NULL
    var totalBytes: nat

    ghost var blocks: seq<Block>
    ghost var freed: set<nat>            // pointers freed since the last successful kmalloc

    ghost predicate Valid()
      reads this
    {
      && Represents(mem, blocks)
      && start == AddrAt(blocks, 0) && totalBytes == TotalBytes(blocks)
      && forall p :: p in freed ==> Remembered(mem, blocks, p)
    }

    constructor (initial: HeapMemory)
      ensures Valid() && blocks == [] && freed == {}
    {
      mem, start, totalBytes := initial, 0, 0;
      blocks, freed := [], {};
    }

    /**
     `kmalloc_init`: takes up to `pages` frames, each one big free block. The
     allocator issues frames in ascending order, so the list is in order.
     */
    method Init(pmm: Pmm, pages: nat)
      requires Valid() && blocks == [] && freed == {}
      requires pmm.Valid() && pmm.Slack() >= 0 && 0 !in pmm.clear
      modifies this, pmm, pmm.bitmap
      ensures Valid() && freed == {} && pmm.Valid() && pmm.Slack() == old(pmm.Slack())
      ensures |blocks| <= pages && (|blocks| < pages ==> pmm.clear == {})
      ensures forall b :: b in blocks ==> PageBlock(b) && b.addr / 4096 in old(pmm.clear)
      ensures pmm.clear == old(pmm.clear) - FramesOf(blocks)
    {
      hide Represents; hide Pmm.Valid; hide Pmm.Slack; hide TotalBytes; hide StepFrames; hide AllocResult;
      hide PageBlock;
      var prev := 0;
      var i := 0;
      while i < pages
        invariant Valid() && freed == {} && pmm.Valid() && pmm.Slack() == old(pmm.Slack())
        invariant |blocks| == i <= pages && prev == LastAddr(blocks)
        invariant forall b :: b in blocks ==> PageBlock(b) && b.addr / 4096 in old(pmm.clear)
        invariant forall b, f :: b in blocks && f in pmm.clear ==> b.addr + PAGE_SIZE <= f * 4096
        invariant pmm.clear == old(pmm.clear) - FramesOf(blocks)
      {
        ghost var was := pmm.Contents();
        var phys := pmm.AllocFrame();
        if phys == 0 { break; }
        LeastIsIssued(was, phys);
        AppendFrames(blocks, Block(phys, PAGE_SIZE - HEADER, true));
        AddFrame(phys, prev);
        prev := phys;
        i := i + 1;
      }
    }

    /** One frame becomes one big free block at the end of the list. */
    method AddFrame(phys: nat, prev: nat)
      requires Valid() && freed == {} && prev == LastAddr(blocks)
      requires phys % 4096 == 0 && 0 < phys < MAX_FRAMES * 4096
      requires forall b :: b in blocks ==> PageBlock(b) && b.addr + PAGE_SIZE <= phys
      modifies this
      ensures Valid() && freed == {}
      ensures blocks == old(blocks) + [Block(phys, PAGE_SIZE - HEADER, true)]
      ensures PageBlock(Block(phys, PAGE_SIZE - HEADER, true))
    {
      hide Represents; hide TotalBytes;
      AddressesFit(mem, blocks);
      mem := mem[phys := MAGIC];
      mem := mem[phys + 4 := PAGE_SIZE - HEADER];
      mem := mem[phys + 8 := 1];
      mem := mem[phys + 12 := 0];
      if start == 0 { start := phys; }
      if prev != 0 { mem := mem[prev + 12 := phys]; }
      totalBytes := totalBytes + PAGE_SIZE;
      blocks := blocks + [Block(phys, PAGE_SIZE - HEADER, true)];
      AppendRepresents(old(mem), old(blocks), phys, mem, blocks);
    }

    /** Hands out `size` bytes by first fit; 0 when `size` is 0 or nothing fits. */
    method Kmalloc(size: Word) returns (ptr: nat)
      requires Valid()
      modifies this
      ensures Valid() && blocks == MallocStep(old(blocks), size)
      ensures ptr == 0 <==> size == 0 || FirstFit(old(blocks), Round(size)) == |old(blocks)|
      ensures ptr == 0 ==> mem == old(mem) && freed == old(freed)
      ensures ptr != 0 ==>
                && ptr == Payload(old(blocks)[FirstFit(old(blocks), Round(size))])
                && ptr < 0x1_0000_0000 && freed == {}
      ensures PayloadsKept(old(mem), mem, old(blocks))
    {
      hide Represents; hide Remembered; hide HeaderAt; hide TotalBytes; hide Round; hide FirstFit;
      if size == 0 || start == 0 {
        NullStart(mem, blocks, Round(size));
        return 0;
      }
      var n := Round(size);
      AddressesFit(mem, blocks);
      var cur := start;
      ghost var k := 0;
      while cur != 0
        invariant mem == old(mem) && blocks == old(blocks) && freed == old(freed)
        invariant start == old(start) && totalBytes == old(totalBytes)
        invariant k <= |blocks| && cur == AddrAt(blocks, k) && cur + HEADER <= 0x1_0000_0000
        invariant forall i :: 0 <= i < k ==> !(blocks[i].free && blocks[i].size >= n)
        decreases |blocks| - k
      {
        HeaderFields(mem, blocks, k);
        if mem[cur + 8] != 0 && mem[cur + 4] >= n {
          FirstFitIs(blocks, n, k);
          Split(cur, n, blocks[k]);
          mem := mem[cur + 8 := 0];
          blocks := HandOut(blocks, k, n);
          HandOutRepresents(old(mem), old(blocks), k, n, mem, blocks);
          HandOutHead(old(blocks), k, n);
          freed := {};
          return cur + HEADER;
        }
        cur := mem[cur + 12];
        k := k + 1;
      }
      FirstFitIs(blocks, n, k);
      return 0;
    }

    /** Cuts block `blk` down to `n` bytes when the rest can hold a header and MIN_SPLIT more. */
    method Split(blk: nat, n: nat, ghost b: Block)
      requires blk == b.addr && InMemory(b) && mem[blk + 4] == b.size && b.size >= n
      modifies this`mem
      ensures mem == SplitMem(old(mem), b, n)
    {
      if mem[blk + 4] <= n + HEADER + MIN_SPLIT { return; }
      var rest := blk + HEADER + n;
      mem := mem[rest := MAGIC];
      mem := mem[rest + 4 := mem[blk + 4] - n - HEADER];
      mem := mem[rest + 8 := 1];
      mem := mem[rest + 12 := mem[blk + 12]];
      mem := mem[blk + 4 := n];
      mem := mem[blk + 12 := rest];
    }

    /** Frees a pointer; `panicked` when the header check refuses it. */
    method Kfree(ptr: Word) returns (panicked: bool)
      requires Valid()
      requires ptr == 0 || LiveAt(blocks, ptr) < |blocks| || Refuses(mem, ptr)
      modifies this
      ensures Valid()
      ensures ptr in old(freed) ==> panicked
      ensures panicked <==> ptr != 0 && LiveAt(old(blocks), ptr) == |old(blocks)|
      ensures ptr == 0 || panicked ==> mem == old(mem) && blocks == old(blocks) && freed == old(freed)
      ensures ptr != 0 && !panicked ==>
                blocks == Release(old(blocks), LiveAt(old(blocks), ptr)) && freed == old(freed) + {ptr}
      ensures PayloadsKept(old(mem), mem, blocks)
    {
      hide Represents; hide Remembered; hide HeaderAt; hide TotalBytes; hide Coalesce; hide LiveAt;
      if ptr == 0 { NullNotFreed(mem, blocks, freed); NullNotLive(mem, blocks); return false; }
      ghost var k := LiveAt(blocks, ptr);
      if k < |blocks| { LiveIsAccepted(mem, blocks, k); }
      if ptr in freed { RememberedIsRefused(mem, blocks, ptr); }
      var blk := Add32(ptr, 0xFFFF_FFF0);
      if mem[blk] != MAGIC || mem[Add32(blk, 8)] != 0 { return true; }
      mem := mem[blk + 8 := 1];
      blocks := blocks[k := blocks[k].(free := true)];
      FreesKeeps(old(mem), old(blocks), k, mem, blocks);
      freed := freed + {ptr};
      ghost var m1, bs1 := mem, blocks;
      CoalesceList();
      FreedPayloadsKept(old(mem), old(blocks), k, m1, bs1, mem, blocks);
      return false;
    }

    /** One forward pass over the list, absorbing free neighbours. */
    method CoalesceList()
      requires Valid()
      modifies this
      ensures Valid() && blocks == Coalesce(old(blocks)) && freed == old(freed)
      ensures PayloadsKept(old(mem), mem, old(blocks))
      ensures forall b: Block :: !b.free ==> (b in old(blocks) <==> b in blocks)
    {
      hide Passing; hide Represents; hide Remembered; hide TotalBytes; hide Coalesce; hide PayloadsKept; hide MergeAt;
      hide MergeMem;
      PassStart(mem, blocks);
      AddressesFit(mem, blocks);
      var cur := start;
      ghost var k := 0;
      while cur != 0 && mem[cur + 12] != 0
        invariant freed == old(freed) && start == old(start) && totalBytes == old(totalBytes)
        invariant k <= |blocks| && cur == AddrAt(blocks, k) && cur + HEADER <= 0x1_0000_0000
        invariant Passing(old(mem), old(blocks), mem, blocks, k)
        decreases |blocks| - k
      {
        PassFields(old(mem), old(blocks), mem, blocks, k);
        var next := mem[cur + 12];
        var endOfCur := cur + HEADER + mem[cur + 4];
        if mem[cur + 8] != 0 && mem[next + 8] != 0 && next == endOfCur {
          PassAbsorb(old(mem), old(blocks), mem, blocks, k);
          blocks := MergeAt(blocks, k);
          mem := mem[cur + 4 := mem[cur + 4] + HEADER + mem[next + 4]][cur + 12 := mem[next + 12]];
        } else {
          PassSkip(old(mem), old(blocks), mem, blocks, k);
          cur := next;
          k := k + 1;
        }
      }
      PassDone(old(mem), old(blocks), mem, blocks, k);
    }
  }

  ghost function FramesOf(bs: seq<Block>): set<nat> {
    set b | b in bs :: b.addr / 4096
  }

  lemma LeastIsIssued(s: Frames, phys: Word)
    requires Tracked(s.clear) && phys == AllocResult(s) && phys != 0
    ensures phys % 4096 == 0 && phys / 4096 in s.clear && 0 < phys < MAX_FRAMES * 4096
    ensures forall f :: f in s.clear ==> phys / 4096 <= f
  {
    assert phys == Least(s.clear) * 4096;
  }

  /** The header written for a new frame, and the link from the block before it. */
  function AppendMem(m: HeapMemory, prev: nat, a: nat): HeapMemory
    requires a + HEADER <= 0x1_0000_0000 && prev + HEADER <= 0x1_0000_0000
  {
    var h := m[a := MAGIC][a + 4 := PAGE_SIZE - HEADER][a + 8 := 1][a + 12 := 0];
    if prev == 0 then h else h[prev + 12 := a]
  }

  ghost predicate Appends(m: HeapMemory, bs: seq<Block>, a: nat, m': HeapMemory, cs: seq<Block>) {
    && Represents(m, bs) && (forall b :: b in bs ==> PageBlock(b) && b.addr + PAGE_SIZE <= a)
    && a % 4096 == 0 && 0 < a < MAX_FRAMES * 4096
    && cs == bs + [Block(a, PAGE_SIZE - HEADER, true)]
    && LastAddr(bs) + HEADER <= 0x1_0000_0000 && m' == AppendMem(m, LastAddr(bs), a)
  }

  function LastAddr(bs: seq<Block>): nat { if bs == [] then 0 else bs[|bs| - 1].addr }

  lemma AppendHeader(m: HeapMemory, bs: seq<Block>, a: nat, m': HeapMemory, cs: seq<Block>, i: nat)
    requires Appends(m, bs, a, m', cs) && i < |cs|
    ensures HeaderAt(m', cs, i)
  {
    var n := |bs|;
    if i < n {
      assert HeaderAt(m, bs, i) && cs[i] == bs[i] && bs[i] in bs;
      assert End(bs[i]) <= a;
      if i < n - 1 {
        assert End(bs[i]) <= bs[n - 1].addr;
        HeaderKept(m, bs, i, m', cs, i);
      }
    } else if n > 0 {
      assert bs[n - 1] in bs;
    }
  }

  lemma AppendRepresents(m: HeapMemory, bs: seq<Block>, a: nat, m': HeapMemory, cs: seq<Block>)
    requires Appends(m, bs, a, m', cs)
    ensures Represents(m', cs) && TotalBytes(cs) == TotalBytes(bs) + PAGE_SIZE
    ensures AddrAt(cs, 0) == if bs == [] then a else AddrAt(bs, 0)
    ensures AddrAt(bs, 0) == 0 <==> bs == []
  {
    hide HeaderAt; hide AppendMem;
    AddressesFit(m, bs);
    forall i: nat | i < |cs| ensures HeaderAt(m', cs, i) { AppendHeader(m, bs, a, m', cs, i); }
    var n := |bs|;
    AppendOrdered(bs, cs[n]);
    hide PageBlock; hide Ordered; hide Aligned;
    BytesOfConcat(bs, [cs[n]]);
    assert [cs[n]][1..] == [];
  }

  lemma AppendOrdered(bs: seq<Block>, b: Block)
    requires Ordered(bs) && Aligned(bs) && b.addr % 4096 == 0 && b.size == PAGE_SIZE - HEADER
    requires forall c :: c in bs ==> PageBlock(c) && c.addr + PAGE_SIZE <= b.addr
    ensures Ordered(bs + [b]) && Aligned(bs + [b])
  {
    hide Ordered; hide Aligned;
    forall c | c in bs ensures End(c) <= b.addr {}
    hide PageBlock;
    OrderedAppend(bs, b);
    FrameIsAligned(b.addr);
    AlignedAppend(bs, b);
  }

  lemma FrameIsAligned(a: nat)
    requires a % 4096 == 0
    ensures a % 4 == 0
  {
    assert a == 4 * (a / 4096 * 1024);
  }

  lemma OrderedAppend(bs: seq<Block>, b: Block)
    requires Ordered(bs) && forall c :: c in bs ==> End(c) <= b.addr
    ensures Ordered(bs + [b])
  {
    var cs := bs + [b];
    forall i, j | 0 <= i < j < |cs| ensures End(cs[i]) <= cs[j].addr {
      if j == |bs| { assert bs[i] in bs; }
    }
  }

  lemma AlignedAppend(bs: seq<Block>, b: Block)
    requires Aligned(bs) && b.addr % 4 == 0 && b.size % 4 == 0
    ensures Aligned(bs + [b])
  {
  }

  lemma AppendFrames(bs: seq<Block>, b: Block)
    ensures FramesOf(bs + [b]) == FramesOf(bs) + {b.addr / 4096}
  {
    assert forall c :: c in bs + [b] <==> c in bs || c == b;
  }

  /** The state of a coalescing pass that started from `start` and has reached block `k`. */
  ghost predicate Passing(mStart: HeapMemory, start: seq<Block>, m: HeapMemory, bs: seq<Block>, k: nat) {
    && Represents(m, bs) && k <= |bs|
    && TotalBytes(bs) == TotalBytes(start) && AddrAt(bs, 0) == AddrAt(start, 0)
    && Coalesce(start) == bs[..k] + Coalesce(bs[k..])
    && PayloadsKept(mStart, m, start)
    && (forall b: Block :: !b.free ==> (b in start <==> b in bs))
    && (forall p :: Remembered(mStart, start, p) ==> Remembered(m, bs, p))
  }

  lemma PassStart(m: HeapMemory, bs: seq<Block>)
    requires Represents(m, bs)
    ensures Passing(m, bs, m, bs, 0)
  {
    assert bs[0..] == bs && bs[..0] + Coalesce(bs[0..]) == Coalesce(bs);
  }

  lemma PassFields(mStart: HeapMemory, start: seq<Block>, m: HeapMemory, bs: seq<Block>, k: nat)
    requires Passing(mStart, start, m, bs, k) && k < |bs|
    requires bs[k].addr + 12 < 0x1_0000_0000 && m[bs[k].addr + 12] != 0
    ensures k + 1 < |bs| && m[bs[k].addr + 12] == bs[k + 1].addr
    ensures m[bs[k].addr + 4] == bs[k].size && bs[k + 1].addr + HEADER <= 0x1_0000_0000
            && bs[k].addr + HEADER <= bs[k + 1].addr
    ensures m[bs[k].addr + 8] != 0 <==> bs[k].free
    ensures m[bs[k + 1].addr + 8] != 0 <==> bs[k + 1].free
  {
    assert HeaderAt(m, bs, k);
    assert HeaderAt(m, bs, k + 1);
  }

  lemma PassAbsorb(mStart: HeapMemory, start: seq<Block>, m: HeapMemory, bs: seq<Block>, k: nat)
    requires Passing(mStart, start, m, bs, k) && k + 1 < |bs| && Mergeable(bs[k], bs[k + 1])
    ensures bs[k].addr + HEADER <= bs[k + 1].addr && bs[k + 1].addr + HEADER <= 0x1_0000_0000
    ensures m[bs[k].addr + 4] + HEADER + m[bs[k + 1].addr + 4] < 0x1_0000_0000
    ensures |MergeAt(bs, k)| == |bs| - 1 && AddrAt(MergeAt(bs, k), k) == AddrAt(bs, k)
    ensures Passing(mStart, start,
                    m[bs[k].addr + 4 := m[bs[k].addr + 4] + HEADER + m[bs[k + 1].addr + 4]]
                     [bs[k].addr + 12 := m[bs[k + 1].addr + 12]],
                    MergeAt(bs, k), k)
  {
    hide HeaderAt; hide Remembered; hide Coalesce; hide TotalBytes; hide Ordered; hide Aligned; hide SameCover;
    CanAbsorb(m, bs, k);
    var m', cs := MergeMem(m, bs[k].addr, bs[k + 1].addr), MergeAt(bs, k);
    AbsorbRepresents(m, bs, k, m', cs);
    AbsorbKeeps(m, bs, k, m', cs);
    MergeAtRearranges(bs, k);
    MergedHead(bs, k);
    CoalesceMerge(bs, k);
  }

  lemma PassSkip(mStart: HeapMemory, start: seq<Block>, m: HeapMemory, bs: seq<Block>, k: nat)
    requires Passing(mStart, start, m, bs, k) && k + 1 < |bs| && !Mergeable(bs[k], bs[k + 1])
    ensures Passing(mStart, start, m, bs, k + 1)
  {
    CoalesceSkip(bs, k);
  }

  lemma PassDone(mStart: HeapMemory, start: seq<Block>, m: HeapMemory, bs: seq<Block>, k: nat)
    requires Passing(mStart, start, m, bs, k)
    requires AddrAt(bs, k) == 0 || (AddrAt(bs, k) + 12 < 0x1_0000_0000 && m[AddrAt(bs, k) + 12] == 0)
    ensures bs == Coalesce(start) && Represents(m, bs) && PayloadsKept(mStart, m, start)
    ensures TotalBytes(bs) == TotalBytes(start) && AddrAt(bs, 0) == AddrAt(start, 0)
    ensures forall b: Block :: !b.free ==> (b in start <==> b in bs)
    ensures forall p :: Remembered(mStart, start, p) ==> Remembered(m, bs, p)
  {
    CoalesceDone(m, bs, k);
  }

  lemma HeaderFields(m: HeapMemory, bs: seq<Block>, k: nat)
    requires Represents(m, bs) && k < |bs|
    ensures InMemory(bs[k]) && m[bs[k].addr + 4] == bs[k].size && (m[bs[k].addr + 8] != 0 <==> bs[k].free)
    ensures m[bs[k].addr + 12] == AddrAt(bs, k + 1)
  {
    assert HeaderAt(m, bs, k);
  }

  lemma FirstFitIs(bs: seq<Block>, n: nat, k: nat)
    requires k <= |bs| && forall i :: 0 <= i < k ==> !(bs[i].free && bs[i].size >= n)
    requires k < |bs| ==> bs[k].free && bs[k].size >= n
    ensures FirstFit(bs, n) == k
  {
  }

  lemma NullStart(m: HeapMemory, bs: seq<Block>, n: nat)
    requires Represents(m, bs)
    ensures AddrAt(bs, 0) == 0 <==> bs == []
    ensures bs == [] ==> FirstFit(bs, n) == 0
  {
    AddressesFit(m, bs);
  }

  lemma HandOutHead(bs: seq<Block>, k: nat, n: nat)
    requires k < |bs| && bs[k].size >= n
    ensures AddrAt(HandOut(bs, k, n), 0) == AddrAt(bs, 0)
  {
  }

  lemma NullNotFreed(m: HeapMemory, bs: seq<Block>, freed: set<nat>)
    requires forall p :: p in freed ==> Remembered(m, bs, p)
    ensures 0 !in freed
  {
  }

  lemma NullNotLive(m: HeapMemory, bs: seq<Block>)
    requires Represents(m, bs)
    ensures LiveAt(bs, 0) == |bs|
  {
  }

  lemma FreedPayloadsKept(m0: HeapMemory, bs: seq<Block>, k: nat, m1: HeapMemory, bs1: seq<Block>, m2: HeapMemory,
                          cs: seq<Block>)
    requires Frees(m0, bs, k, m1, bs1) && PayloadsKept(m1, m2, bs1)
    requires forall b: Block :: !b.free ==> (b in bs1 <==> b in cs)
    ensures PayloadsKept(m0, m2, cs)
  {
    FreesKeeps(m0, bs, k, m1, bs1);
    assert forall b :: b in bs1 && !b.free ==> b in bs;
  }

  lemma MergedHead(bs: seq<Block>, k: nat)
    requires k + 1 < |bs|
    ensures AddrAt(MergeAt(bs, k), 0) == AddrAt(bs, 0)
  {
  }

  lemma CoalesceMerge(bs: seq<Block>, k: nat)
    requires k + 1 < |bs| && Mergeable(bs[k], bs[k + 1])
    ensures var cs := MergeAt(bs, k);
            cs[..k] == bs[..k] && Coalesce(cs[k..]) == Coalesce(bs[k..])
  {
    var cs := MergeAt(bs, k);
    assert cs[k..] == [Merge(bs[k], bs[k + 1])] + bs[k..][2..];
  }

  lemma CoalesceSkip(bs: seq<Block>, k: nat)
    requires k + 1 < |bs| && !Mergeable(bs[k], bs[k + 1])
    ensures bs[..k] + Coalesce(bs[k..]) == bs[..k + 1] + Coalesce(bs[k + 1..])
  {
    assert bs[k..][1..] == bs[k + 1..];
  }

  lemma CoalesceDone(m: HeapMemory, bs: seq<Block>, k: nat)
    requires Represents(m, bs) && k <= |bs|
    requires AddrAt(bs, k) == 0 || (AddrAt(bs, k) + 12 < 0x1_0000_0000 && m[AddrAt(bs, k) + 12] == 0)
    ensures bs[..k] + Coalesce(bs[k..]) == bs
  {
    AddressesFit(m, bs);
    if k < |bs| { assert HeaderAt(m, bs, k); }
  }

  lemma AddressesFit(m: HeapMemory, bs: seq<Block>)
    requires Represents(m, bs)
    ensures forall i: nat :: i < |bs| ==> 0 < bs[i].addr && End(bs[i]) < 0x1_0000_0000
  {
    forall i: nat | i < |bs| ensures InMemory(bs[i]) { assert HeaderAt(m, bs, i); }
  }
}
