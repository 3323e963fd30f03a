/**
 What a process holds (its control block, two stack frames and an address
 space), and the accounting of these resources over a process's life.
 */
module ProcessSpec {
  import opened Machine
  import opened FrameAllocator
  import opened AddressSpace
  import opened CloneSpec
  import opened Growth
  import opened ElfSpec
  import opened HeapSpec
  import opened HeapRuns
  import opened SchedSpec

  const PCB_BYTES: Word := 188           // sizeof(process_t)

  // ---------------------------------------------------------------- pointers handed out by the heap

  ghost function LivePtrs(bs: seq<Block>): set<nat> {
    set b | b in Live(bs) :: Payload(b)
  }

  ghost function SizeAt(bs: seq<Block>, p: nat): nat {
    var k := LiveAt(bs, p);
    if k < |bs| then bs[k].size else 0
  }

  /** The pointers handed out, each with the size of its block. */
  ghost function LiveSizes(bs: seq<Block>): map<nat, nat> {
    map p | p in LivePtrs(bs) :: SizeAt(bs, p)
  }

  lemma LivePtrsAt(bs: seq<Block>, p: nat)
    ensures p in LivePtrs(bs) <==> LiveAt(bs, p) < |bs|
  {
    var k := LiveAt(bs, p);
    if k < |bs| { assert bs[k] in Live(bs); }
  }

  lemma SizeOfLive(bs: seq<Block>, b: Block)
    requires Ordered(bs) && b in Live(bs)
    ensures SizeAt(bs, Payload(b)) == b.size
  {
    var i :| 0 <= i < |bs| && bs[i] == b;
    assert LiveAt(bs, Payload(b)) == i;
  }

  /** Pointer `p` is new in `live`, with room for a control block; the other pointers are as in `live0`. */
  ghost predicate HandedOut(live0: map<nat, nat>, live: map<nat, nat>, p: nat) {
    p !in live0 && p in live && 188 <= live[p] <= 212 && live == live0[p := live[p]]
  }

  /** A successful kmalloc hands out one new pointer, inside the arena. */
  lemma MallocPtr(bs: seq<Block>, k: nat, cs: seq<Block>)
    requires Ordered(bs) && Aligned(bs) && k == FirstFit(bs, Round(PCB_BYTES)) < |bs|
    requires cs == MallocStep(bs, PCB_BYTES)
    ensures HandedOut(LiveSizes(bs), LiveSizes(cs), Payload(bs[k]))
    ensures SameCover(bs, cs) && Covered(bs, Payload(bs[k]))
  {
    hide FirstFit; hide Round; hide HandOut; hide Ordered; hide Aligned; hide Live; hide TotalBytes; hide SizeAt;
    AllocTiles(bs, k, Round(PCB_BYTES));
    RoundHoldsRequest(PCB_BYTES);
    assert Contains(bs[k], Payload(bs[k]));
    var c := Carved(bs[k], Round(PCB_BYTES))[0];
    assert 188 <= c.size <= 212;
    SizeOfLive(cs, c);
    forall b | b in Live(bs) ensures SizeAt(cs, Payload(b)) == SizeAt(bs, Payload(b)) {
      SizeOfLive(bs, b);
      SizeOfLive(cs, b);
    }
  }

  lemma OtherLive(bs: seq<Block>, k: nat, cs: seq<Block>, b: Block)
    requires Ordered(bs) && Ordered(cs) && k < |bs| && b in Live(bs) && b != bs[k] && b in Live(cs)
    ensures Payload(b) != Payload(bs[k]) && SizeAt(cs, Payload(b)) == SizeAt(bs, Payload(b))
  {
    hide Ordered; hide SizeAt;
    var i :| 0 <= i < |bs| && bs[i] == b;
    DistinctAddresses(bs, i, k);
    SizeOfLive(bs, b);
    SizeOfLive(cs, b);
  }

  lemma FreePtr(bs: seq<Block>, k: nat)
    requires Ordered(bs) && Aligned(bs) && k < |bs| && !bs[k].free
    ensures LiveSizes(Release(bs, k)) == LiveSizes(bs) - {Payload(bs[k])} && SameCover(bs, Release(bs, k))
  {
    hide Release; hide SizeAt; hide Ordered; hide Aligned; hide TotalBytes; hide Covered; hide NoAdjacentFree;
    ReleaseTiles(bs, k);
    var cs := Release(bs, k);
    assert bs[k] in Live(bs);
    hide Live;
    forall b | b in Live(bs) && b != bs[k]
      ensures Payload(b) != Payload(bs[k]) && SizeAt(cs, Payload(b)) == SizeAt(bs, Payload(b))
    {
      OtherLive(bs, k, cs, b);
    }
    assert LivePtrs(cs) == LivePtrs(bs) - {Payload(bs[k])};
  }

  // ---------------------------------------------------------------- the frames of the heap

  /** Every byte of the heap lies in a frame set aside for it. */
  ghost predicate Arena(bs: seq<Block>, w: World) {
    forall x: nat :: Covered(bs, x) ==> HasRole(w, x / 4096, HeapFrame)
  }

  /** No frame of the heap is given another purpose. */
  ghost predicate KeepsHeap(w: World, v: World) {
    forall f :: HasRole(w, f, HeapFrame) ==> HasRole(v, f, HeapFrame)
  }

  lemma ArenaStays(bs: seq<Block>, w: World, v: World)
    requires Arena(bs, w) && KeepsHeap(w, v)
    ensures Arena(bs, v)
  {
    hide Covered;
  }

  lemma GrewArena(bs: seq<Block>, w: World, v: World, pd: nat)
    requires Arena(bs, w) && Grew(w, v, pd)
    ensures Arena(bs, v)
  {
    hide Covered;
    assert KeepsHeap(w, v);
  }

  lemma RollbackKeepsHeap(w: World, v: World)
    requires RolledBack(w, v)
    ensures KeepsHeap(w, v)
  {
  }

  // ---------------------------------------------------------------- what a process holds

  /** Process `p` holds a heap block, its own directory and two stack frames. */
  ghost predicate Held(b: Pcb, p: Ptr, w: World, owner: map<nat, Ptr>, live: map<nat, nat>, kernelPd: nat) {
    && p in live && live[p] >= PCB_BYTES
    && b.cr3 != 0 && b.cr3 % 4096 == 0 && b.cr3 / 4096 < PHYS_FRAMES
    && b.cr3 / 4096 in w.dirs && b.cr3 / 4096 != kernelPd
    && b.cr3 / 4096 in owner && owner[b.cr3 / 4096] == p
    && b.stackLo % 4096 == 0 && HasRole(w, b.stackLo / 4096, Reserved(p, 0))
    && b.stackHi % 4096 == 0 && HasRole(w, b.stackHi / 4096, Reserved(p, 1))
  }

  ghost predicate AllHeld(pcb: map<Ptr, Pcb>, idle: Ptr, w: World, owner: map<nat, Ptr>, live: map<nat, nat>,
                          kernelPd: nat) {
    forall p :: p in pcb && p != idle ==> Held(pcb[p], p, w, owner, live, kernelPd)
  }

  /** The frames process `b` returns when it is freed. */
  ghost function FramesHeld(b: Pcb, m: Memory): set<nat>
    requires b.cr3 / 4096 < PHYS_FRAMES
  {
    {b.stackLo / 4096, b.stackHi / 4096} + Owned(m, b.cr3 / 4096)
  }

  /** The world after `process_free`. */
  ghost function WithoutProcess(w: World, b: Pcb): World
    requires b.cr3 / 4096 < PHYS_FRAMES
  {
    var stacks := {b.stackLo / 4096, b.stackHi / 4096};
    FreeWorld(w.(clear := w.clear + stacks, role := w.role - stacks), b.cr3 / 4096)
  }

  lemma ReleaseStacks(w: World, b: Pcb, p: Ptr, owner: map<nat, Ptr>, live: map<nat, nat>, kernelPd: nat)
    requires WorldOk(w) && Held(b, p, w, owner, live, kernelPd)
    ensures var lo, hi := b.stackLo / 4096, b.stackHi / 4096;
            && lo != hi && 0 < lo < MAX_FRAMES && 0 < hi < MAX_FRAMES
            && WorldOk(w.(clear := w.clear + {lo, hi}, role := w.role - {lo, hi}))
  {
    hide DirectoryOk; hide LeavesOk;
    var lo, hi := b.stackLo / 4096, b.stackHi / 4096;
    UnreserveFrame(w, lo, p, 0);
    var w1 := w.(role := w.role - {lo});
    GiveBack(w1, lo);
    var w2 := w1.(clear := w1.clear + {lo});
    UnreserveFrame(w2, hi, p, 1);
    var w3 := w2.(role := w2.role - {hi});
    GiveBack(w3, hi);
    assert w3.(clear := w3.clear + {hi}) == w.(clear := w.clear + {lo, hi}, role := w.role - {lo, hi});
  }

  /** Another process still holds what it held once the directory and stacks of `b` are gone. */
  lemma OtherStillHolds(u: World, d: nat, c: Pcb, q: Ptr, owner: map<nat, Ptr>, live: map<nat, nat>, kernelPd: nat)
    requires WorldOk(u) && d in u.dirs && d < PHYS_FRAMES && Held(c, q, u, owner, live, kernelPd)
    requires c.cr3 / 4096 != d
    ensures Held(c, q, FreeWorld(u, d), owner, live, kernelPd)
  {
    hide Owned; hide WorldOk;
    DirHasNoStack(u, d, c.stackLo / 4096, q, 0);
    DirHasNoStack(u, d, c.stackHi / 4096, q, 1);
  }

  /** Freeing one process returns exactly its frames and takes nothing from the others. */
  lemma FreeProcessKeeps(pcb: map<Ptr, Pcb>, idle: Ptr, p: Ptr, w: World, owner: map<nat, Ptr>, live: map<nat, nat>,
                         kernelPd: nat, v: World)
    requires WorldOk(w) && AllHeld(pcb, idle, w, owner, live, kernelPd) && p in pcb && p != idle
    requires pcb[p].cr3 / 4096 < PHYS_FRAMES && v == WithoutProcess(w, pcb[p])
    ensures WorldOk(v) && v.mem == w.mem && v.clear == w.clear + FramesHeld(pcb[p], w.mem)
    ensures AllHeld(pcb - {p}, idle, v, owner, live - {p}, kernelPd)
    ensures v.dirs == w.dirs - {pcb[p].cr3 / 4096}
  {
    hide Owned; hide WorldOk;
    var b := pcb[p];
    var d := b.cr3 / 4096;
    assert Held(b, p, w, owner, live, kernelPd);
    ReleaseStacks(w, b, p, owner, live, kernelPd);
    var u := w.(clear := w.clear + {b.stackLo / 4096, b.stackHi / 4096},
      role := w.role - {b.stackLo / 4096, b.stackHi / 4096});
    FreeKeepsWorld(u, d);
    forall q | q in pcb - {p} && q != idle ensures Held(pcb[q], q, v, owner, live - {p}, kernelPd) {
      assert Held(pcb[q], q, w, owner, live, kernelPd);
      assert Held(pcb[q], q, u, owner, live - {p}, kernelPd);
      OtherStillHolds(u, d, pcb[q], q, owner, live - {p}, kernelPd);
    }
  }

  /** A process that is freed returns none of the heap's frames. */
  lemma FreeKeepsHeap(w: World, b: Pcb, p: Ptr, owner: map<nat, Ptr>, live: map<nat, nat>, kernelPd: nat)
    requires WorldOk(w) && Held(b, p, w, owner, live, kernelPd)
    ensures KeepsHeap(w, WithoutProcess(w, b))
  {
    hide Owned; hide WorldOk;
    ReleaseStacks(w, b, p, owner, live, kernelPd);
    var lo, hi := b.stackLo / 4096, b.stackHi / 4096;
    var u := w.(clear := w.clear + {lo, hi}, role := w.role - {lo, hi});
    forall f | HasRole(w, f, HeapFrame) ensures HasRole(WithoutProcess(w, b), f, HeapFrame) {
      OwnedByRole(u, b.cr3 / 4096, f);
      NotADirectory(u, b.cr3 / 4096, f);
    }
  }

  lemma NotADirectory(w: World, d: nat, f: nat)
    requires WorldOk(w) && d in w.dirs && HasRole(w, f, HeapFrame)
    ensures f != d
  {
    assert DirectoryOk(w, d);
  }

  /** All frames held by the processes in `gone`. */
  ghost function FramesHeldBy(pcb: map<Ptr, Pcb>, gone: set<Ptr>, m: Memory): set<nat>
    requires forall p :: p in gone ==> p in pcb && pcb[p].cr3 / 4096 < PHYS_FRAMES
  {
    set p, f | p in gone && f in FramesHeld(pcb[p], m) :: f
  }

  lemma FramesHeldByOne(pcb: map<Ptr, Pcb>, gone: set<Ptr>, z: Ptr, m: Memory)
    requires forall p :: p in gone + {z} ==> p in pcb && pcb[p].cr3 / 4096 < PHYS_FRAMES
    ensures FramesHeldBy(pcb, gone + {z}, m) == FramesHeldBy(pcb, gone, m) + FramesHeld(pcb[z], m)
  {
    hide FramesHeld;
  }

  lemma DirHasNoStack(w: World, d: nat, f: nat, owner: nat, part: nat)
    requires WorldOk(w) && d in w.dirs && d < PHYS_FRAMES && HasRole(w, f, Reserved(owner, part))
    ensures f !in Owned(w.mem, d)
  {
    assert DirectoryOk(w, d);
    OwnedByRole(w, d, f);
  }

  /**
   Two processes never hold the same frame, and no held frame is free: so what
   reaping returns for one process is never in use by another, the running one
   included.
   */
  lemma HoldingsAreDisjoint(pcb: map<Ptr, Pcb>, idle: Ptr, w: World, owner: map<nat, Ptr>, live: map<nat, nat>,
                            kernelPd: nat, p: Ptr, q: Ptr)
    requires WorldOk(w) && AllHeld(pcb, idle, w, owner, live, kernelPd)
    requires p in pcb && q in pcb && p != idle && q != idle && p != q
    ensures pcb[p].cr3 / 4096 < PHYS_FRAMES && pcb[q].cr3 / 4096 < PHYS_FRAMES
    ensures FramesHeld(pcb[p], w.mem) !! FramesHeld(pcb[q], w.mem)
    ensures FramesHeld(pcb[p], w.mem) !! w.clear
  {
    hide DirectoryOk; hide LeavesOk; hide Owned; hide WorldOk; hide TablesOk;
    assert Held(pcb[p], p, w, owner, live, kernelPd) && Held(pcb[q], q, w, owner, live, kernelPd);
    var d, e := pcb[p].cr3 / 4096, pcb[q].cr3 / 4096;
    OwnershipIsDisjoint(w, d, e);
    DirHasNoStack(w, d, pcb[q].stackLo / 4096, q, 0);
    DirHasNoStack(w, d, pcb[q].stackHi / 4096, q, 1);
    DirHasNoStack(w, e, pcb[p].stackLo / 4096, p, 0);
    DirHasNoStack(w, e, pcb[p].stackHi / 4096, p, 1);
    RolesAreUsed(w);
  }

  lemma RolesAreUsed(w: World)
    requires WorldOk(w)
    ensures forall f :: f in w.role ==> f !in w.clear
  {
  }

  // ---------------------------------------------------------------- creation

  /** The world after a process got directory `d` and stack frames `lo`, `hi`. */
  ghost function WithProcess(w: World, kernelPd: nat, p: Ptr, d: nat, lo: nat, hi: nat): World
    requires kernelPd < PHYS_FRAMES && d < PHYS_FRAMES
  {
    var v := CreateWorld(w, kernelPd, d);
    v.(clear := v.clear - {lo} - {hi}, role := v.role[lo := Reserved(p, 0)][hi := Reserved(p, 1)])
  }

  /** Giving up right after the directory was created leaves everything as it was. */
  lemma CreateThenFree(w: World, kernelPd: nat, d: nat)
    requires WorldOk(w) && kernelPd in w.dirs && kernelPd < PHYS_FRAMES && d in w.clear && d < PHYS_FRAMES
    ensures RolledBack(w, FreeWorld(CreateWorld(w, kernelPd, d), d))
  {
    CreateKeepsWorld(w, kernelPd, d);
    hide WorldOk; hide Owned; hide NewDirectory;
    FreeFacts(w);
    var v := FreeWorld(CreateWorld(w, kernelPd, d), d);
    assert v.role == w.role;
    assert v.clear == w.clear;
    assert v.dirs == w.dirs;
  }

  lemma FreeFacts(w: World)
    requires WorldOk(w)
    ensures forall f :: f in w.clear ==> f !in w.role && f !in w.dirs && 0 < f < MAX_FRAMES
  {
    forall f | f in w.clear ensures f !in w.dirs {
      assert f in w.dirs ==> DirectoryOk(w, f);
    }
  }

  /** The new process holds its resources and the others still hold theirs. */
  lemma AddProcess(pcb: map<Ptr, Pcb>, idle: Ptr, w: World, owner: map<nat, Ptr>, live: map<nat, nat>, kernelPd: nat,
                   p: Ptr, b: Pcb, v: World, live': map<nat, nat>)
    requires WorldOk(w) && AllHeld(pcb, idle, w, owner, live, kernelPd) && kernelPd in w.dirs && kernelPd < PHYS_FRAMES
    requires HandedOut(live, live', p)
    requires b.cr3 != 0 && b.cr3 % 4096 == 0 && b.stackLo % 4096 == 0 && b.stackHi % 4096 == 0
    requires b.cr3 / 4096 in w.clear && b.stackLo / 4096 in w.clear && b.stackHi / 4096 in w.clear
    requires b.cr3 / 4096 != b.stackLo / 4096 && b.cr3 / 4096 != b.stackHi / 4096
             && b.stackLo / 4096 != b.stackHi / 4096
    requires v == WithProcess(w, kernelPd, p, b.cr3 / 4096, b.stackLo / 4096, b.stackHi / 4096)
    ensures AllHeld(pcb[p := b], idle, v, owner[b.cr3 / 4096 := p], live', kernelPd)
    ensures v.clear == w.clear - {b.cr3 / 4096, b.stackLo / 4096, b.stackHi / 4096}
  {
    hide WorldOk; hide NewDirectory;
    FreeFacts(w);
    forall q | q in pcb && q != idle && q != p
      ensures Held(pcb[q], q, v, owner[b.cr3 / 4096 := p], live', kernelPd) {
      assert Held(pcb[q], q, w, owner, live, kernelPd);
    }
  }

  lemma CreateKeepsHeap(w: World, kernelPd: nat, p: Ptr, d: nat, lo: nat, hi: nat)
    requires WorldOk(w) && kernelPd < PHYS_FRAMES && d < PHYS_FRAMES
    requires d in w.clear && lo in w.clear && hi in w.clear
    ensures KeepsHeap(w, WithProcess(w, kernelPd, p, d, lo, hi))
  {
    RolesAreUsed(w);
  }

  lemma RolledBackRefl(w: World)
    ensures RolledBack(w, w)
  {
  }

  /** Tearing down a process that was just set up leaves everything as it was. */
  lemma SetUpThenTearDown(w: World, kernelPd: nat, p: Ptr, b: Pcb, v: World)
    requires WorldOk(w) && kernelPd in w.dirs && kernelPd < PHYS_FRAMES
    requires b.cr3 / 4096 in w.clear && b.stackLo / 4096 in w.clear && b.stackHi / 4096 in w.clear
    requires b.cr3 / 4096 != b.stackLo / 4096 && b.cr3 / 4096 != b.stackHi / 4096
             && b.stackLo / 4096 != b.stackHi / 4096
    requires v == WithProcess(w, kernelPd, p, b.cr3 / 4096, b.stackLo / 4096, b.stackHi / 4096)
    ensures RolledBack(w, WithoutProcess(v, b))
  {
    CreateKeepsWorld(w, kernelPd, b.cr3 / 4096);
    hide WorldOk; hide Owned; hide NewDirectory;
    FreeFacts(w);
    var u := WithoutProcess(v, b);
    assert u.role == w.role;
    assert u.clear == w.clear;
    assert u.dirs == w.dirs;
  }

  lemma RolledBackHeld(pcb: map<Ptr, Pcb>, idle: Ptr, w: World, v: World, owner: map<nat, Ptr>, owner': map<nat, Ptr>,
                       live: map<nat, nat>, kernelPd: nat)
    requires AllHeld(pcb, idle, w, owner, live, kernelPd) && RolledBack(w, v)
    requires forall d :: d in w.dirs && d in owner ==> d in owner' && owner'[d] == owner[d]
    ensures AllHeld(pcb, idle, v, owner', live, kernelPd)
  {
    forall p | p in pcb && p != idle ensures Held(pcb[p], p, v, owner', live, kernelPd) {
      assert Held(pcb[p], p, w, owner, live, kernelPd);
    }
  }

  /** Growing an address space takes nothing away from any process. */
  lemma GrewHeld(pcb: map<Ptr, Pcb>, idle: Ptr, w: World, v: World, pd: nat, owner: map<nat, Ptr>, live: map<nat, nat>,
                 kernelPd: nat)
    requires AllHeld(pcb, idle, w, owner, live, kernelPd) && Grew(w, v, pd)
    ensures AllHeld(pcb, idle, v, owner, live, kernelPd)
  {
    hide Walk; hide Present; hide FrameOf;
    forall p | p in pcb && p != idle ensures Held(pcb[p], p, v, owner, live, kernelPd) {
      assert Held(pcb[p], p, w, owner, live, kernelPd);
    }
  }

  // ---------------------------------------------------------------- the user stack

  const USER_STACK_PAGES: nat := 4
  const USER_STACK_PAGE: nat := 0x500    // USER_STACK_BASE / PAGE_SIZE; below the 32 MB boundary

  /** The four pages of the user stack. */
  predicate StackPage(vp: nat) { USER_STACK_PAGE <= vp < USER_STACK_PAGE + USER_STACK_PAGES }

  /**
   The first `n` stack pages are mapped, writable by ring 3, to frames taken
   since `w1`, whose contents nobody changed; others are as in `w1`.
   */
  ghost predicate StackMapped(w1: World, w: World, pd: nat, n: nat)
    requires pd < PHYS_FRAMES
  {
    && Grew(w1, w, pd) && GrewBySteps(w1, w, pd)
    && (forall f :: f in w.role && f !in w1.role ==> w.role[f].LeafOf? && w.role[f].i == 1)
    && (forall f :: f in w1.clear && 0 <= f < PHYS_FRAMES ==> w.mem[f] == w1.mem[f])
    && (n > 0 ==> User(w.mem[pd][1]))
    && (forall a: nat, b: nat :: a < ENTRIES && b < ENTRIES ==>
          if a == 1 && 0x100 <= b < 0x100 + n
          then Walk(w.mem, pd, a, b).MapsTo? && StackFrame(w1, w, pd, Walk(w.mem, pd, a, b), a, b)
          else Walk(w.mem, pd, a, b) == Walk(w1.mem, pd, a, b))
  }

  ghost predicate StackFrame(w1: World, w: World, pd: nat, t: Translation, a: nat, b: nat)
    requires t.MapsTo?
  {
    t.flags == 7 && t.frame in w1.clear && HasRole(w, t.frame, LeafOf(pd, a, b))
  }

  lemma StackStart(w: World, pd: nat)
    requires pd < PHYS_FRAMES
    ensures StackMapped(w, w, pd, 0)
  {
    hide Walk; hide Present; hide FrameOf;
    GrewReflexive(w, pd);
    StepsNone(w, pd);
    hide Grew; hide GrewBySteps;
  }

  /** A stack page needs no table, so its frame is the only one that gets a purpose. */
  lemma StackRoles(w: World, v: World, pd: nat, n: nat, f: nat, page: Page, entry: Word, spare: nat, g: nat)
    requires n < USER_STACK_PAGES && CanGrow(w, pd, 1, 0x100 + n, f, page, entry, spare)
    requires v == GrowWorld(w, pd, 1, 0x100 + n, f, page, entry, spare) && g in v.role && g !in w.role
    ensures v.role[g].LeafOf? && v.role[g].i == 1
  {
    hide Walk; hide FrameOf; hide FlagsOf; hide GrowWorld; hide WorldOk;
    LowSlotPresent(w, pd);
    GrowStepRoles(w, pd, 1, 0x100 + n, f, page, entry, spare);
    GrowLeafRole(w, pd, 1, 0x100 + n, f, page, entry, spare, g);
  }

  /** Mapping a stack page writes no frame that was free when the stack was begun. */
  lemma StackWrites(w1: World, w: World, pd: nat, n: nat, f: nat, page: Page, entry: Word, spare: nat, g: nat)
    requires WorldOk(w1) && pd < PHYS_FRAMES && StackMapped(w1, w, pd, n) && n < USER_STACK_PAGES
    requires CanGrow(w, pd, 1, 0x100 + n, f, page, entry, spare) && g in w1.clear && g < PHYS_FRAMES && g != f
    ensures GrowWorld(w, pd, 1, 0x100 + n, f, page, entry, spare).mem[g] == w1.mem[g]
  {
    hide Walk; hide Present; hide FrameOf; hide FlagsOf; hide GrewBySteps; hide GrowWorld; hide WorldOk;
    FreeFacts(w1);
    LowSlotPresent(w, pd);
    GrewKeepsDirs(w1, w, pd);
    GrowStepMemory(w, pd, 1, 0x100 + n, f, page, entry, spare, g);
  }

  /** Slots of the shared window always have a table, so mapping there cannot run out of one. */
  lemma LowSlotPresent(w: World, pd: nat)
    requires WorldOk(w) && pd in w.dirs
    ensures pd < PHYS_FRAMES && Present(w.mem[pd][1])
  {
    assert DirectoryOk(w, pd);
  }

  lemma StackStep(w1: World, w: World, v: World, pd: nat, n: nat, f: nat, page: Page, entry: Word, spare: nat)
    requires WorldOk(w1) && pd < PHYS_FRAMES && StackMapped(w1, w, pd, n) && n < USER_STACK_PAGES
    requires CanGrow(w, pd, 1, 0x100 + n, f, page, entry, spare) && FlagsOf(entry) == 7
    requires f < PHYS_FRAMES && page == w.mem[f]
    requires v == GrowWorld(w, pd, 1, 0x100 + n, f, page, entry, spare)
    ensures WorldOk(v) && StackMapped(w1, v, pd, n + 1)
  {
    hide Walk; hide Present; hide FrameOf; hide FlagsOf; hide Grew; hide GrewBySteps; hide GrowWorld; hide CanGrow;
    hide WorldOk;
    GrowStepWalk(w, pd, 1, 0x100 + n, f, page, entry, spare);
    GrowTwice(w1, w, pd, 1, 0x100 + n, f, page, entry, spare);
    StepsOneMore(w1, w, pd, 1, 0x100 + n, f, page, entry, spare);
    GrowFrame(w, pd, 1, 0x100 + n, f, page, entry, spare);
    GrowStepRoles(w, pd, 1, 0x100 + n, f, page, entry, spare);
    GrewKeepsDirs(w1, w, pd);
    forall g | g in v.role && g !in w1.role ensures v.role[g].LeafOf? && v.role[g].i == 1 {
      if g !in w.role { StackRoles(w, v, pd, n, f, page, entry, spare, g); }
    }
    GrowStepSlots(w, pd, 1, 0x100 + n, f, page, entry, spare, 1);
    forall g | g in w1.clear && 0 <= g < PHYS_FRAMES ensures v.mem[g] == w1.mem[g] {
      if g != f { StackWrites(w1, w, pd, n, f, page, entry, spare, g); }
    }
    forall a: nat, b: nat | a < ENTRIES && b < ENTRIES
      ensures if a == 1 && 0x100 <= b < 0x100 + (n + 1)
              then Walk(v.mem, pd, a, b).MapsTo? && StackFrame(w1, v, pd, Walk(v.mem, pd, a, b), a, b)
              else Walk(v.mem, pd, a, b) == Walk(w1.mem, pd, a, b)
    {
      assert Walk(v.mem, pd, a, b) == if SameSlot(pd, 1, 0x100 + n, pd, a, b) then MapsTo(f, FlagsOf(entry))
             else Walk(w.mem, pd, a, b);
    }
  }

  /** Ring 3 may read and write every page of its stack. */
  lemma StackIsUsable(w1: World, w: World, pd: nat, k: nat)
    requires WorldOk(w) && pd in w.dirs && pd < PHYS_FRAMES && StackMapped(w1, w, pd, USER_STACK_PAGES)
    requires k < USER_STACK_PAGES
    ensures UserPage(w.mem, pd, 1, 0x100 + k) && WritablePage(w.mem, pd, 1, 0x100 + k)
  {
    hide Grew; hide GrewBySteps; hide LeavesOk; hide Present; hide FrameOf;
    assert Walk(w.mem, pd, 1, 0x100 + k).MapsTo?;
    assert DirectoryOk(w, pd);
  }

  /** The shipped stack address lies in the shared window, so its frames never come back. */
  lemma UserStackIsLost(w1: World, w: World, pd: nat, k: nat)
    requires WorldOk(w1) && WorldOk(w) && pd < PHYS_FRAMES && StackMapped(w1, w, pd, USER_STACK_PAGES)
             && k < USER_STACK_PAGES
    ensures Walk(w.mem, pd, 1, 0x100 + k).MapsTo?
    ensures Walk(w.mem, pd, 1, 0x100 + k).frame in Lost(w1, w, pd)
  {
    hide DirectoryOk; hide LeavesOk; hide Walk;
    assert Walk(w.mem, pd, 1, 0x100 + k).MapsTo?;
  }

  // ---------------------------------------------------------------- the image under the stack

  /** A page of the image keeps its frame, flags and contents if and only if it is not one of the stack's. */
  lemma ImageKeptIff(w1: World, w2: World, w: World, pd: nat, hs: seq<Phdr>, data: seq<Byte>, vp: nat)
    requires Loaded(w1, w2, pd, hs, data) && pd < PHYS_FRAMES && StackMapped(w2, w, pd, USER_STACK_PAGES)
    requires vp < PAGES && exists k :: 0 <= k < |hs| && Meets(hs[k], vp)
    ensures LastCover(hs, |hs|, vp) >= 0
    ensures WalkPage(w2.mem, pd, vp).MapsTo? && WalkPage(w.mem, pd, vp).MapsTo?
    ensures WalkPage(w.mem, pd, vp).frame == WalkPage(w2.mem, pd, vp).frame <==> !StackPage(vp)
    ensures !StackPage(vp) ==>
              && WalkPage(w.mem, pd, vp) == WalkPage(w2.mem, pd, vp)
              && PageLoaded(w1, w, pd, hs, data, LastCover(hs, |hs|, vp), vp)
  {
    hide Walk; hide Present; hide FrameOf; hide Grew; hide GrewBySteps; hide WorldOk; hide Current; hide User;
    hide Covers; hide Meets; hide HoldsPage; hide StackMapped;
    MetIsCovered(hs, vp);
    assert PageLoaded(w1, w2, pd, hs, data, Decider(hs, |hs|, 0, vp), vp);
    var t := WalkPage(w2.mem, pd, vp);
    StackWalk(w2, w, pd, vp);
    GrewKeepsDirs(w1, w2, pd);
    GrewKeepsLeaf(w2, w, pd, t.frame, vp / 1024, vp % 1024);
    MappedSlot(w2.mem, pd, vp / 1024, vp % 1024);
    SlotStaysUser(w2, w, pd, vp / 1024);
    RolesAreUsed(w2);
  }

  /** What mapping the stack does to the walk of a page. */
  lemma StackWalk(w1: World, w: World, pd: nat, vp: nat)
    requires pd < PHYS_FRAMES && StackMapped(w1, w, pd, USER_STACK_PAGES) && vp < PAGES
    ensures Grew(w1, w, pd)
    ensures var t := WalkPage(w.mem, pd, vp);
            if StackPage(vp) then t.MapsTo? && t.frame in w1.clear else t == WalkPage(w1.mem, pd, vp)
  {
    hide Walk; hide Grew; hide GrewBySteps;
    assert StackPage(vp) <==> vp / 1024 == 1 && 0x100 <= vp % 1024 < 0x100 + USER_STACK_PAGES;
  }

  lemma SlotStaysUser(w0: World, w: World, pd: nat, i: nat)
    requires Grew(w0, w, pd) && i < ENTRIES && Present(w0.mem[pd][i]) && User(w0.mem[pd][i])
    ensures User(w.mem[pd][i])
  {
  }

  /**
   What an address of a page met by a segment reads as once the stack is mapped
   too. Outside the stack's pages: as the last such segment says, with its
   rights. On a stack page: whatever a frame that was free after the load held,
   writable whatever the segment says.
   */
  lemma ImageWithStack(w1: World, w2: World, w: World, pd: nat, hs: seq<Phdr>, data: seq<Byte>, k: nat, va: Word)
    requires Loaded(w1, w2, pd, hs, data) && pd < PHYS_FRAMES
    requires WorldOk(w) && StackMapped(w2, w, pd, USER_STACK_PAGES)
    requires k < |hs| && Meets(hs[k], va / 4096) && forall m :: k < m < |hs| ==> !Meets(hs[m], va / 4096)
    ensures !StackPage(va / 4096) ==>
              && MemoryByte(w.mem, pd, va) == (if hs[k].vaddr <= va < hs[k].vaddr + hs[k].filesz
                   then data[hs[k].offset + (va - hs[k].vaddr)] else 0)
              && RightsOf(w.mem, pd, va / 4096, hs[k])
    ensures StackPage(va / 4096) ==> ReadsFreeFrame(w2, w, pd, va)
  {
    hide Walk; hide Present; hide FrameOf; hide FlagsOf; hide Writable; hide User; hide Grew; hide GrewBySteps;
    hide WorldOk; hide Current; hide ByteAt; hide RightsOf;
    var vp := va / 4096;
    LastIs(hs, k, vp);
    GrewKeepsDirs(w1, w2, pd);
    GrewKeepsDirs(w2, w, pd);
    if StackPage(vp) {
      FreeFacts(w2);
      assert vp / 1024 == 1 && 0x100 <= vp % 1024 < 0x100 + USER_STACK_PAGES;
      StackIsUsable(w2, w, pd, vp - USER_STACK_PAGE);
    } else {
      ImageKeptIff(w1, w2, w, pd, hs, data, vp);
      assert va == vp * 4096 + va % 4096;
      LoadedRights(w, pd, vp, hs[k]);
    }
  }

  /** Outside the image and the stack nothing is mapped that was not there before. */
  lemma NothingElseMapped(w1: World, w2: World, w: World, pd: nat, hs: seq<Phdr>, data: seq<Byte>, vp: nat)
    requires Loaded(w1, w2, pd, hs, data) && pd < PHYS_FRAMES && StackMapped(w2, w, pd, USER_STACK_PAGES)
    requires vp < PAGES && !StackPage(vp) && forall k :: 0 <= k < |hs| ==> !Meets(hs[k], vp)
    ensures WalkPage(w.mem, pd, vp) == WalkPage(w1.mem, pd, vp)
  {
    hide Walk; hide Loading; hide Meets; hide StackMapped;
    NothingElseLoaded(w1, w2, pd, hs, data, vp);
    StackWalk(w2, w, pd, vp);
  }

  /** Address `va` is backed by a frame that was free in `w2`, and reads as that frame did. */
  ghost predicate ReadsFreeFrame(w2: World, w: World, pd: nat, va: Word)
    requires pd < PHYS_FRAMES
  {
    var t := WalkPage(w.mem, pd, va / 4096);
    && t.MapsTo? && t.frame in w2.clear && t.frame < PHYS_FRAMES
    && WritablePage(w.mem, pd, va / 4096 / 1024, va / 4096 % 1024)
    && MemoryByte(w.mem, pd, va) == ByteAt(w2.mem[t.frame], va % 4096)
  }

  /** A one-byte read-only segment at the address of the stack. */
  const UNDER_STACK: Phdr := Phdr(PT_LOAD, 0, 0x50_0000, 1, 1, 4)

  /** It is loaded read-only, and the started program can write it. */
  lemma StackHidesSegment(w1: World, w2: World, w: World, pd: nat, data: seq<Byte>)
    requires pd < PHYS_FRAMES && Loaded(w1, w2, pd, [UNDER_STACK], data)
    requires WorldOk(w) && StackMapped(w2, w, pd, USER_STACK_PAGES)
    ensures RightsOf(w2.mem, pd, 0x500, UNDER_STACK) && !RightsOf(w.mem, pd, 0x500, UNDER_STACK)
  {
    hide Loading; hide WorldOk; hide StackMapped; hide UserPage; hide WritablePage; hide MemoryByte;
    var hs := [UNDER_STACK];
    assert hs[0] == UNDER_STACK && Meets(hs[0], 0x50_0000 / 4096);
    ImageIsFaithful(w1, w2, pd, hs, data, 0, 0x50_0000);
    ImageWithStack(w1, w2, w, pd, hs, data, 0, 0x50_0000);
  }

  /**
   What starting a program costs for good, when no two of its segments share a
   page: exactly the page frames below 32 MB, the stack's among them.
   */
  lemma ProgramLoses(w1: World, w2: World, w: World, pd: nat, hs: seq<Phdr>, data: seq<Byte>, f: nat)
    requires Loaded(w1, w2, pd, hs, data) && PagesDisjoint(hs) && pd < PHYS_FRAMES
    requires WorldOk(w) && StackMapped(w2, w, pd, USER_STACK_PAGES)
    ensures f in Lost(w1, w, pd) <==>
            f in w1.clear && f !in w.clear && f in w.role && w.role[f].LeafOf? && w.role[f].i < IDENTITY_TABLES
  {
    hide Walk; hide PagesLoaded; hide PagesDisjoint; hide DirectoryOk; hide LeavesOk; hide Present; hide FrameOf;
    if f in w1.clear && f !in w.clear && f in w.role && w.role[f].LeafOf? && w.role[f].i >= IDENTITY_TABLES {
      assert f !in w1.role && f in w2.role;
      assert Backs(w2, pd, hs, |hs|, 0, f, w2.role[f].i, w2.role[f].j);
    }
  }
}
