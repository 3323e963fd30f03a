/**
 The boot sequence (kernel/kernel.c): allocator, paging, heap, processes and
 scheduler, in that order. It ends in a kernel that is in order, so the results
 about every reachable state of `KernelRuns` start here.
 */
module Boot {
  import opened Machine
  import opened FrameAllocator
  import opened AddressSpace
  import opened Paging
  import opened HeapSpec
  import opened HeapRuns
  import opened KernelHeap
  import opened SchedSpec
  import opened Scheduling
  import opened ProcessSpec
  import opened KernelSteps
  import opened Processes

  /** Where the linker put the static objects: page tables by frame, the idle control block by address. */
  datatype Image = Image(kernelEnd: Word, kernelPd: nat, identity: nat, idle: Ptr)

  function EndFrame(img: Image): nat { (img.kernelEnd + 4095) / 4096 }

  /** The static objects lie in the kernel's own frames and do not overlap. */
  ghost predicate WellLinked(img: Image) {
    && img.kernelEnd + 4095 < WORD_LIMIT && EndFrame(img) < MAX_FRAMES
    && 0 < img.kernelPd <= EndFrame(img)
    && 0 < img.identity && img.identity + IDENTITY_TABLES <= EndFrame(img) + 1
    && !(img.identity <= img.kernelPd < img.identity + IDENTITY_TABLES)
    && img.idle != 0 && img.idle / 4096 <= EndFrame(img)
  }

  /** The world once the heap has its frames. */
  ghost function WithHeap(w: World, clear: set<nat>, bs: seq<Block>): World {
    w.(clear := clear, role := w.role + (map f | f in FramesOf(bs) :: HeapFrame))
  }

  /** Handing out frames to the heap leaves every address space as it was. */
  lemma HeapTakesFrames(w: World, clear: set<nat>, bs: seq<Block>)
    requires WorldOk(w) && clear == w.clear - FramesOf(bs)
    requires forall b :: b in bs ==> PageBlock(b) && b.addr / 4096 in w.clear
    ensures WorldOk(WithHeap(w, clear, bs)) && Arena(bs, WithHeap(w, clear, bs))
  {
    hide Present; hide FrameOf; hide Writable; hide User;
    var v := WithHeap(w, clear, bs);
    forall f | f in w.role ensures f in v.role && v.role[f] == w.role[f] {}
    forall d | d in v.dirs ensures DirectoryOk(v, d) && LeavesOk(v, d) {
      assert DirectoryOk(w, d);
      OtherFramesKeepDirectory(w, v, d, {});
    }
    forall x: nat | Covered(bs, x) ensures HasRole(v, x / 4096, HeapFrame) {
      var k :| 0 <= k < |bs| && Contains(bs[k], x);
      assert bs[k] in bs;
      assert x / 4096 == bs[k].addr / 4096;
    }
  }

  /** The heap's frames are not the kernel's, so its blocks do not reach the idle control block. */
  lemma IdleIsOutside(bs: seq<Block>, clear: set<nat>, idle: nat)
    requires forall b :: b in bs ==> PageBlock(b) && b.addr / 4096 in clear
    requires idle / 4096 !in clear
    ensures !Covered(bs, idle)
  {
    forall k | 0 <= k < |bs| ensures !Contains(bs[k], idle) {
      assert bs[k] in bs && bs[k].addr == bs[k].addr / 4096 * 4096;
    }
  }

  /** The frames of the kernel's image are not free. */
  lemma ImageIsUsed(img: Image, avail: set<nat>, clear: set<nat>, info: nat)
    requires WellLinked(img) && clear == avail - Below(EndFrame(img) + 1) - {info}
    ensures 0 !in clear && img.kernelPd !in clear && img.idle / 4096 !in clear
    ensures forall f :: f in IdentityFrames(img.identity) ==> f !in clear && f != img.kernelPd
  {
  }

  /**
   Boots the machine. Afterwards every invariant holds, idle runs alone, and the
   free frames are the available ones minus frame 0, the kernel, the boot
   information and the heap.
   */
  method Start(img: Image, tags: seq<Tag>, mbootPtr: Word, pages: nat, ram: Memory,
               arena: HeapMemory) returns (k: Kernel)
    requires WellLinked(img) && ram[img.kernelPd] == ZeroPage()
    ensures fresh(k) && k.Valid() && KInv(k.K(), k.vm.kernelPd)
    ensures k.S().queue == [img.idle] && k.S().zombies == [] && k.S().current == img.idle
    ensures k.S().pcb.Keys == {img.idle} && IsIdle(k.S().pcb[img.idle], img.kernelPd)
    ensures BootTables(k.vm.mem, img.kernelPd, img.identity)
    ensures k.vm.pmm.clear == Union(AllListed(Regions(tags))) - Below(EndFrame(img) + 1) - {mbootPtr / 4096}
                              - FramesOf(k.heap.blocks)
    ensures Ordered(k.heap.blocks) && forall b :: b in k.heap.blocks ==> PageBlock(b)
  {
    hide WorldOk; hide TablesOk; hide Below; hide IdentityFrames; hide Union; hide Covered; hide Arena; hide Inv;
    hide AllHeld;
    hide BootTables;
    hide WellLinked; hide Represents; hide ZeroPage;
    var pmm := StartFrames(img, tags, mbootPtr);
    var vm := StartPaging(img, pmm, ram);
    var heap := StartHeap(img, vm, arena, pages);
    k := StartProcesses(img, vm, heap);
    k.InOrder();
  }

  method StartFrames(img: Image, tags: seq<Tag>, mbootPtr: Word) returns (pmm: Pmm)
    requires WellLinked(img)
    ensures fresh(pmm) && fresh(pmm.bitmap) && pmm.Valid() && pmm.Slack() >= 0 && Tracked(pmm.clear)
    ensures pmm.clear == Union(AllListed(Regions(tags))) - Below(EndFrame(img) + 1) - {mbootPtr / 4096}
    ensures 0 !in pmm.clear && img.kernelPd !in pmm.clear && img.idle / 4096 !in pmm.clear
    ensures forall f :: f in IdentityFrames(img.identity) ==> f !in pmm.clear && f != img.kernelPd
  {
    hide Span; hide Union; hide AllListed; hide Regions; hide Releases;
    pmm := new Pmm();
    pmm.Init(tags, img.kernelEnd, mbootPtr);
    ghost var listed := AllListed(Regions(tags));
    UnionSize(listed);
    ImageIsUsed(img, Union(listed), pmm.clear, mbootPtr / 4096);
  }

  method StartPaging(img: Image, pmm: Pmm, ram: Memory) returns (vm: Vm)
    requires WellLinked(img) && ram[img.kernelPd] == ZeroPage()
    requires pmm.Valid() && pmm.Slack() >= 0 && Tracked(pmm.clear) && 0 !in pmm.clear && img.kernelPd !in pmm.clear
    requires forall f :: f in IdentityFrames(img.identity) ==> f !in pmm.clear && f != img.kernelPd
    ensures fresh(vm) && vm.pmm == pmm && vm.kernelPd == img.kernelPd && vm.Valid()
    ensures BootTables(vm.mem, img.kernelPd, img.identity)
  {
    hide Pmm.Valid; hide Pmm.Slack; hide WorldOk; hide TablesOk; hide ZeroPage; hide IdentityFrames; hide Tracked;
    vm := new Vm(pmm, img.kernelPd, img.identity, ram);
    vm.Init();
  }

  method StartHeap(img: Image, vm: Vm, arena: HeapMemory, pages: nat) returns (heap: Heap)
    requires vm.Valid() && img.idle / 4096 !in vm.pmm.clear
    modifies vm`role, vm.pmm, vm.pmm.bitmap
    ensures fresh(heap) && heap.Valid() && vm.Valid()
    ensures !Covered(heap.blocks, img.idle) && Arena(heap.blocks, vm.W())
    ensures vm.pmm.clear == old(vm.pmm.clear) - FramesOf(heap.blocks)
    ensures Ordered(heap.blocks) && forall b :: b in heap.blocks ==> PageBlock(b)
  {
    hide Pmm.Valid; hide Pmm.Slack; hide WorldOk; hide TablesOk; hide Represents; hide Covered; hide Arena;
    hide PageBlock; hide Ordered; hide FramesOf;
    ghost var w := vm.W();
    FrameFacts(w, vm.kernelPd);
    heap := new Heap(arena);
    heap.Init(vm.pmm, pages);
    BlocksTile(heap);
    IdleIsOutside(heap.blocks, w.clear, img.idle);
    HeapTakesFrames(w, vm.pmm.clear, heap.blocks);
    vm.role := vm.role + (map f | f in FramesOf(heap.blocks) :: HeapFrame);
    assert vm.W() == WithHeap(w, vm.pmm.clear, heap.blocks);
    WorldHasTables(vm.W());
  }

  method StartProcesses(img: Image, vm: Vm, heap: Heap) returns (k: Kernel)
    requires WellLinked(img) && vm.Valid() && heap.Valid()
    requires !Covered(heap.blocks, img.idle) && Arena(heap.blocks, vm.W())
    ensures fresh(k) && k.Valid() && k.vm == vm && k.heap == heap
    ensures k.S().queue == [img.idle] && k.S().zombies == [] && k.S().current == img.idle
    ensures k.S().pcb.Keys == {img.idle} && IsIdle(k.S().pcb[img.idle], vm.kernelPd)
  {
    hide Vm.Valid; hide Heap.Valid; hide Covered; hide Arena; hide Inv; hide AllHeld;
    var sched := new Scheduler(img.idle, Pcb(0, Ready, 0, 0, 0, 0, 0, 0, 0, 0, 0, 0, 0));
    var table := new Ptr[MAX_PROCESSES](_ => 0);
    k := new Kernel(vm, heap, sched, table);
    k.Init();
  }
}
