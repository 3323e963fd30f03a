/**
 Processes as the kernel runs them (kernel/process.c, and the reaping half of
 kernel/scheduler.c): the process table, creation with all its failure paths,
 exit, reaping, and the resources behind each control block.
 */
module Processes {
  import opened Machine
  import opened FrameAllocator
  import opened AddressSpace
  import opened CloneSpec
  import opened Growth
  import opened Paging
  import opened ElfSpec
  import opened Elf
  import opened HeapSpec
  import opened HeapRuns
  import opened KernelHeap
  import opened SchedSpec
  import opened IntrusiveLists
  import opened Scheduling
  import opened ProcessSpec
  import opened ElfCount
  import opened KernelSteps
  import SchedLaws

  /** The verdict of `elf32_validate`. */
  datatype Entrypoint = Valid(entry: Word) | Invalid

  datatype ElfResult = Started(process: Ptr) | NotStarted | ElfDoomed | ElfHalted

  class Kernel {
    const sched: Scheduler
    const vm: Vm
    const heap: Heap
    const table: array<Ptr>              // proc_table
    var nextPid: nat

    ghost var owner: map<nat, Ptr>       // the process each directory was created for

    ghost function S(): Sched
      reads this, sched, table
    {
      sched.View().(table := table[..], nextPid := nextPid)
    }

    ghost function Live(): map<nat, nat>
      reads heap
    {
      LiveSizes(heap.blocks)
    }

    /** The whole kernel as a value. */
    ghost function K(): KState
      reads this, sched, table, vm, vm.pmm, heap
    {
      KState(S(), vm.W(), owner, Live())
    }

    ghost predicate Resources()
      reads this, sched, vm, vm.pmm, heap
    {
      && AllHeld(sched.pcb, sched.idle, vm.W(), owner, Live(), vm.kernelPd)
      && !Covered(heap.blocks, sched.idle) && Arena(heap.blocks, vm.W())
    }

    ghost predicate Valid()
      reads this, sched, table, vm, vm.pmm, vm.pmm.bitmap, heap
    {
      && (table as object != vm.pmm.bitmap)
      && sched.Linked() && Inv(S())
      && vm.Valid() && heap.Valid() && Resources()
    }

    lemma InOrder()
      requires Valid()
      ensures KInv(K(), vm.kernelPd) && Inv(S())
    {
      hide Inv; hide AllHeld; hide WorldOk; hide Chain;
      ValidWorld(vm);
    }

    constructor (vm: Vm, heap: Heap, sched: Scheduler, table: array<Ptr>)
      ensures this.vm == vm && this.heap == heap && this.sched == sched && this.table == table && nextPid == 0
    {
      this.vm, this.heap, this.sched, this.table := vm, heap, sched, table;
      nextPid := 0;
    }

    /** `process_init` and `scheduler_init`: idle becomes pid 0, running, queued and in the table. */
    method Init()
      requires vm.Valid() && heap.Valid() && sched.Linked()
      requires !Covered(heap.blocks, sched.idle) && Arena(heap.blocks, vm.W())
      requires sched.idle != 0 && sched.pcb.Keys == {sched.idle} && sched.queue == [] && sched.zombies == []
               && nextPid == 0
      requires table.Length == MAX_PROCESSES && table as object != vm.pmm.bitmap
               && forall i :: 0 <= i < table.Length ==> table[i] == 0
      modifies this, sched, table
      ensures Valid()
      ensures S().queue == [sched.idle] && S().zombies == [] && S().current == sched.idle && nextPid == 1
      ensures S().pcb.Keys == {sched.idle} && IsIdle(S().pcb[sched.idle], vm.kernelPd)
    {
      hide Vm.Valid; hide Heap.Valid; hide Chain; hide NoDup; hide Inv; hide Covered; hide Arena;
      ValidWorld(vm);
      var idle := sched.idle;
      sched.pcb := sched.pcb[idle := Pcb(nextPid, Running, 0, 0, 1, 0, 0, vm.kernelPd * 4096, 0, 0, 0, 0, 0)];
      nextPid := nextPid + 1;
      sched.current := idle;
      table[0] := idle;
      EnqueueIdle();
      InitialInv(S(), idle);
      owner := map[];
    }

    method EnqueueIdle()
      requires sched.Linked() && sched.idle != 0 && sched.idle in sched.pcb && sched.queue == [] && sched.zombies == []
      modifies sched`pcb, sched`next, sched`head, sched`tail, sched`size, sched`queue
      ensures sched.Linked() && sched.queue == [sched.idle]
              && sched.pcb == old(sched.pcb)[sched.idle := old(sched.pcb)[sched.idle].(state := Running)]
    {
      sched.Enqueue(sched.idle);
      sched.pcb := sched.pcb[sched.idle := sched.pcb[sched.idle].(state := Running)];
    }

    // -------------------------------------------------------------- the process table

    /** Stores `p` in the first empty slot. */
    method TableAdd(p: Ptr) returns (ok: bool)
      modifies table
      ensures ok <==> FreeSlot(old(table[..])) < table.Length
      ensures table[..] == if ok then old(table[..])[FreeSlot(old(table[..])) := p] else old(table[..])
    {
      for i := 0 to table.Length
        invariant table[..] == old(table[..])
        invariant forall k :: 0 <= k < i ==> table[k] != 0
      {
        if table[i] == 0 {
          SlotIs(table[..], i);
          table[i] := p;
          return true;
        }
      }
      SlotIs(table[..], table.Length);
      return false;
    }

    /** Empties the slot of `p`; a process that is not in the table changes nothing. */
    method TableRemove(p: Ptr)
      requires p != 0
      requires forall i, j :: 0 <= i < j < table.Length && table[i] != 0 ==> table[i] != table[j]
      modifies table
      ensures table[..] == Cleared(old(table[..]), {p})
    {
      for i := 0 to table.Length
        invariant table[..] == old(table[..])
        invariant forall k :: 0 <= k < i ==> table[k] != p
      {
        if table[i] == p {
          table[i] := 0;
          return;
        }
      }
    }

    /** `process_lookup` */
    method Lookup(pid: nat) returns (p: Ptr)
      requires forall q :: q in table[..] && q != 0 ==> q in sched.pcb
      ensures p == LookupFrom(sched.pcb, table[..], pid)
    {
      for i := 0 to table.Length
        invariant LookupFrom(sched.pcb, table[..], pid) == LookupFrom(sched.pcb, table[i..], pid)
      {
        assert table[i..][1..] == table[i + 1..] && table[i] in table[..];
        if table[i] != 0 && sched.pcb[table[i]].pid == pid {
          return table[i];
        }
      }
      return 0;
    }

    method IsPidAlive(pid: nat) returns (alive: bool)
      requires forall q :: q in table[..] && q != 0 ==> q in sched.pcb
      ensures alive == Alive(S(), pid)
    {
      if pid == 0 { return false; }
      var p := Lookup(pid);
      if p == 0 { return false; }
      return sched.pcb[p].state != Zombie && sched.pcb[p].state != Dead;
    }

    // -------------------------------------------------------------- freeing

    /** The frames, the address space and the control block that `process_free` gives back. */
    method ReleaseHeld(p: Ptr, b: Pcb)
      requires vm.Valid() && heap.Valid()
      requires Held(b, p, vm.W(), owner, Live(), vm.kernelPd)
      modifies vm, vm.pmm, vm.pmm.bitmap, heap
      ensures vm.Valid() && vm.pmm.Slack() == old(vm.pmm.Slack()) && vm.W() == WithoutProcess(old(vm.W()), b)
      ensures heap.Valid() && Live() == old(Live()) - {p} && SameCover(old(heap.blocks), heap.blocks)
    {
      hide WorldOk; hide TablesOk; hide Pmm.Valid; hide Pmm.Slack; hide Heap.Valid; hide StepFrames; hide AllocResult;
      hide FreeWorld;
      hide Live; hide SameCover; hide LiveAt; hide Release; hide Refuses;
      var lo, hi := b.stackLo / 4096, b.stackHi / 4096;
      ReleaseStacks(vm.W(), b, p, owner, Live(), vm.kernelPd);
      vm.role := vm.role - {lo, hi};
      vm.pmm.FreeFrame(b.stackLo);
      vm.pmm.FreeFrame(b.stackHi);
      assert vm.pmm.clear == old(vm.pmm.clear) + {lo, hi};
      WorldHasTables(vm.W());
      vm.FreePd(b.cr3);
      FreeBlock(p);
    }

    /** `kfree` of a control block. */
    method FreeBlock(p: Ptr)
      requires heap.Valid() && p in Live()
      modifies heap
      ensures heap.Valid() && Live() == old(Live()) - {p} && SameCover(old(heap.blocks), heap.blocks)
    {
      ghost var k := LiveAt(heap.blocks, p);
      LivePtrsAt(heap.blocks, p);
      BlocksTile(heap);
      assert p < WORD_LIMIT;
      FreePtr(heap.blocks, k);
      hide LiveAt; hide Release; hide Live; hide SameCover; hide Heap.Valid;
      var panicked := heap.Kfree(p);
    }

    /** Unlinks, unregisters and frees one orphaned zombie. */
    method FreeOrphan(z: Ptr, prev: Ptr, ghost k: nat)
      requires table as object != vm.pmm.bitmap
      requires sched.Linked() && k < |sched.zombies| && z == sched.zombies[k]
               && prev == (if k == 0 then 0 else sched.zombies[k - 1])
      requires z != 0 && z != sched.idle && vm.Valid() && heap.Valid() && Resources()
      requires forall i, j :: 0 <= i < j < table.Length && table[i] != 0 ==> table[i] != table[j]
      modifies sched`pcb, sched`next, sched`zombieHead, sched`zombies, table, vm, vm.pmm, vm.pmm.bitmap, heap
      ensures sched.Linked() && vm.Valid() && heap.Valid() && Resources() && vm.pmm.Slack() == old(vm.pmm.Slack())
      ensures sched.pcb == old(sched.pcb) - {z}
              && sched.zombies == old(sched.zombies)[..k] + old(sched.zombies)[k + 1..]
      ensures table[..] == Cleared(old(table[..]), {z}) && Live() == old(Live()) - {z}
      ensures z in old(sched.pcb) && old(sched.pcb)[z].cr3 / 4096 < PHYS_FRAMES
      ensures vm.W() == WithoutProcess(old(vm.W()), old(sched.pcb)[z])
    {
      hide Chain; hide NoDup; hide Vm.Valid; hide Heap.Valid; hide Pmm.Slack; hide LiveSizes; hide Covered; hide Arena;
      hide Cleared; hide WithoutProcess;
      hide FramesHeld;
      assert z in sched.zombies;
      var b := sched.pcb[z];
      assert Held(b, z, vm.W(), owner, Live(), vm.kernelPd);
      ValidWorld(vm);
      FreeProcessKeeps(sched.pcb, sched.idle, z, vm.W(), owner, Live(), vm.kernelPd, WithoutProcess(vm.W(), b));
      sched.DropZombie(k, prev, z);
      TableRemove(z);
      FreeKeepsHeap(vm.W(), b, z, owner, Live(), vm.kernelPd);
      ReleaseHeld(z, b);
      StillApart(old(heap.blocks), heap.blocks, old(vm.W()), vm.W(), sched.idle);
    }

    /**
     `scheduler_reap_zombies`: frees exactly the zombies whose parent is not
     alive, as judged before anything is freed; the others keep their order.
     */
    method ReapZombies()
      requires Valid()
      modifies sched`pcb, sched`next, sched`zombieHead, sched`zombies, table, vm, vm.pmm, vm.pmm.bitmap, heap
      ensures Valid() && (forall z :: z in old(S()).zombies ==> z in old(S()).pcb)
      ensures S() == Reap(old(S()))
      ensures FreedUpTo(old(S()), |old(S()).zombies|, old(vm.W()), old(Live()), vm.W(), Live())
      ensures vm.pmm.Slack() == old(vm.pmm.Slack())
    {
      hide Vm.Valid; hide Heap.Valid; hide Pmm.Slack; hide LiveSizes; hide Covered; hide Arena; hide Chain;
      hide NoDup; hide AllHeld;
      hide Inv; hide PartReap; hide Kept; hide Filter; hide Alive; hide FreedUpTo;
      ghost var s0 := S();
      ReapKeepsLists(s0);
      ZombiesNonNull(s0);
      PartReapStart(s0);
      FreedNone(s0, vm.W(), Live());
      var prev, cur := 0, sched.zombieHead;
      ghost var n := 0;
      ChainHead(sched.next, sched.zombieHead, sched.zombies);
      while cur != 0
        invariant table as object != vm.pmm.bitmap
        invariant n <= |s0.zombies| && cur == At(s0.zombies, n) && S() == PartReap(s0, n)
        invariant (forall z :: z in s0.zombies[..n] ==> z in s0.pcb) && prev == Last(Filter(s0, s0.zombies[..n]))
        invariant sched.Linked() && vm.Valid() && heap.Valid() && Resources() && vm.pmm.Slack() == old(vm.pmm.Slack())
        invariant FreedUpTo(s0, n, old(vm.W()), old(Live()), vm.W(), Live())
        decreases |s0.zombies| - n
      {
        prev, cur := ReapNext(s0, n, old(vm.W()), old(Live()), prev, cur);
        n := n + 1;
      }
      PartReapDone(s0);
      ReapKeepsInv(s0);
    }

    /** One turn of the reaper's walk. */
    method ReapNext(ghost s0: Sched, ghost n: nat, ghost w0: World, ghost live0: map<nat, nat>, prev: Ptr, cur: Ptr)
      returns (prev': Ptr, cur': Ptr)
      requires table as object != vm.pmm.bitmap && Inv(s0) && (forall z :: z in s0.zombies ==> z in s0.pcb)
      requires n < |s0.zombies| && cur == s0.zombies[n] && S() == PartReap(s0, n) && s0.idle == sched.idle
      requires (forall z :: z in s0.zombies[..n] ==> z in s0.pcb) && prev == Last(Filter(s0, s0.zombies[..n]))
      requires sched.Linked() && vm.Valid() && heap.Valid() && Resources()
               && FreedUpTo(s0, n, w0, live0, vm.W(), Live())
      modifies sched`pcb, sched`next, sched`zombieHead, sched`zombies, table, vm, vm.pmm, vm.pmm.bitmap, heap
      ensures S() == PartReap(s0, n + 1) && cur' == At(s0.zombies, n + 1)
      ensures (forall z :: z in s0.zombies[..n + 1] ==> z in s0.pcb) && prev' == Last(Filter(s0, s0.zombies[..n + 1]))
      ensures sched.Linked() && vm.Valid() && heap.Valid() && Resources()
              && FreedUpTo(s0, n + 1, w0, live0, vm.W(), Live())
      ensures vm.pmm.Slack() == old(vm.pmm.Slack())
    {
      hide Vm.Valid; hide Heap.Valid; hide Pmm.Slack; hide LiveSizes; hide Covered; hide Arena; hide Chain;
      hide NoDup; hide AllHeld;
      hide Inv; hide PartReap; hide Kept; hide Filter; hide Alive; hide FreedUpTo;
      ghost var t := S();
      ghost var k := |Filter(s0, s0.zombies[..n])|;
      PartReapTable(s0, n, t);
      PartReapJudges(s0, n, t, cur);
      PartReapStep(s0, n, t, PartReap(s0, n + 1), cur);
      ZombieAt(s0, n, t, k);
      ReapedStep(s0, n, cur);
      ChainAt(sched.next, sched.zombieHead, sched.zombies, k);
      var alive := IsPidAlive(sched.pcb[cur].parent);
      if !alive {
        cur' := sched.next[cur];
        prev' := prev;
        ghost var w1, live1 := vm.W(), Live();
        FreeOrphan(cur, prev, k);
        FreedOneMore(s0, n, w0, live0, w1, live1, vm.W(), Live(), cur);
      } else {
        FreedNoMore(s0, n, w0, live0, vm.W(), Live());
        prev' := cur;
        cur' := sched.next[cur];
      }
    }

    // -------------------------------------------------------------- creation

    /** Two frames, or none: what was taken is returned when the second is missing. */
    method TwoFrames() returns (lo: Word, hi: Word, ok: bool)
      requires vm.pmm.Valid() && vm.pmm.Slack() >= 0 && 0 !in vm.pmm.clear
      modifies vm.pmm, vm.pmm.bitmap
      ensures vm.pmm.Valid() && vm.pmm.Slack() == old(vm.pmm.Slack())
      ensures ok <==> |old(vm.pmm.clear)| >= 2
      ensures !ok ==> vm.pmm.clear == old(vm.pmm.clear)
      ensures ok ==>
                && lo % 4096 == 0 && hi % 4096 == 0 && lo / 4096 != hi / 4096
                && lo / 4096 in old(vm.pmm.clear) && hi / 4096 in old(vm.pmm.clear)
                && vm.pmm.clear == old(vm.pmm.clear) - {lo / 4096} - {hi / 4096}
    {
      hide Pmm.Valid; hide Pmm.Slack; hide StepFrames; hide AllocResult;
      lo := vm.pmm.AllocFrame();
      hi := vm.pmm.AllocFrame();
      TwoFree(old(vm.pmm.clear), lo / 4096);
      ok := lo != 0 && hi != 0;
      if !ok {
        if lo != 0 { vm.pmm.FreeFrame(lo); }
        if hi != 0 { assert false; }     // dead in the source too: the second allocation fails whenever one does
      }
    }

    /** The two stack frames of a new process; if either is missing, what was taken is returned. */
    method AllocStacks(ghost p: Ptr) returns (lo: Word, hi: Word, ok: bool)
      requires vm.Valid()
      modifies vm`role, vm.pmm, vm.pmm.bitmap
      ensures vm.Valid() && vm.pmm.Slack() == old(vm.pmm.Slack())
      ensures ok <==> |old(vm.pmm.clear)| >= 2
      ensures !ok ==> vm.W() == old(vm.W())
      ensures ok ==>
                && lo % 4096 == 0 && hi % 4096 == 0 && lo / 4096 != hi / 4096
                && lo / 4096 in old(vm.pmm.clear) && hi / 4096 in old(vm.pmm.clear)
                && vm.pmm.clear == old(vm.pmm.clear) - {lo / 4096} - {hi / 4096}
                && vm.role == old(vm.role)[lo / 4096 := Reserved(p, 0)][hi / 4096 := Reserved(p, 1)]
    {
      hide WorldOk; hide TablesOk; hide Pmm.Valid; hide Pmm.Slack;
      ghost var w := vm.W();
      FreeFacts(w);
      lo, hi, ok := TwoFrames();
      if ok {
        TakeTwo(w, lo / 4096, hi / 4096, p);
        vm.role := vm.role[lo / 4096 := Reserved(p, 0)][hi / 4096 := Reserved(p, 1)];
        WorldHasTables(vm.W());
      }
    }

    /** `kmalloc` of a control block. */
    method AllocBlock() returns (p: Ptr)
      requires heap.Valid()
      modifies heap
      ensures heap.Valid() && SameCover(old(heap.blocks), heap.blocks)
      ensures p == 0 <==> NoRoom(old(heap.blocks))
      ensures p == 0 ==> Live() == old(Live())
      ensures p != 0 ==> HandedOut(old(Live()), Live(), p) && Covered(old(heap.blocks), p)
    {
      ghost var bs := heap.blocks;
      ghost var k := FirstFit(bs, Round(PCB_BYTES));
      BlocksTile(heap);
      if k < |bs| { MallocPtr(bs, k, MallocStep(bs, PCB_BYTES)); }
      hide LiveSizes; hide SameCover; hide Covered; hide Arena; hide Heap.Valid; hide FirstFit; hide Round;
      hide HandOut;
      p := heap.Kmalloc(PCB_BYTES);
    }

    /** Directory, pid and stacks of the process whose control block is at `p`. */
    method Acquire(ghost p: Ptr) returns (cr3: Word, lo: Word, hi: Word, pid: nat, ok: bool)
      requires vm.Valid()
      modifies this`nextPid, this`owner, vm, vm.pmm, vm.pmm.bitmap
      ensures vm.Valid() && vm.pmm.Slack() == old(vm.pmm.Slack()) && vm.kernelPd < PHYS_FRAMES
              && vm.kernelPd in old(vm.dirs)
      ensures ok <==> |old(vm.pmm.clear)| >= 3
      ensures !ok ==>
                && RolledBack(old(vm.W()), vm.W())
                && nextPid == old(nextPid) + (if old(vm.pmm.clear) == {} then 0 else 1) && owner == old(owner)
      ensures ok ==>
                && pid == old(nextPid) && nextPid == old(nextPid) + 1 && owner == old(owner)[cr3 / 4096 := p]
                && cr3 != 0 && cr3 % 4096 == 0 && lo % 4096 == 0 && hi % 4096 == 0
                && cr3 / 4096 in old(vm.pmm.clear) && lo / 4096 in old(vm.pmm.clear) && hi / 4096 in old(vm.pmm.clear)
                && cr3 / 4096 != lo / 4096 && cr3 / 4096 != hi / 4096 && lo / 4096 != hi / 4096
                && vm.W() == WithProcess(old(vm.W()), vm.kernelPd, p, cr3 / 4096, lo / 4096, hi / 4096)
    {
      hide Vm.Valid; hide Pmm.Slack; hide FreeWorld; hide RolledBack;
      ValidWorld(vm);
      lo, hi, pid, ok := 0, 0, 0, false;
      RolledBackRefl(vm.W());
      cr3 := vm.CreateUserPd();
      if cr3 == 0 { return; }
      SizeWithout(old(vm.pmm.clear), cr3 / 4096);
      CreateThenFree(old(vm.W()), vm.kernelPd, cr3 / 4096);
      pid := nextPid;
      nextPid := nextPid + 1;
      lo, hi, ok := AllocStacks(p);
      if !ok {
        FreshDirectory(old(vm.W()), vm.kernelPd, cr3 / 4096);
        vm.FreePd(cr3);
        return;
      }
      owner := owner[cr3 / 4096 := p];
    }

    /** Queue and table entry of a new process; when the table is full the process leaves the queue again. */
    method Register(p: Ptr, b: Pcb) returns (ok: bool)
      requires sched.Linked() && p != 0 && p !in sched.pcb && b.state == Ready
      modifies sched`pcb, sched`next, sched`head, sched`tail, sched`size, sched`queue, table
      ensures sched.Linked() && ok == (FreeSlot(old(table[..])) < table.Length)
      ensures !ok ==> sched.pcb == old(sched.pcb) && sched.queue == old(sched.queue) && table[..] == old(table[..])
      ensures ok ==> sched.pcb == old(sched.pcb)[p := b] && sched.queue == old(sched.queue) + [p]
                     && table[..] == old(table[..])[FreeSlot(old(table[..])) := p]
    {
      hide NoDup; hide Chain; hide Remove; hide FreeSlot;
      sched.AddRecord(p, b);
      sched.Enqueue(p);
      assert sched.pcb == old(sched.pcb)[p := b];
      ok := TableAdd(p);
      if !ok {
        sched.Dequeue(p);
        RemoveLast(old(sched.queue), p);
        sched.DropRecord(p);
        assert sched.pcb == old(sched.pcb);
      }
    }

    /**
     `process_create`. It fails exactly when the heap has no room for a control
     block, fewer than three frames are free, or the table is full; then the
     free frames, the heap's live set, the queue and the table are as before,
     and only a pid may be used up. On success the new process is admitted and
     holds three frames and one block.
     */
    method Create(priority: nat) returns (p: Ptr, ghost b: Pcb)
      requires Valid()
      modifies this, sched, table, vm, vm.pmm, vm.pmm.bitmap, heap
      ensures Valid() && vm.pmm.Slack() == old(vm.pmm.Slack())
      ensures p != 0 <==> CanCreate(old(heap.blocks), old(vm.pmm.clear), old(S()).table)
      ensures Steps(old(K()), if p == 0 then Refused else Launched(p, b, b, vm.W()), K(), vm.kernelPd)
      ensures p != 0 ==> b.priority == (if priority == 0 then 1 else priority)
      ensures nextPid == old(nextPid) + if NoRoom(old(heap.blocks)) || old(vm.pmm.clear) == {} then 0 else 1
    {
      hide Vm.Valid; hide Heap.Valid; hide Pmm.Slack; hide LiveSizes; hide Covered; hide Arena; hide SameCover;
      hide Chain;
      hide NoDup; hide Inv;
      hide AllHeld; hide WithProcess; hide RolledBack; hide WithoutProcess; hide FreeSlot; hide NoRoom;
      hide SetUp; hide Steps; hide KInv;
      b := Pcb(0, Ready, 0, 0, 0, 0, 0, 0, 0, 0, 0, 0, 0);
      ghost var k0 := K();
      InOrder();
      RolledBackRefl(k0.w);
      p := AllocBlock();
      StillApart(old(heap.blocks), heap.blocks, k0.w, k0.w, sched.idle);
      if p == 0 {
        Nothing(k0, K(), vm.kernelPd);
        return;
      }
      NewPointer(k0.s, p, k0.w, owner, k0.live, vm.kernelPd, old(heap.blocks));
      var ok, blk := Build(p, priority, k0);
      if ok {
        b := blk;
        LaunchedBare(k0, p, b, K(), vm.kernelPd);
      } else {
        Nothing(k0, K(), vm.kernelPd);
        p := 0;
      }
    }

    /** `process_create` once it has a control block: everything else, or nothing. */
    method Build(p: Ptr, priority: nat, ghost k0: KState) returns (ok: bool, b: Pcb)
      requires table as object != vm.pmm.bitmap
      requires sched.Linked() && vm.Valid() && heap.Valid()
      requires !Covered(heap.blocks, sched.idle) && Arena(heap.blocks, vm.W())
      requires KInv(k0, vm.kernelPd) && K() == k0.(live := Live())
      requires p != 0 && p !in k0.s.pcb && HandedOut(k0.live, Live(), p)
      modifies this, sched, table, vm, vm.pmm, vm.pmm.bitmap, heap
      ensures Valid() && vm.pmm.Slack() == old(vm.pmm.Slack())
      ensures ok <==> |k0.w.clear| >= 3 && FreeSlot(k0.s.table) < |k0.s.table|
      ensures !ok ==> NothingCreated(k0, K())
      ensures ok ==> SetUp(k0, p, b, vm.W(), Live(), vm.kernelPd) && S() == Admit(k0.s, p, b)
      ensures ok ==> owner == k0.owner[b.cr3 / 4096 := p] && b.priority == (if priority == 0 then 1 else priority)
      ensures nextPid == k0.s.nextPid + if k0.w.clear == {} then 0 else 1
    {
      hide Vm.Valid; hide Heap.Valid; hide Pmm.Slack; hide LiveSizes; hide Covered; hide Arena; hide SameCover;
      hide Chain;
      hide NoDup;
      hide Inv; hide AllHeld; hide WithProcess; hide RolledBack; hide FreeSlot; hide SetUp; hide WorldOk;
      CurrentKnown(k0.s);
      FreeFacts(k0.w);
      b := Pcb(0, Ready, 0, 0, 0, 0, 0, 0, 0, 0, 0, 0, 0);
      ghost var bs := heap.blocks;
      var cr3, lo, hi, pid, got := Acquire(p);
      if !got {
        FreeBlock(p);
        assert Live() == k0.live;
        RestoredAfterFailure(k0.s, S(), k0.w, vm.W(), owner, owner, Live(), vm.kernelPd);
        RollbackKeepsHeap(k0.w, vm.W());
        StillApart(bs, heap.blocks, k0.w, vm.W(), sched.idle);
        return false, b;
      }
      var prio := if priority == 0 then 1 else priority;
      b := Pcb(pid, Ready, sched.pcb[sched.current].pid, prio, prio, 0, 0, cr3, lo, hi, hi + 4096 - 40, 0, 0);
      ok := Install(p, b, k0);
    }

    /** The last part of `process_create`, with its tear-down when the table is full. */
    method Install(p: Ptr, b: Pcb, ghost k0: KState) returns (ok: bool)
      requires table as object != vm.pmm.bitmap
      requires sched.Linked() && vm.Valid() && heap.Valid()
      requires !Covered(heap.blocks, sched.idle) && Arena(heap.blocks, k0.w)
      requires KInv(k0, vm.kernelPd) && S() == k0.s.(nextPid := k0.s.nextPid + 1) && vm.identity == k0.w.identity
      requires p != 0 && p !in k0.s.pcb && HandedOut(k0.live, Live(), p)
      requires owner == k0.owner[b.cr3 / 4096 := p] && FreshBlock(k0.s, b) && TakesFrames(k0.w, b)
      requires vm.W() == WithProcess(k0.w, vm.kernelPd, p, b.cr3 / 4096, b.stackLo / 4096, b.stackHi / 4096)
      modifies sched`pcb, sched`next, sched`head, sched`tail, sched`size, sched`queue,
               table, vm, vm.pmm, vm.pmm.bitmap, heap
      ensures Valid() && vm.pmm.Slack() == old(vm.pmm.Slack())
      ensures ok <==> FreeSlot(k0.s.table) < |k0.s.table|
      ensures !ok ==> NothingCreated(k0, K())
      ensures ok ==> SetUp(k0, p, b, vm.W(), Live(), vm.kernelPd) && S() == Admit(k0.s, p, b)
    {
      hide Vm.Valid; hide Heap.Valid; hide Pmm.Slack; hide LiveSizes; hide Covered; hide Arena; hide SameCover;
      hide Chain;
      hide NoDup;
      hide Inv; hide AllHeld; hide WithProcess; hide RolledBack; hide WithoutProcess; hide FreeSlot; hide WorldOk;
      FreeFacts(k0.w);
      AddProcess(k0.s.pcb, k0.s.idle, k0.w, k0.owner, k0.live, vm.kernelPd, p, b, vm.W(), Live());
      ghost var bs := heap.blocks;
      ok := Register(p, b);
      if !ok {
        IdleIsOld(k0.s);
        NewIsHeld(k0.s.pcb, k0.s.idle, p, b, vm.W(), owner, Live(), vm.kernelPd);
        SetUpThenTearDown(k0.w, vm.kernelPd, p, b, vm.W());
        ReleaseHeld(p, b);
        assert Live() == k0.live;
        RestoredAfterFailure(k0.s, S(), k0.w, vm.W(), k0.owner, owner, Live(), vm.kernelPd);
        RollbackKeepsHeap(k0.w, vm.W());
        StillApart(bs, heap.blocks, k0.w, vm.W(), sched.idle);
      } else {
        CreateKeepsHeap(k0.w, vm.kernelPd, p, b.cr3 / 4096, b.stackLo / 4096, b.stackHi / 4096);
        ArenaStays(bs, k0.w, vm.W());
        AdmitKeepsInv(k0.s, p, b);
      }
    }

    /** The user-stack loop of `process_create_from_elf`. */
    method MapUserStack(cr3: Word) returns (ok: bool)
      requires vm.Valid() && cr3 / 4096 in vm.dirs
      modifies vm, vm.pmm, vm.pmm.bitmap
      ensures vm.Valid() && vm.pmm.Slack() == old(vm.pmm.Slack())
      ensures ok ==> StackMapped(old(vm.W()), vm.W(), cr3 / 4096, USER_STACK_PAGES)
      ensures Grew(old(vm.W()), vm.W(), cr3 / 4096) && GrewBySteps(old(vm.W()), vm.W(), cr3 / 4096)
      ensures !ok ==> vm.pmm.clear == {}
      ensures ok <==> |old(vm.pmm.clear)| >= USER_STACK_PAGES
    {
      hide Vm.Valid; hide Pmm.Slack; hide StackMapped; hide Grew; hide GrewBySteps;
      ghost var w1 := vm.W();
      ValidWorld(vm);
      StackStart(w1, cr3 / 4096);
      StackGrew(w1, w1, cr3 / 4096, 0);
      for i := 0 to USER_STACK_PAGES
        invariant vm.Valid() && vm.pmm.Slack() == old(vm.pmm.Slack()) && vm.dirs == old(vm.dirs)
        invariant StackMapped(w1, vm.W(), cr3 / 4096, i)
        invariant |vm.pmm.clear| == |old(vm.pmm.clear)| - i
      {
        StackGrew(w1, vm.W(), cr3 / 4096, i);
        ok := MapStackPage(cr3, i, w1);
        if !ok { return; }
      }
      StackGrew(w1, vm.W(), cr3 / 4096, USER_STACK_PAGES);
      ok := true;
    }

    method MapStackPage(cr3: Word, i: nat, ghost w1: World) returns (ok: bool)
      requires vm.Valid() && cr3 / 4096 in vm.dirs && i < USER_STACK_PAGES && WorldOk(w1)
      requires StackMapped(w1, vm.W(), cr3 / 4096, i)
      modifies vm, vm.pmm, vm.pmm.bitmap
      ensures vm.Valid() && vm.pmm.Slack() == old(vm.pmm.Slack()) && vm.dirs == old(vm.dirs)
      ensures ok ==> StackMapped(w1, vm.W(), cr3 / 4096, i + 1) && |vm.pmm.clear| == |old(vm.pmm.clear)| - 1
      ensures !ok ==> vm.W() == old(vm.W()) && vm.pmm.clear == {}
    {
      hide WorldOk; hide TablesOk; hide Pmm.Valid; hide Pmm.Slack; hide Grew; hide GrewBySteps; hide StackMapped;
      hide AllocResult;
      hide StepFrames;
      hide Present; hide User; hide Writable; hide FrameOf; hide FlagsOf; hide Entry; hide MapMem; hide TableWorld;
      var pd := cr3 / 4096;
      ghost var w := vm.W();
      FrameFacts(w, pd);
      var frame := vm.pmm.AllocFrame();
      if frame == 0 { return false; }
      var f := frame / 4096;
      ghost var page := vm.mem[f];
      TakeKeepsWorld(w, f, page);
      assert vm.W() == TakeFrame(w, f, page);
      WorldHasTables(vm.W());
      LowSlotPresent(vm.W(), pd);
      LowSlotPresent(w, pd);
      ghost var spare: nat;
      ok, spare := vm.MapInto(cr3, (USER_STACK_PAGE + i) * 4096, frame, 7);
      vm.role := vm.role[f := LeafOf(pd, 1, 0x100 + i)];
      PresentFlags(f);
      StackStep(w1, w, vm.W(), pd, i, f, page, Entry(f, 7), spare);
      GrowTakes(w, pd, 1, 0x100 + i, f, page, Entry(f, 7), spare);
      WorldHasTables(vm.W());
    }

    /**
     `process_create_from_elf`, with the header check's verdict as `entry`. A
     process whose image or stack cannot be completed is sent to the zombie
     list; a started one has the image of its file, except on the four stack
     pages, which hide what was loaded there (`StartedImage`, `StartedPage`).
     Headers, free frames and `CanCreate` decide which (`ElfEndsOneWay`).
     */
    method CreateFromElf(entry: Entrypoint, data: seq<Byte>, hs: seq<Phdr>, priority: nat)
      returns (r: ElfResult, ghost p: Ptr, ghost b: Pcb, ghost w1: World, ghost w2: World)
      requires Valid() && AllInRange(hs, |data|)
      modifies this, sched, table, vm, vm.pmm, vm.pmm.bitmap, heap
      ensures r != ElfHalted ==> Valid()
      ensures vm.pmm.Slack() == old(vm.pmm.Slack())
      ensures ElfOutcome(r, old(K()), K(), w1, w2, vm.kernelPd, entry, p, b, hs, data)
      ensures ElfEnds(r, entry, CanCreate(old(heap.blocks), old(vm.pmm.clear), old(S()).table), hs, |old(vm.pmm.clear)|)
      ensures !r.NotStarted? ==> b.priority == if priority == 0 then 1 else priority
    {
      hide Vm.Valid; hide Heap.Valid; hide Pmm.Slack; hide LiveSizes; hide Covered; hide Arena; hide Chain;
      hide NoDup; hide Inv;
      hide AllHeld; hide RolledBack; hide WithProcess; hide Grew; hide GrewBySteps; hide StackMapped; hide Loading;
      hide FreeSlot;
      hide Retire; hide LoadEnds; hide FullDemand; hide WorldOk; hide LowSlots; hide Steps; hide SetUp; hide KInv;
      hide CanCreate; hide Loaded; hide FillEnds;
      p, b, w1, w2 := 0, Pcb(0, Ready, 0, 0, 0, 0, 0, 0, 0, 0, 0, 0, 0), vm.W(), vm.W();
      InOrder();
      if entry.Invalid? {
        RolledBackRefl(vm.W());
        Nothing(old(K()), K(), vm.kernelPd);
        return NotStarted, p, b, w1, w2;
      }
      var proc: Ptr;
      proc, b := Create(priority);
      p := proc;
      if proc == 0 { return NotStarted, p, b, w1, w2; }
      w1 := vm.W();
      LaunchedIs(old(K()), p, b, w1, K(), vm.kernelPd);
      r, w2 := FillAddressSpace(proc, entry.entry, data, hs, old(K()), b);
    }

    /** The part of `process_create_from_elf` after the process exists: image, stack, entry point. */
    method FillAddressSpace(p: Ptr, entry: Word, data: seq<Byte>, hs: seq<Phdr>, ghost k0: KState, ghost b: Pcb)
      returns (r: ElfResult, ghost w2: World)
      requires Valid() && AllInRange(hs, |data|)
      requires KInv(k0, vm.kernelPd) && SetUp(k0, p, b, vm.W(), Live(), vm.kernelPd) && S() == Admit(k0.s, p, b)
      requires owner == k0.owner[b.cr3 / 4096 := p]
      modifies sched, vm, vm.pmm, vm.pmm.bitmap
      ensures r != ElfHalted ==> Valid()
      ensures vm.pmm.Slack() == old(vm.pmm.Slack()) && !r.NotStarted?
      ensures r == ElfDoomed ==> Steps(k0, Doomed(p, b, old(vm.W())), K(), vm.kernelPd)
      ensures r.Started? ==>
                && r.process == p
                && Steps(k0, Launched(p, b, Loaded32(b, entry), old(vm.W())), K(), vm.kernelPd)
                && Loaded(old(vm.W()), w2, b.cr3 / 4096, hs, data)
                && b.cr3 / 4096 < PHYS_FRAMES && StackMapped(w2, vm.W(), b.cr3 / 4096, USER_STACK_PAGES)
      ensures r == ElfDoomed || r == ElfHalted ==> vm.pmm.clear == {}
      ensures FillEnds(r, hs, |old(vm.pmm.clear)|)
    {
      hide Vm.Valid; hide Heap.Valid; hide Pmm.Slack; hide LiveSizes; hide Covered; hide Arena; hide Chain;
      hide NoDup; hide Inv;
      hide AllHeld;
      hide Grew; hide GrewBySteps; hide StackMapped; hide Loading; hide FreeSlot; hide Retire; hide SetUp;
      hide Steps; hide KInv;
      hide LoadEnds;
      hide FullDemand; hide Slots; hide LowSlots; hide LoadEnds; hide Loaded; hide WorldOk;
      ghost var w1 := vm.W();
      w2 := w1;
      ValidWorld(vm);
      SetUpProcess(k0, S(), p, b, w1, Live(), vm.kernelPd);
      NewSlots(k0, p, b, w1, Live(), vm.kernelPd);
      var cr3 := sched.pcb[p].cr3;
      var load := Load(vm, data, hs, cr3);
      if load == LoadHalted { return ElfHalted, w2; }
      w2 := vm.W();
      ValidWorld(vm);
      if load == LoadOk { LoadedGrew(w1, w2, cr3 / 4096, hs, data); }
      if load == LoadFailed {
        StepsGrew(w1, w2, cr3 / 4096);
        GrewHeld(sched.pcb, sched.idle, w1, vm.W(), cr3 / 4096, owner, Live(), vm.kernelPd);
        GrewArena(heap.blocks, w1, vm.W(), cr3 / 4096);
        Doom(p, k0.s, b);
        LaunchedLoaded(k0, p, b, b, w1, K(), vm.kernelPd);
        return ElfDoomed, w2;
      }
      GrewKeepsDirs(w1, w2, cr3 / 4096);
      var ok := MapUserStack(cr3);
      ValidWorld(vm);
      GrewTransitive(w1, w2, vm.W(), cr3 / 4096);
      StepsTwice(w1, w2, vm.W(), cr3 / 4096);
      GrewHeld(sched.pcb, sched.idle, w1, vm.W(), cr3 / 4096, owner, Live(), vm.kernelPd);
      GrewArena(heap.blocks, w1, vm.W(), cr3 / 4096);
      if !ok {
        Doom(p, k0.s, b);
        LaunchedLoaded(k0, p, b, b, w1, K(), vm.kernelPd);
        return ElfDoomed, w2;
      }
      SetEntry(p, entry, k0.s, b);
      LaunchedLoaded(k0, p, b, Loaded32(b, entry), w1, K(), vm.kernelPd);
      return Started(p), w2;
    }

    /** A process that could not be completed goes straight to the zombie list. */
    method Doom(p: Ptr, ghost s0: Sched, ghost b: Pcb)
      requires Valid() && Inv(s0) && NewProcess(s0, p, b) && S() == Admit(s0, p, b)
      modifies sched
      ensures Valid() && S() == DoomedState(s0, p, b)
    {
      hide Vm.Valid; hide Heap.Valid; hide LiveSizes; hide Covered; hide Arena; hide Chain; hide NoDup; hide Inv;
      hide AllHeld;
      hide FreeSlot; hide Retire;
      ghost var s1 := S();
      AdmittedProcess(s0, s1, p, b);
      ApplyKeepsInv(s0, CreateDoomed(p, b));
      BecomeZombie(p, sched.pcb[p].exitCode);
      RetireHoldings(s1, p, b.exitCode);
      SameProcesses(s1.pcb, sched.pcb, sched.idle, vm.W(), owner, Live(), vm.kernelPd);
    }

    method SetEntry(p: Ptr, entry: Word, ghost s0: Sched, ghost b: Pcb)
      requires Valid() && Inv(s0) && NewProcess(s0, p, b) && S() == Admit(s0, p, b)
      modifies sched
      ensures Valid() && S() == Admit(s0, p, Loaded32(b, entry))
    {
      hide Vm.Valid; hide Heap.Valid; hide LiveSizes; hide Covered; hide Arena; hide Chain; hide NoDup; hide Inv;
      hide AllHeld;
      hide FreeSlot;
      ghost var s1 := S();
      AdmittedProcess(s0, s1, p, b);
      ApplyKeepsInv(s0, Step.Create(p, Loaded32(b, entry)));
      sched.pcb := sched.pcb[p := sched.pcb[p].(userEntry := entry,
        userStackTop := (USER_STACK_PAGE + USER_STACK_PAGES) * 4096)];
      assert sched.pcb == s0.pcb[p := Loaded32(b, entry)];
      SameProcesses(s1.pcb, sched.pcb, sched.idle, vm.W(), owner, Live(), vm.kernelPd);
    }

    // -------------------------------------------------------------- the steps of the running system

    /** `scheduler_tick`: reap, wake the sleepers, spend one tick of the quantum. */
    method Tick()
      requires Valid()
      modifies sched, table, vm, vm.pmm, vm.pmm.bitmap, heap
      ensures Valid() && Steps(old(K()), Ticked, K(), vm.kernelPd)
      ensures vm.pmm.Slack() == old(vm.pmm.Slack())
    {
      hide Vm.Valid; hide Heap.Valid; hide Pmm.Slack; hide LiveSizes; hide Covered; hide Arena; hide Chain; hide NoDup;
      hide FreedUpTo;
      hide Inv; hide Reap; hide Wake; hide Quantum; hide Held; hide Reaped; hide WithoutAll; hide WorldOk; hide Steps;
      hide KInv;
      InOrder();
      ReapsIsWell(S());
      ReapZombies();
      FreedAll(old(S()), old(vm.W()), old(Live()), vm.W(), Live());
      ghost var u := S();
      TickParts(old(S()), u, SchedSpec.Wake(u));
      WakeFrame(sched.View(), table[..], nextPid);
      sched.WakeSleepers();
      QuantumFrame(sched.View(), table[..], nextPid);
      sched.SpendTick();
      DidTick(old(K()), K(), vm.kernelPd);
      StillInOrder(old(K()), Ticked, K(), vm.kernelPd);
    }

    method Yield()
      requires Valid()
      modifies sched
      ensures Valid() && Steps(old(K()), Yielded, K(), vm.kernelPd)
    {
      hide Vm.Valid; hide Heap.Valid; hide LiveSizes; hide Covered; hide Arena; hide Chain; hide NoDup;
      hide PickAndSwitch;
      hide Inv; hide Held; hide WorldOk; hide Steps; hide KInv;
      InOrder();
      CurrentKnown(S());
      PickFrame(sched.View(), table[..], nextPid);
      sched.Yield();
      DidYield(old(K()), K(), vm.kernelPd);
      StillInOrder(old(K()), Yielded, K(), vm.kernelPd);
    }

    /** `process_exit`: the running process becomes a zombie and a READY successor takes over, always. */
    method Exit(code: int)
      requires Valid() && sched.current != sched.idle
      modifies sched
      ensures Valid() && HandedOver(old(S()), S(), code) && Steps(old(K()), Exited(code), K(), vm.kernelPd)
    {
      hide Vm.Valid; hide Heap.Valid; hide LiveSizes; hide Covered; hide Arena; hide Chain; hide NoDup;
      hide PickAndSwitch;
      hide Remove;
      hide Inv; hide Held; hide AllHeld; hide Picking; hide Retire; hide Scheduler.Linked; hide WorldOk;
      hide Steps; hide KInv;
      InOrder();
      ghost var s0 := S();
      CurrentKnown(s0);
      BecomeZombie(sched.current, code);
      ghost var u := S();
      RetireFacts(s0, s0.current, code);
      RetiredCurrent(s0, u, code);
      PickingKnown(u);
      PickFrame(sched.View(), table[..], nextPid);
      sched.Yield();
      ExitParts(s0, u, S(), code);
      DidExit(old(K()), K(), vm.kernelPd, code);
      StillInOrder(old(K()), Exited(code), K(), vm.kernelPd);
    }

    /** Records the exit code, marks the process ZOMBIE and moves it to the zombie list. */
    method BecomeZombie(p: Ptr, code: int)
      requires sched.Linked() && p in sched.pcb && p != 0 && p !in sched.zombies
      modifies sched
      ensures sched.Linked() && S() == Retire(old(S()), p, code)
    {
      hide Chain; hide NoDup; hide Remove;
      sched.pcb := sched.pcb[p := sched.pcb[p].(exitCode := code)];
      sched.pcb := sched.pcb[p := sched.pcb[p].(state := Zombie)];
      sched.MarkZombie(p);
    }
  }

  /** Where the reaper's walk stands in the list it is editing. */
  lemma ZombieAt(s: Sched, n: nat, t: Sched, k: nat)
    requires n < |s.zombies| && (forall x :: x in s.zombies ==> x in s.pcb) && t == PartReap(s, n)
    requires (forall x :: x in s.zombies[..n] ==> x in s.pcb) && k == |Filter(s, s.zombies[..n])|
    ensures k < |t.zombies| && t.zombies[k] == s.zombies[n] && At(t.zombies, k + 1) == At(s.zombies, n + 1)
    ensures Last(Filter(s, s.zombies[..n])) == if k == 0 then 0 else t.zombies[k - 1]
    ensures t.zombies[..k] + t.zombies[k + 1..] == Filter(s, s.zombies[..n]) + s.zombies[n + 1..]
    ensures (forall x :: x in s.zombies[..n + 1] ==> x in s.pcb) && s.zombies[n] in s.pcb
    ensures Last(Filter(s, s.zombies[..n + 1])) ==
            if Kept(s, s.zombies[n]) then s.zombies[n] else Last(Filter(s, s.zombies[..n]))
  {
    hide Kept; hide Filter;
    FilterStep(s, n, s.zombies[n]);
    assert s.zombies[n..][0] == s.zombies[n];
  }

  lemma TwoFree(c: set<nat>, x: nat)
    ensures x in c ==> (|c| >= 2 <==> c - {x} != {})
    ensures c == {} ==> |c| < 2
  {
    SizeWithout(c, x);
  }

  lemma FreshDirectory(w: World, kernelPd: nat, d: nat)
    requires WorldOk(w) && kernelPd in w.dirs && kernelPd < PHYS_FRAMES && d in w.clear && d < PHYS_FRAMES
    ensures d != kernelPd && d in CreateWorld(w, kernelPd, d).dirs
  {
    FreeFacts(w);
  }

  /** A pointer just handed out names no existing process. */
  lemma NewPointer(s: Sched, p: Ptr, w: World, owner: map<nat, Ptr>, live: map<nat, nat>, kernelPd: nat, bs: seq<Block>)
    requires AllHeld(s.pcb, s.idle, w, owner, live, kernelPd) && p !in live && Covered(bs, p) && !Covered(bs, s.idle)
    ensures p !in s.pcb
  {
    assert p in s.pcb && p != s.idle ==> Held(s.pcb[p], p, w, owner, live, kernelPd);
  }

  lemma NewIsHeld(pcb: map<Ptr, Pcb>, idle: Ptr, p: Ptr, b: Pcb, w: World, owner: map<nat, Ptr>, live: map<nat, nat>,
                  kernelPd: nat)
    requires AllHeld(pcb[p := b], idle, w, owner, live, kernelPd) && p != idle
    ensures Held(b, p, w, owner, live, kernelPd)
  {
    assert pcb[p := b][p] == b;
  }

  lemma StillInOrder(k: KState, st: KStep, k': KState, kernelPd: nat)
    requires Steps(k, st, k', kernelPd)
    ensures Inv(k'.s) && AllHeld(k'.s.pcb, k'.s.idle, k'.w, k'.owner, k'.live, kernelPd)
  {
    hide Takes;
    TakesKeepsInv(k, st, k', kernelPd);
  }

  lemma DidTick(k: KState, k': KState, kernelPd: nat)
    requires KInv(k, kernelPd) && Inv(k.s) && ReapsWell(k.s) && k'.s == TickOf(k.s)
    requires k'.w == WithoutAll(k.w, k.s.pcb, Reaped(k.s)) && k'.owner == k.owner && k'.live == k.live - Reaped(k.s)
    ensures Steps(k, Ticked, k', kernelPd)
  {
    hide KInv; hide TickOf; hide Inv; hide WithoutAll; hide Kept; hide ReapsWell;
  }

  lemma DidYield(k: KState, k': KState, kernelPd: nat)
    requires KInv(k, kernelPd) && Inv(k.s) && k' == k.(s := Apply(k.s, Step.Yield))
    ensures Steps(k, Yielded, k', kernelPd)
  {
    hide KInv; hide Apply;
  }

  lemma DidExit(k: KState, k': KState, kernelPd: nat, code: int)
    requires KInv(k, kernelPd) && Inv(k.s) && k.s.current != k.s.idle && k' == k.(s := ExitOf(k.s, code))
    ensures Steps(k, Exited(code), k', kernelPd)
  {
    hide KInv; hide ExitOf;
  }

  lemma Nothing(k: KState, k': KState, kernelPd: nat)
    requires KInv(k, kernelPd) && NothingCreated(k, k')
    ensures Steps(k, Refused, k', kernelPd)
  {
    hide Inv; hide WorldOk; hide AllHeld;
  }

  /** The running process has exited: it is a zombie with that code, and another process runs. */
  ghost predicate HandedOver(s0: Sched, s: Sched, code: int) {
    && Inv(s0) && Enabled(s0, Step.Exit(code)) && s == Apply(s0, Step.Exit(code))
    && s.current != s0.current
    && s0.current in s.pcb && s.pcb[s0.current].state == Zombie && s.pcb[s0.current].exitCode == code
  }

  /** Idle: pid 0, running, priority 0 with one tick, in the kernel's own directory. */
  ghost predicate IsIdle(b: Pcb, kernelPd: nat) {
    && b.pid == 0 && b.parent == 0 && b.state == Running && b.priority == 0 && b.ticks == 1 && b.sleep == 0
    && b.exitCode == 0 && b.cr3 == kernelPd * 4096
  }

  /** No free block holds a control block. */
  ghost predicate NoRoom(bs: seq<Block>) { FirstFit(bs, Round(PCB_BYTES)) == |bs| }

  /** There is a block for the control block, a frame for the directory, two for the stack, and a table slot. */
  ghost predicate CanCreate(bs: seq<Block>, clear: set<nat>, table: seq<Ptr>) {
    !NoRoom(bs) && |clear| >= 3 && FreeSlot(table) < |table|
  }

  lemma IdleIsOld(s: Sched)
    requires Inv(s)
    ensures s.idle in s.pcb
  {
  }

  lemma StackGrew(w1: World, w: World, pd: nat, n: nat)
    requires pd < PHYS_FRAMES && StackMapped(w1, w, pd, n)
    ensures Grew(w1, w, pd) && GrewBySteps(w1, w, pd) && w.dirs == w1.dirs
  {
  }

  lemma PresentFlags(f: nat)
    requires f < PHYS_FRAMES
    ensures Present(Entry(f, 7))
  {
  }

  /**
   What starting a program does. Refused: nothing is left behind. Doomed: the
   process was created, whatever was mapped for it is its own, no frame is left,
   and it is on the zombie list. Started: the image was loaded, then the stack
   mapped over it, and the entry point is set. Halted: the loader ran out of frames for a page table.
   */
  ghost predicate ElfOutcome(r: ElfResult, k0: KState, k: KState, w1: World, w2: World, kernelPd: nat,
                             entry: Entrypoint, p: Ptr, b: Pcb, hs: seq<Phdr>, data: seq<Byte>)
  {
    match r
    case NotStarted => Steps(k0, Refused, k, kernelPd)
    case ElfDoomed => Steps(k0, Doomed(p, b, w1), k, kernelPd) && k.w.clear == {}
    case Started(q) =>
      && entry.Valid? && q == p && AllInRange(hs, |data|)
      && Steps(k0, Launched(p, b, Loaded32(b, entry.entry), w1), k, kernelPd)
      && Loaded(w1, w2, b.cr3 / 4096, hs, data)
      && b.cr3 / 4096 < PHYS_FRAMES && StackMapped(w2, k.w, b.cr3 / 4096, USER_STACK_PAGES)
    case ElfHalted => SetUp(k0, p, b, w1, k.live, kernelPd) && k.w.clear == {}
  }

  /**
   The process of a started program: READY at the end of the queue, entered at
   the entry point of its file, with the stack pointer at 0x504000, just above
   the last of the pages mapped for its stack.
   */
  lemma StartedProcess(r: ElfResult, k0: KState, k: KState, w1: World, w2: World, kernelPd: nat, entry: Entrypoint,
                       p: Ptr, b: Pcb, hs: seq<Phdr>, data: seq<Byte>)
    requires ElfOutcome(r, k0, k, w1, w2, kernelPd, entry, p, b, hs, data) && r.Started?
    ensures r.process == p && p !in k0.s.pcb && p in k.s.pcb && entry.Valid?
    ensures k.s.queue == k0.s.queue + [p] && k.s.zombies == k0.s.zombies && k.s.current == k0.s.current
    ensures var c := k.s.pcb[p];
            && c.userEntry == entry.entry && c.userStackTop == 0x50_4000
            && c.state == Ready && c.ticks == c.priority == b.priority && c.exitCode == 0 && c.sleep == 0
            && c.pid == k0.s.nextPid && k0.s.current in k0.s.pcb && c.parent == k0.s.pcb[k0.s.current].pid
            && c.cr3 == b.cr3 && b.cr3 / 4096 < PHYS_FRAMES
    ensures StackPage(0x50_4000 / 4096 - 1) && !StackPage(0x50_4000 / 4096)
    ensures UserPage(k.w.mem, b.cr3 / 4096, 1, 0x103) && WritablePage(k.w.mem, b.cr3 / 4096, 1, 0x103)
  {
    hide KInv; hide Inv; hide WorldOk; hide Loading; hide StackMapped; hide FreeSlot; hide UserPage; hide WritablePage;
    hide GrewBySteps; hide WithProcess; hide Apply;
    var c := Loaded32(b, entry.entry);
    TakesKeepsInv(k0, Launched(p, b, c, w1), k, kernelPd);
    WorldInOrder(k0, kernelPd);
    WorldInOrder(k, kernelPd);
    SchedLaws.CreateLaw(k0.s, Step.Create(p, c), k.s);
    FilledGrew(k0, p, b, w1, k, kernelPd);
    GrewKeepsDirs(w1, k.w, b.cr3 / 4096);
    StackIsUsable(w2, k.w, b.cr3 / 4096, 3);
  }

  /** A doomed process is the first zombie and was never queued. */
  lemma DoomedProcess(r: ElfResult, k0: KState, k: KState, w1: World, w2: World, kernelPd: nat, entry: Entrypoint,
                      p: Ptr, b: Pcb, hs: seq<Phdr>, data: seq<Byte>)
    requires ElfOutcome(r, k0, k, w1, w2, kernelPd, entry, p, b, hs, data) && r == ElfDoomed
    ensures p !in k0.s.pcb && p in k.s.pcb && k.s.pcb[p].state == Zombie && k.s.pcb[p].priority == b.priority
    ensures k.s.queue == k0.s.queue && k.s.zombies == [p] + k0.s.zombies && k.s.current == k0.s.current
  {
    hide KInv; hide Inv; hide WorldOk; hide FreeSlot; hide GrewBySteps; hide WithProcess; hide Apply;
    WorldInOrder(k0, kernelPd);
    SchedLaws.CreateLaw(k0.s, Step.CreateDoomed(p, b), k.s);
  }

  /** What an address of a page met by a segment reads as in a started program (`ImageWithStack`). */
  lemma StartedImage(r: ElfResult, k0: KState, k: KState, w1: World, w2: World, kernelPd: nat, entry: Entrypoint,
                     p: Ptr, b: Pcb, hs: seq<Phdr>, data: seq<Byte>, n: nat, va: Word)
    requires ElfOutcome(r, k0, k, w1, w2, kernelPd, entry, p, b, hs, data) && r.Started?
    requires n < |hs| && Meets(hs[n], va / 4096) && forall m :: n < m < |hs| ==> !Meets(hs[m], va / 4096)
    ensures b.cr3 / 4096 < PHYS_FRAMES
    ensures !StackPage(va / 4096) ==>
              && MemoryByte(k.w.mem, b.cr3 / 4096, va) == (if hs[n].vaddr <= va < hs[n].vaddr + hs[n].filesz
                   then data[hs[n].offset + (va - hs[n].vaddr)] else 0)
              && RightsOf(k.w.mem, b.cr3 / 4096, va / 4096, hs[n])
    ensures StackPage(va / 4096) ==> ReadsFreeFrame(w2, k.w, b.cr3 / 4096, va)
  {
    hide KInv; hide Inv; hide WorldOk; hide Loading; hide StackMapped; hide Filled; hide FreeSlot; hide Meets;
    hide RightsOf; hide ReadsFreeFrame; hide MemoryByte; hide AllInRange;
    TakesKeepsInv(k0, Launched(p, b, Loaded32(b, entry.entry), w1), k, kernelPd);
    WorldInOrder(k, kernelPd);
    ImageWithStack(w1, w2, k.w, b.cr3 / 4096, hs, data, n, va);
  }

  /** A started program has a page of its image in the frame it was loaded into iff it is not a stack page. */
  lemma StartedPage(r: ElfResult, k0: KState, k: KState, w1: World, w2: World, kernelPd: nat, entry: Entrypoint,
                    p: Ptr, b: Pcb, hs: seq<Phdr>, data: seq<Byte>, vp: nat)
    requires ElfOutcome(r, k0, k, w1, w2, kernelPd, entry, p, b, hs, data) && r.Started?
    requires vp < PAGES && exists n :: 0 <= n < |hs| && Meets(hs[n], vp)
    ensures b.cr3 / 4096 < PHYS_FRAMES
    ensures WalkPage(w2.mem, b.cr3 / 4096, vp).MapsTo? && WalkPage(k.w.mem, b.cr3 / 4096, vp).MapsTo?
    ensures WalkPage(k.w.mem, b.cr3 / 4096, vp).frame == WalkPage(w2.mem, b.cr3 / 4096, vp).frame <==> !StackPage(vp)
    ensures !StackPage(vp) ==> WalkPage(k.w.mem, b.cr3 / 4096, vp) == WalkPage(w2.mem, b.cr3 / 4096, vp)
  {
    hide KInv; hide Inv; hide Loading; hide StackMapped; hide Takes; hide PageLoaded; hide WalkPage; hide AllInRange;
    hide Meets;
    ImageKeptIff(w1, w2, k.w, b.cr3 / 4096, hs, data, vp);
  }

  /** Above 32 MB a started program has nothing but its image. */
  lemma StartedNothingElse(r: ElfResult, k0: KState, k: KState, w1: World, w2: World, kernelPd: nat,
                           entry: Entrypoint, p: Ptr, b: Pcb, hs: seq<Phdr>, data: seq<Byte>, vp: nat)
    requires ElfOutcome(r, k0, k, w1, w2, kernelPd, entry, p, b, hs, data) && r.Started?
    requires 0x2000 <= vp < PAGES && forall n :: 0 <= n < |hs| ==> !Meets(hs[n], vp)
    ensures b.cr3 / 4096 < PHYS_FRAMES && WalkPage(k.w.mem, b.cr3 / 4096, vp) == NotMapped
  {
    hide KInv; hide Inv; hide WorldOk; hide Loading; hide StackMapped; hide FreeSlot; hide Meets; hide GrewBySteps;
    hide AllInRange; hide Walk; hide CreateWorld; hide Apply;
    WorldInOrder(k0, kernelPd);
    NothingElseMapped(w1, w2, k.w, b.cr3 / 4096, hs, data, vp);
    FreeFacts(k0.w);
    CreateKeepsWorld(k0.w, kernelPd, b.cr3 / 4096);
    assert vp / 1024 >= 8;
  }

  lemma WorldInOrder(k: KState, kernelPd: nat)
    requires KInv(k, kernelPd)
    ensures WorldOk(k.w) && Inv(k.s) && kernelPd in k.w.dirs
  {
  }

  /** The slots every new directory has tables for. */
  ghost function LowSlots(): set<nat> { set i: nat | i < ENTRIES && Shared(i) }

  predicate Shared(i: nat) { i < IDENTITY_TABLES }

  /** How loading a new process and its stack ends when `free` frames are free. */
  ghost predicate FillEnds(r: ElfResult, hs: seq<Phdr>, free: nat) {
    var need := |FullDemand(LowSlots(), hs)|;
    match r
    case NotStarted => false
    case Started(_) => free >= need + USER_STACK_PAGES
    case ElfDoomed => LoadEnds(LoadFailed, LowSlots(), hs, free) || need <= free < need + USER_STACK_PAGES
    case ElfHalted => LoadEnds(LoadHalted, LowSlots(), hs, free)
  }

  /** How starting a program ends, given whether its process can be created and how many frames are free. */
  ghost predicate ElfEnds(r: ElfResult, entry: Entrypoint, can: bool, hs: seq<Phdr>, free: nat) {
    if entry.Invalid? || !can then r.NotStarted? else free >= 3 && FillEnds(r, hs, free - 3)
  }

  /** These decide which of the four outcomes it is. */
  lemma ElfEndsOneWay(r: ElfResult, r': ElfResult, entry: Entrypoint, can: bool, hs: seq<Phdr>, free: nat)
    requires ElfEnds(r, entry, can, hs, free) && ElfEnds(r', entry, can, hs, free)
    ensures r.Started? == r'.Started? && r.NotStarted? == r'.NotStarted?
    ensures r.ElfDoomed? == r'.ElfDoomed? && r.ElfHalted? == r'.ElfHalted?
  {
    if entry.Valid? && can {
      var n := free - 3;
      assert n >= |FullDemand(LowSlots(), hs)| ==> LoadEnds(LoadOk, LowSlots(), hs, n);
      forall x, y | LoadEnds(x, LowSlots(), hs, n) && LoadEnds(y, LowSlots(), hs, n) ensures x == y {
        LoadEndsOneWay(x, y, LowSlots(), hs, n);
      }
    }
  }

  /** A new directory has the tables of the shared window and no others. */
  lemma NewSlots(k: KState, p: Ptr, b: Pcb, w: World, live: map<nat, nat>, kernelPd: nat)
    requires KInv(k, kernelPd) && SetUp(k, p, b, w, live, kernelPd)
    ensures b.cr3 / 4096 < PHYS_FRAMES && Slots(w.mem, b.cr3 / 4096) == LowSlots()
  {
    hide Inv; hide AllHeld; hide FrameOf; hide Writable; hide User; hide WorldOk; hide CreateWorld;
    var d := b.cr3 / 4096;
    SetUpKeeps(k, p, b, w, live, kernelPd);
    SlotsOfNew(k.w, w, kernelPd, d);
  }

  lemma SlotsOfNew(w0: World, w: World, kernelPd: nat, d: nat)
    requires WorldOk(w) && d in w.dirs && d < PHYS_FRAMES && kernelPd < PHYS_FRAMES
    requires w.mem == CreateWorld(w0, kernelPd, d).mem
    ensures Slots(w.mem, d) == LowSlots()
  {
    hide FrameOf; hide Writable; hide User; hide LeavesOk;
    assert DirectoryOk(w, d);
    assert !Present(0);
    assert forall i: nat :: i < ENTRIES ==> (Present(w.mem[d][i]) <==> Shared(i));
  }

  lemma SetUpProcess(k: KState, s: Sched, p: Ptr, b: Pcb, w: World, live: map<nat, nat>, kernelPd: nat)
    requires KInv(k, kernelPd) && SetUp(k, p, b, w, live, kernelPd) && s == Admit(k.s, p, b)
    ensures Inv(k.s) && NewProcess(k.s, p, b) && b.cr3 / 4096 in w.dirs && p in s.pcb && s.pcb[p] == b
  {
    hide Inv; hide AllHeld; hide WorldOk;
    SetUpKeeps(k, p, b, w, live, kernelPd);
  }

  lemma LaunchedIs(k: KState, p: Ptr, b: Pcb, w1: World, k': KState, kernelPd: nat)
    requires Steps(k, Launched(p, b, b, w1), k', kernelPd)
    ensures KInv(k, kernelPd) && SetUp(k, p, b, w1, k'.live, kernelPd)
    ensures k'.s == Admit(k.s, p, b) && k'.owner == k.owner[b.cr3 / 4096 := p]
    ensures w1.clear == k.w.clear - {b.cr3 / 4096, b.stackLo / 4096, b.stackHi / 4096}
    ensures |w1.clear| == |k.w.clear| - 3
  {
    hide Inv; hide AllHeld; hide WorldOk; hide Grew; hide GrewBySteps; hide WithProcess; hide FreeSlot;
    var c := k.w.clear;
    SizeWithout(c, b.cr3 / 4096);
    SizeWithout(c - {b.cr3 / 4096}, b.stackLo / 4096);
    SizeWithout(c - {b.cr3 / 4096} - {b.stackLo / 4096}, b.stackHi / 4096);
    assert w1.clear == c - {b.cr3 / 4096} - {b.stackLo / 4096} - {b.stackHi / 4096};
  }

  lemma LoadedGrew(w0: World, w: World, pd: nat, hs: seq<Phdr>, data: seq<Byte>)
    requires Loaded(w0, w, pd, hs, data)
    ensures Grew(w0, w, pd) && GrewBySteps(w0, w, pd)
  {
  }

  lemma ValidWorld(vm: Vm)
    requires vm.Valid()
    ensures WorldOk(vm.W()) && vm.kernelPd < PHYS_FRAMES && vm.kernelPd in vm.dirs
  {
  }

  /** The heap stays off the idle control block and in its frames. */
  lemma StillApart(bs: seq<Block>, cs: seq<Block>, w: World, v: World, idle: nat)
    requires SameCover(bs, cs) && !Covered(bs, idle) && Arena(bs, w) && KeepsHeap(w, v)
    ensures !Covered(cs, idle) && Arena(cs, v)
  {
    hide Covered;
  }

  lemma BlocksTile(h: Heap)
    requires h.Valid()
    ensures Ordered(h.blocks) && Aligned(h.blocks)
    ensures LiveAt(h.blocks, 0) == |h.blocks|
    ensures forall k :: 0 <= k < |h.blocks| ==> Payload(h.blocks[k]) < 0x1_0000_0000
  {
    AddressesFit(h.mem, h.blocks);
  }

  lemma InitialInv(s: Sched, idle: Ptr)
    requires idle != 0 && s.idle == idle && s.current == idle && s.queue == [idle] && s.zombies == [] && s.nextPid == 1
    requires s.pcb.Keys == {idle} && s.pcb[idle].pid == 0 && s.pcb[idle].state == Running
    requires |s.table| == MAX_PROCESSES && s.table[0] == idle && forall i :: 1 <= i < |s.table| ==> s.table[i] == 0
    ensures Inv(s)
  {
  }

  lemma SlotIs(table: seq<Ptr>, k: nat)
    requires k <= |table| && (forall i :: 0 <= i < k ==> table[i] != 0) && (k < |table| ==> table[k] == 0)
    ensures FreeSlot(table) == k
  {
  }
}
