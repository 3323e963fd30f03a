# StakOS kernel core, modelled and proved in Dafny

StakOS is a small 32-bit x86 kernel. This project models its core: the bitmap
frame allocator, page directories and their clone, the ELF loader, the kernel
heap, processes and the round-robin scheduler, the context switch, and files
behind descriptors. It proves what these promise over every input, every run
and every reachable state.

`dafny verify dfyconfig.toml` checks the whole project.

## How it is built

Each component has a specification on values and, where the kernel updates
something in place, a class whose methods are proved against it.

| component | values and theorems | in place |
|---|---|---|
| machine words and frames | `machine.dfy` | |
| frame allocator | `pmm.dfy` | `FrameAllocator.Pmm` |
| address spaces | `address_space.dfy`, `clone_spec.dfy`, `clone_count.dfy`, `growth.dfy` | `paging.dfy` (`Paging.Vm`) |
| ELF loader | `elf_spec.dfy`, `elf_count.dfy` | `elf.dfy` |
| heap | `heap_spec.dfy`, `heap_runs.dfy` | `heap.dfy` (`KernelHeap.Heap`) |
| scheduler | `sched_spec.dfy`, `sched_laws.dfy`, `sched_runs.dfy`, `lists.dfy` | `scheduler.dfy` (`Scheduling.Scheduler`) |
| processes | `process_spec.dfy` | `process.dfy` (`Processes.Kernel`) |
| the whole kernel | `kernel_steps.dfy`, `kernel_runs.dfy`, `kernel_stacks.dfy` | `process.dfy`, `boot.dfy` |
| context switch | `context.dfy` | `context.dfy` (`ContextSwitch.Cpu`) |
| files | `file_spec.dfy` | `files.dfy` (`Files.FileSystem`) |

Physical memory is a sequence of frames of 32-bit words. A `World` is that
memory, the set of free frames, the live directories, and a ghost role for
every frame with a purpose. One frame has one role, which is what makes
address spaces disjoint. `kpanic` is a halting outcome of its own, never an
ordinary return.

The functions that specify the methods have laws of their own, stated of the
states before and after a call, or of what the calls returned, and with the
kernel's numbers written out: so a wrong quantum, a block cut wrongly, a
descriptor left open or a segment skipped contradicts a law, not only a body.

## Main results

- A clone has every page of its parent above 32 MB, with the same flags,
  rights and bytes, in frames that were all free. The number of free frames
  decides whether it succeeds, gives up or halts, and a clone that gives up
  restores everything exactly.
- `paging_map_into` is a single-point update of the translation. Other
  directories see the new page exactly when it lies below 32 MB.
- Every page that a loadable segment meets reads, byte by byte, as the last such
  segment says, with the rights it asks for, and no other page is mapped. A
  started program keeps that image exactly outside its four stack pages, is
  entered at the entry point of its file, and has its stack top at 0x504000.
- Over a process's whole life, among any other processes, its creation takes
  exactly what it holds and what is lost, it holds that until it is reaped, and
  reaping returns all of it. What is lost is what was mapped below 32 MB or
  displaced by mapping a page twice; it is never free again in any run.
- While a process lives, whatever the kernel does for others, its address space
  above 32 MB keeps its mappings, rights and bytes.
- Creation fails exactly for want of a heap block, three frames or a table slot,
  and then leaves nothing behind. Headers and free frames decide whether a
  program starts, is doomed, or halts the kernel.
- Booting ends in a kernel that is in order, and every run of creations, loads,
  ticks, yields and exits keeps it so: address spaces, resources and processes.
- The heap always tiles its frames; once everything is freed, after at least
  one `kfree`, its list is the one canonical list whatever happened before. A
  pointer freed twice is refused even when its header has been absorbed. In every
  run a block handed out has the bytes asked for and at most 27 more, and every
  other byte of the heap is free.
- Every run of the scheduler keeps the queue, the zombie list and the process
  table consistent, with exactly one running process. A READY process runs
  within a bound given by the quanta ahead of it. A process switched to has the
  processor for exactly max(1, priority) ticks unless it yields or exits, and a
  sleeper sleeps exactly its ticks. Exit always hands over. A tick removes exactly
  the zombies whose parent does not live.
- A resumed process has the registers, flags, stack and return address it was
  suspended with, whatever ran in between. The control blocks and stacks this
  needs apart are apart in every state the kernel reaches.
- Seen from outside, by what the calls returned: an open descriptor has
  delivered the first bytes of what was registered under its path, as many as its
  reads asked for; a descriptor is open from the open that returned it to its
  close or the start of a new process, and every call fails exactly when this
  history says so.

## What turned out false

- The frame counter is exact after `pmm_init` unless the memory map lists
  frame 0: marking it used does not decrement the counter
  (`FrameAllocator.Pmm.Init`, `FrameAllocator.InitialSlack`). The consequence
  is bounded: allocation still fails exactly when no frame is free.
- Address spaces are isolated only above 32 MB
  (`AddressSpace.SeenElsewhereIffShared`), and a mapping below 32 MB breaks the
  identity window unless it maps a page to itself (`AddressSpace.WindowKeptIff`).
  The user stack at 0x500000 lies there, so its four frames are never returned
  (`ProcessSpec.UserStackIsLost`, `KernelRuns.OrphanForever`).
- A started program does not always have the image of its file. The stack is
  mapped after the load at 0x500000, whatever is there, so an image page keeps
  its frame if and only if it is not one of the four stack pages
  (`ProcessSpec.ImageKeptIff`, `Processes.StartedPage`). There the program reads
  what a free frame held, and may write what the file says is read-only
  (`ProcessSpec.StackHidesSegment`).
- `kmalloc` can refuse a request that contiguous free memory would hold. It
  happens exactly when the request exceeds one frame and nothing has been freed
  yet (`HeapRuns.MallocFailsExactly`), and then for any two adjacent fresh frames
  (`HeapRuns.FreshHeapRefusesLargeRequest`).
- Rounding a size up holds the request exactly up to 0xFFFFFFFC
  (`HeapRuns.RoundHoldsRequest`).

Where comments and code differ, the model follows the code: a block header has
16 bytes, not 12; the ready queue ends in NULL and is not circular; the frame
that `context_switch` leaves starts with `edi`, not `eflags`; `paging_init` uses
static tables for 32 MB; `paging_free_pd` frees tables and pages. Freeing the
second stack frame in the failure path of `process_create` is dead code, since
the second allocation fails whenever the first does.

## Model

| member | source | states |
|---|---|---|
| FrameAllocator.ListedIsWholeFrames | kernel/pmm.c:56-69 | a region lists exactly the frames below 32768 that lie wholly inside it, rounding its start up and its end down, if it has type 1, and none otherwise |
| FrameAllocator.ReleasedIffOffered | kernel/pmm.c:43-78 | the walk over all tags releases a frame exactly when some memory map lists it, whole, as available |
| FrameAllocator.AllocLaw | kernel/pmm.c:101-119 | the lowest free frame is issued and leaves the free set alone of all frames |
| FrameAllocator.StepKeepsSlack | kernel/pmm.c:101-129 | counter minus number of clear bits is the same before and after any allocation or free |
| FrameAllocator.AllocFailsIffNoneFree | kernel/pmm.c:101-119 | once the counter is not below the number of free frames, 0 is returned exactly when no frame is free |
| FrameAllocator.FrameRun | kernel/pmm.c:101-129 | over every run of allocations and frees: constant slack, an outstanding frame is never free and so never issued again, and failure means exhaustion |
| FrameAllocator.InitialSlack | kernel/pmm.c:65-82 | with non-overlapping regions the slack after initialisation is 0, or 1 when frame 0 is listed |
| FrameAllocator.Pmm.SetFrame | kernel/pmm.c:22 | exactly one frame leaves the free set |
| FrameAllocator.Pmm.ClearFrame | kernel/pmm.c:24 | exactly one frame joins the free set |
| FrameAllocator.Pmm.AllocFrame | kernel/pmm.c:101-119 | the bitmap search returns the least free frame and takes it, or 0 exactly when none is free |
| FrameAllocator.Pmm.FreeFrame | kernel/pmm.c:121-129 | a used tracked frame becomes free and the counter follows; a free or untracked one changes nothing |
| FrameAllocator.Pmm.ReleaseSpan | kernel/pmm.c:65-69 | frees a region's frames up to the tracked limit, counting each one |
| FrameAllocator.Pmm.ReleaseAvailable | kernel/pmm.c:43-78 | the walk over tags and entries frees the union of all available regions and counts every listing |
| FrameAllocator.Pmm.MarkReserved | kernel/pmm.c:80-98 | takes frame 0, the kernel's frames and the boot-information frame; only frame 0 is taken without being counted |
| FrameAllocator.Pmm.Init | kernel/pmm.c:37-99 | the free set is exactly the available whole frames minus frame 0, the kernel's frames and the boot-information frame; the counter is off by the double listings, plus one if frame 0 was listed |
| AddressSpace.MapRefinesUpdate | kernel/paging.c:133-165 | the two-level walk changes at the mapped page only; in another directory it changes exactly when the page lies in the shared window |
| AddressSpace.SeenElsewhereIffShared | kernel/paging.c:84-100 | a new page becomes visible through another directory if and only if its directory index is below 8 |
| AddressSpace.WindowKeptIff | kernel/paging.c:133-165 | after a mapping the first 32 MB still map to themselves, in any directory, if and only if the page lies above them or is mapped to itself |
| AddressSpace.RightsByFlags | kernel/paging.c:152-159 | above the shared window ring-3 access and write access are decided by the page's own flags, because a user page always has a user directory entry |
| AddressSpace.OwnershipIsDisjoint | kernel/paging.c:84-131 | two directories never own the same frame, and no owned frame is free |
| AddressSpace.MapConservesFrames | kernel/paging.c:133-165 | every frame a mapping takes is owned afterwards, except a page frame below 32 MB and the frame a second mapping displaces |
| AddressSpace.CreateKeepsWorld | kernel/paging.c:84-100 | a new directory has the kernel's eight slots as they are, maps nothing above them and owns only itself; all other address spaces stay well formed |
| AddressSpace.FreeKeepsWorld | kernel/paging.c:102-131 | freeing a directory returns frames that were in use, and every other address space keeps exactly what it owned |
| AddressSpace.BootedWalk | kernel/paging.c:37-45 | after boot the first 32 MB map to themselves, supervisor and writable, and nothing else is mapped |
| Paging.Vm.Init | kernel/paging.c:37-47 | the loops build those tables and a well-formed world |
| Paging.Vm.CreateUserPd | kernel/paging.c:84-100 | 0 exactly when no frame is free, otherwise a formerly free frame holding a new directory |
| Paging.Vm.MapInto | kernel/paging.c:133-165 | halts exactly when a table is missing and no frame is free, and then nothing changed; otherwise one page is mapped as the single-point update |
| Paging.Vm.FreePd | kernel/paging.c:102-131 | the nested loops free exactly what the directory owns; a null directory frees nothing |
| Paging.Vm.FreeTable | kernel/paging.c:113-125 | frees exactly one table and the pages it maps |
| Paging.Vm.CopyFrame | kernel/paging.c:194-199 | the byte loop makes one frame equal to another and changes no other frame |
| CloneSpec.CopyCopies | kernel/paging.c:185-202 | one iteration extends the copied prefix by one page and touches only frames that were free at the start |
| CloneSpec.CloneFinished | kernel/paging.c:167-207 | a finished clone has each page above 32 MB iff the parent has, with equal flags, user and write rights and bytes, in fresh frames, the parent untouched |
| CloneSpec.RollbackIsExact | kernel/paging.c:188-192 | giving up after any number of copies restores free set, roles and directories, and no frame in use has changed |
| CloneCount.OwnedCount | kernel/paging.c:167-207 | an address space with no empty table owns one frame for its directory, each table and each page |
| CloneCount.TakenSoFar | kernel/paging.c:174-204 | a clone that has reached a page has taken exactly one frame for its directory, each page before it and each table of such a page |
| CloneCount.CloneEndsOneWay | kernel/paging.c:167-207 | the number of free frames alone decides whether a clone succeeds, runs out at a page or runs out at a table |
| CloneCount.FinishedClone | kernel/paging.c:167-207 | a finished clone took exactly as many frames as it needs |
| Paging.Vm.CloneUserSpace | kernel/paging.c:167-207 | with as many free frames as it needs, a faithful clone; if they run out at a page, 0 and everything including the counter as before; if they run out at a table, a halt; which of the three is fixed by the count |
| Paging.Vm.CloneSlot | kernel/paging.c:181-203 | one table's pages are copied, or everything is rolled back, or the kernel halts, each for the number of free frames that leads there |
| Paging.Vm.ClonePage | kernel/paging.c:185-199 | one page is copied and mapped with its flags, leaving no empty table, or the frames run out exactly here |
| Paging.Vm.MapCopy | kernel/paging.c:201-202 | the copy is mapped at the parent's address, or its table is the frame that is missing |
| Growth.FreeAfterGrowth | kernel/paging.c:102-131 | freeing an address space after any sequence of mappings returns everything taken except the lost frames |
| Growth.GrewTransitive | kernel/paging.c:133-165 | growth composes: what two stretches of mappings leave alone, their sequence leaves alone |
| Growth.TraceGrew | kernel/paging.c:133-165 | mapping fresh frames one after another, however many, keeps every address space well formed and is growth |
| Growth.GrewKeepsOthers | kernel/paging.c:133-165 | growing one address space leaves what every other one owns as it was |
| Growth.LostIsOrphan | kernel/paging.c:102-131 | a lost frame is in use, yet owned by no address space and no stack |
| ElfSpec.LoadPageStep | kernel/elf.c:60-87 | loading one more page keeps every earlier page as the last segment covering it says |
| ElfSpec.CoversIffMeets | kernel/elf.c:44-60 | the loader's test and rounding select exactly the pages on which a header of type 1 with a nonzero size has a byte |
| ElfSpec.ImageIsFaithful | kernel/elf.c:43-91 | each address of each page that a loadable segment meets reads as the last such segment says, the file byte where its file part reaches and zero elsewhere; ring 3 may reach it, and may write it iff the segment is writable, below 32 MB too |
| ElfSpec.NothingElseLoaded | kernel/elf.c:43-91 | a page that no loadable segment meets is mapped as before |
| ElfCount.DemandLaw | kernel/elf.c:43-91 | the frames a load needs are one for each page each loadable segment meets and one for each slot among them without a table |
| ElfSpec.LoadLosesLowPages | kernel/elf.c:60-87 | with page-disjoint segments the frames a load costs for good are exactly its page frames below 32 MB |
| Elf.FillPage | kernel/elf.c:65-84 | the page holds the overlap with the file part of the segment and zeros elsewhere |
| ElfCount.CountPage | kernel/elf.c:60-87 | each page takes one frame, and a second exactly when its slot had no table |
| ElfCount.LoadEndsOneWay | kernel/elf.c:43-91 | headers, tables already there and free frames decide whether a load succeeds, returns 0 or halts |
| Elf.LoadPage | kernel/elf.c:61-86 | one page frame is filled, mapped and counted, or the frames run out exactly here |
| Elf.LoadSegment | kernel/elf.c:53-87 | the page loop loads every page of the segment, or the frames run out at one of them |
| Elf.Load | kernel/elf.c:43-91 | on success every page is backed by the last loadable segment covering it, other pages are as before, and exactly the demanded frames are gone; success, 0 and halt are fixed by the free frames; a failed load grew only this address space |
| HeapRuns.RoundHoldsRequest | mm/kmalloc.c:131-132 | the rounded size holds the request iff it is at most 0xFFFFFFFC; above that it wraps to 0 |
| HeapSpec.CoalesceSuffices | mm/kmalloc.c:112-123 | one forward pass leaves no two list neighbours both free and adjacent |
| HeapSpec.CoalesceRearranges | mm/kmalloc.c:112-123 | the pass changes neither the bytes covered, nor the bytes free, nor the blocks handed out |
| HeapSpec.AllocTiles | mm/kmalloc.c:89-103 | allocation keeps the tiling and hands out exactly one new block at the chosen address |
| HeapRuns.MallocLaw | mm/kmalloc.c:89-147 | the first free block that fits gives the rounded request, or all of itself when at most 24 bytes would be left; every other free byte stays free, and with no such block or size 0 nothing changes |
| HeapRuns.FreeLaw | mm/kmalloc.c:151-161 | freeing gives back exactly the bytes of the block |
| HeapRuns.NoWaste | mm/kmalloc.c:89-161 | in every run each block handed out has the bytes of the last request that got its pointer and at most 27 more |
| HeapSpec.AllocKeepsMerged | mm/kmalloc.c:89-103 | splitting creates no adjacent free neighbours |
| HeapSpec.ReleaseTiles | mm/kmalloc.c:151-161 | freeing keeps the tiling, takes back exactly that block and leaves nothing to merge |
| HeapSpec.MergedListIsUnique | mm/kmalloc.c:112-123 | two fully merged free lists covering the same bytes are equal |
| HeapRuns.RunTiles | mm/kmalloc.c:89-161 | every run keeps blocks ordered, aligned and covering exactly the heap's bytes; after the first kfree nothing is left to merge |
| HeapRuns.HeapConfluence | mm/kmalloc.c:89-161 | any run with a kfree that ends with everything freed ends in the coalesced initial list |
| HeapRuns.MallocFailsIffNoRun | mm/kmalloc.c:127-147 | after the first kfree, in any run, kmalloc fails iff no contiguous free run holds header and rounded size |
| HeapRuns.UnfreedRun | mm/kmalloc.c:89-147 | until something is freed no block crosses a frame, and free space is the end of a frame |
| HeapRuns.MallocFailsExactly | mm/kmalloc.c:40-161 | after any run from fresh frames kmalloc fails iff no contiguous free run holds header and rounded size, or the request exceeds a frame and nothing has been freed |
| HeapRuns.FreshHeapRefusesLargeRequest | mm/kmalloc.c:127-147 | any two adjacent fresh frames refuse every request from 4081 to 8176 bytes that fits in them, and grant it once merged |
| KernelHeap.RememberedIsRefused | mm/kmalloc.c:154-158 | a pointer freed since the last kmalloc fails the header check, absorbed header or not |
| KernelHeap.LiveIsAccepted | mm/kmalloc.c:154-158 | every handed-out pointer passes the header check |
| KernelHeap.ClientWriteKeeps | mm/kmalloc.c:9-15 | a write inside a handed-out payload disturbs no header and nothing remembered as freed |
| KernelHeap.Heap.Init | mm/kmalloc.c:40-81 | up to the wanted number of frames, fewer only when none is left, each becoming one free block, in ascending order |
| KernelHeap.Heap.Split | mm/kmalloc.c:89-103 | header words after a split are those of the two parts, or untouched when the rest is too small |
| KernelHeap.Heap.CoalesceList | mm/kmalloc.c:112-123 | the linked list in memory becomes the coalesced list, no live payload byte changes |
| KernelHeap.Heap.Kmalloc | mm/kmalloc.c:127-147 | first fit on the linked list in memory: null exactly when size is 0 or nothing fits, no live payload byte changes |
| KernelHeap.Heap.Kfree | mm/kmalloc.c:151-161 | panics on every pointer freed since the last kmalloc, absorbed header or not, and never on a live one; a live block is released, a refused call changes nothing, and no live payload byte changes |
| SchedSpec.ApplyKeepsInv | kernel/scheduler.c:286-329 | ticks, yields, exits and creations keep the global invariant: duplicate-free queue and zombies, disjoint and together the process table, unique pids, idle queued, exactly one running process |
| SchedSpec.SuccessorExists | kernel/process.c:316-328 | a retired process always finds a READY successor |
| SchedSpec.PickKeepsInv | kernel/scheduler.c:210-276 | picking and switching restores the invariant, also right after an exit, and then another process runs |
| SchedSpec.AliveStable | kernel/scheduler.c:125-136 | freeing zombies does not change which pids count as alive, although the table the test reads is edited |
| SchedSpec.PartReapStep | kernel/scheduler.c:153-173 | each iteration frees one orphan or keeps one zombie, as judged before the walk began |
| SchedLaws.PickLaw | kernel/scheduler.c:210-276 | the first READY process takes over with a full quantum, everyone up to it goes behind the others, the old one becomes READY unless it has ended, nobody else changes; with none nothing does |
| SchedLaws.TickLaw | kernel/scheduler.c:286-318 | with more than one tick left the running process goes on with one less; on its last tick the first process READY or waking takes over, and with none it starts a new quantum |
| SchedLaws.TickFrame | kernel/scheduler.c:125-174 | a tick removes exactly the zombies whose parent is not a live process other than idle; queued sleepers come one tick closer, and every other control block is as before |
| SchedLaws.TickKeepsOrder | kernel/scheduler.c:149-174 | the zombies a tick keeps stay in their order |
| SchedLaws.YieldLaw | kernel/scheduler.c:322-329 | a yield hands over to the first READY process, or changes nothing |
| SchedLaws.ExitLaw | kernel/process.c:316-328 | the process becomes the first zombie with its code and leaves the queue, the first READY process runs with a full quantum, and nobody else changes |
| SchedLaws.CreateLaw | kernel/process.c:138-227 | a new process waits at the end of the queue, a doomed one is the first zombie, and nobody else changes |
| SchedLaws.IdentityLaw | kernel/scheduler.c:286-329 | no step changes who a process is, its parent, priority, memory or entry point, and only its own exit sets its code |
| SchedLaws.TableLaw | kernel/process.c:46-54 | there are at most sixteen processes, and the table is full exactly when there are sixteen |
| SchedLaws.FullQuantum | kernel/scheduler.c:251-318 | in every run a process just switched to keeps the processor for exactly max(1, priority) ticks unless it yields or exits; at the last tick it goes on exactly when nobody else can run |
| SchedLaws.SleepsExactly | kernel/scheduler.c:295-304 | in every run a sleeper stays blocked for exactly its ticks, and then is READY or running |
| SchedRuns.RunKeepsInv | kernel/scheduler.c:286-329 | the invariant holds after every run |
| SchedRuns.StepProgress | kernel/scheduler.c:210-247 | every step runs a waiting process or moves it no further back, closer at each pick, with less to wait at each tick |
| SchedRuns.BoundedWaiting | kernel/scheduler.c:286-329 | a READY process runs within the rest of the current quantum plus one quantum of each process ahead of it |
| SchedRuns.BoundedPicks | kernel/scheduler.c:210-247 | a READY process at queue index k runs after at most k + 1 picks |
| Scheduling.Scheduler.Enqueue | kernel/scheduler.c:26-45 | the linked queue gains the process at its end, READY, with head, tail and size in step; null changes nothing |
| Scheduling.Scheduler.Dequeue | kernel/scheduler.c:47-73 | the process is unlinked wherever it is, order kept; one not queued changes nothing |
| Scheduling.Scheduler.MarkZombie | kernel/scheduler.c:75-90 | the process leaves the queue and becomes the first zombie |
| Scheduling.Scheduler.PickNext | kernel/scheduler.c:210-247 | the first READY process is returned and the queue rotated past it; null, with the queue as it was, exactly when none is READY |
| Scheduling.Scheduler.RotateOne | kernel/scheduler.c:219-234 | the head of the linked list moves to its tail |
| Scheduling.Scheduler.DoSwitch | kernel/scheduler.c:251-276 | the old process becomes READY only if it was RUNNING, the next one runs with a full quantum |
| Scheduling.Scheduler.WakeSleepers | kernel/scheduler.c:295-304 | every blocked sleeper in the queue counts down once and wakes at zero |
| Scheduling.Scheduler.SpendTick | kernel/scheduler.c:306-317 | the quantum shrinks and, when spent, the next READY process takes over or the quantum starts again |
| Scheduling.Scheduler.Yield | kernel/scheduler.c:322-329 | the first READY process takes over if there is one |
| ProcessSpec.HoldingsAreDisjoint | kernel/process.c:338-349 | two processes never hold the same frame and no held frame is free, so reaping takes nothing from the running process |
| ProcessSpec.FreeProcessKeeps | kernel/process.c:338-349 | freeing a process returns exactly its stacks, directory, tables and pages, and the others keep theirs |
| ProcessSpec.SetUpThenTearDown | kernel/process.c:215-224 | tearing a new process down again restores the world |
| ProcessSpec.AddProcess | kernel/process.c:138-227 | a new process holds its block, directory and stacks and takes exactly three frames |
| ProcessSpec.ProgramLoses | kernel/process.c:272-312 | with page-disjoint segments the frames a started program costs for good are exactly its page frames below 32 MB, image and stack together |
| ProcessSpec.UserStackIsLost | kernel/process.c:293-306 | the four stack frames at 0x500000 are among the lost ones |
| ProcessSpec.StackIsUsable | kernel/process.c:293-306 | ring 3 may read and write each of the four stack pages |
| ProcessSpec.ImageKeptIff | kernel/process.c:280-306 | once the stack is mapped a page that a loadable segment meets still has the frame, flags and contents it was loaded with if and only if it is not one of the four stack pages |
| ProcessSpec.ImageWithStack | kernel/process.c:280-306 | an address of a page that a loadable segment meets reads, outside the stack pages, as the last such segment says, with its rights; on a stack page it is writable and reads as the formerly free frame did |
| ProcessSpec.StackHidesSegment | kernel/process.c:293-306 | a read-only segment at 0x500000 is loaded read-only and is writable once the stack is mapped |
| ProcessSpec.FreeKeepsHeap | kernel/process.c:338-349 | freeing a process returns no frame of the heap |
| Boot.Start | kernel/kernel.c:52-60 | after booting every invariant of the kernel holds, idle runs alone, the boot tables are in place, the heap is an ordered list of whole free frames, and the free frames are the available ones minus frame 0, the kernel, the boot information and the heap |
| Boot.HeapTakesFrames | mm/kmalloc.c:40-81 | the frames given to the heap are set aside for it, and every address space stays as it was |
| Processes.Kernel.Init | kernel/process.c:85-113 | idle is pid 0, running, queued and in the table, with priority 0, one tick and the kernel's directory, and the invariant holds |
| Processes.Kernel.TableAdd | kernel/process.c:46-54 | the first empty slot is used; failure exactly when there is none |
| Processes.Kernel.TableRemove | kernel/process.c:57-64 | the process's slot is emptied and nothing else changes |
| Processes.Kernel.Lookup | kernel/process.c:66-72 | the process with that pid, or null |
| Processes.Kernel.IsPidAlive | kernel/scheduler.c:125-136 | a non-idle pid whose process exists and is not a zombie |
| Processes.Kernel.ReleaseHeld | kernel/process.c:344-348 | returns both stack frames, all the directory owns, and the heap block |
| Processes.Kernel.ReapZombies | kernel/scheduler.c:149-174 | the zombie list becomes its restriction to zombies with a live parent as judged at the start; every other zombie is freed, and memory, free frames and directories change by exactly what they held |
| Processes.Kernel.FreeOrphan | kernel/scheduler.c:157-166 | unlinks one zombie wherever it stands, clears its table slot and returns what it held |
| Processes.Kernel.AllocBlock | kernel/process.c:139-141 | a block no live process has, or null exactly when no free block is large enough |
| Processes.Kernel.TwoFrames | kernel/process.c:170-176 | two different frames exactly when two are free; otherwise none is taken |
| Processes.Kernel.AllocStacks | kernel/process.c:170-186 | the two frames become the stack of this process, or nothing is taken |
| Processes.Kernel.Acquire | kernel/process.c:149-186 | directory and stacks, exactly when three frames are free; otherwise the world is as before |
| Processes.Kernel.Register | kernel/process.c:213-224 | the process is queued and tabled, or neither when the table is full |
| Processes.Kernel.Build | kernel/process.c:149-227 | everything but the control block, exactly when three frames and a table slot are there; otherwise nothing |
| Processes.Kernel.Create | kernel/process.c:138-227 | fails if and only if the heap has no room, fewer than three frames are free or the table is full, and then frames, heap, queue and table are as before, and a pid is used up exactly when there was a block and a frame; otherwise a well-formed process is admitted |
| Processes.Kernel.MapUserStack | kernel/process.c:293-306 | four writable user pages at 0x500000 exactly when four frames are free |
| Processes.Kernel.Doom | kernel/process.c:288-290 | a process that cannot be completed leaves the queue for the zombie list and keeps its resources until it is reaped |
| Processes.Kernel.CreateFromElf | kernel/process.c:272-312 | refused; started, the image loaded and then the stack mapped over it, with its entry point; put on the zombie list with no frame left; or halted. Which one is fixed by the header verdict, room for the process, the headers and the free frames. The process has the priority asked for, at least 1 |
| Processes.StartedProcess | kernel/process.c:272-312 | a started program waits at the end of the queue with the next pid, its priority as quantum and the running process as parent; it is entered at the entry point of its file with the stack top 0x504000, just above the last page of its stack |
| Processes.DoomedProcess | kernel/process.c:280-290 | a process that cannot be completed is the first zombie and is not queued |
| Processes.StartedImage | kernel/process.c:272-312 | in a started program an address of a page that a loadable segment meets reads, outside the stack pages, as the last such segment says, with its rights; on a stack page it reads as a formerly free frame did |
| Processes.StartedNothingElse | kernel/process.c:272-312 | above 32 MB a started program has no page that none of its segments meets |
| Processes.StartedPage | kernel/process.c:272-312 | in a started program a page of the image is the one that was loaded if and only if it is not one of the four stack pages |
| Processes.ElfEndsOneWay | kernel/process.c:272-312 | these decide the outcome uniquely: started exactly with three frames, the image's demand and four more |
| Processes.Kernel.Tick | kernel/scheduler.c:286-318 | the whole kernel takes the tick step: orphans freed with exactly what they held, sleepers counted down, quantum spent |
| Processes.Kernel.Yield | kernel/scheduler.c:322-329 | the whole kernel takes the yield step and nothing but the processor changes hands |
| Processes.Kernel.Exit | kernel/process.c:316-328 | the running process becomes a zombie with its exit code, another process runs, always, and no resource moves |
| KernelSteps.FreeAllKeeps | kernel/scheduler.c:149-174 | freeing any set of processes leaves every other process its resources and every other address space intact |
| KernelSteps.TakesKeepsInv | kernel/process.c:138-349 | every creation, load of any number of pages, tick, yield and exit keeps processes, memory and the resources of every process in order together |
| KernelRuns.RunKeepsKernel | kernel/scheduler.c:286-329 | after every step of every run the whole kernel is in order |
| KernelRuns.HoldingStays | kernel/process.c:338-349 | until a process is reaped, no step of anyone changes which frames it holds |
| KernelRuns.HeldIsNotWritten | kernel/process.c:138-349 | no creation, load, reaping or scheduling step writes a page, table or stack frame of an existing process |
| KernelRuns.Undisturbed | kernel/process.c:138-349 | from any state of any run until a process is reaped, its frames keep their contents, and its address space above 32 MB its mappings, flags and bytes |
| KernelRuns.OrphanForever | kernel/paging.c:102-131 | a frame no address space and no stack accounts for is free in no later state of any run |
| KernelRuns.CreationTakes | kernel/process.c:138-312 | a creation takes from the free frames exactly what the process then holds and what loading lost, with no overlap |
| KernelRuns.GoneIsReaped | kernel/scheduler.c:149-174 | a process disappears only in a tick, and that tick returns all it holds, its control block included |
| KernelRuns.OtherBlocksStay | kernel/process.c:338-349 | no step takes a heap block from anyone but the processes it reaps |
| KernelRuns.WholeLife | kernel/process.c:138-349 | from creation to reaping, among any other processes: taken is held plus lost, held is unchanged in every state between, reaping returns all of it, and lost is free in none of these states; its control block is handed out in exactly those states between |
| KernelStacks.PlacesApart | kernel/process.c:138-211 | control blocks and the upper stack frames of all processes but idle do not overlap: blocks are disjoint heap blocks of sufficient size, stacks are different frames, and no stack frame is a heap frame |
| KernelStacks.KernelPlacesApart | kernel/process.c:138-211 | this holds in every valid state of the kernel, so the switch's assumption on where processes live is met |
| KernelStacks.StepMovesPlaces | kernel/process.c:138-349 | creation adds one place with the first frame 40 bytes below its end, reaping removes the places of the reaped, and nothing else moves one |
| ContextSwitch.FrameRoundTrip | boot/context_switch.asm:39-83 | the pops read back exactly what the pushes stored, and no word outside the eight changes |
| ContextSwitch.Cpu.ChangeStacks | boot/context_switch.asm:51-69 | the old control block gets the stack pointer; directory and stack come from the new one, whether or not the directory register was reloaded |
| ContextSwitch.Cpu.Switch | boot/context_switch.asm:34-83 | the instructions compute the switch function of the whole machine state |
| ContextSwitch.Cpu.BuildStack | kernel/process.c:198-211 | the ten stored words are a frame of the starting registers under entry point and exit guard |
| ContextSwitch.NewStackIntact | kernel/process.c:198-211 | the first stack is a valid saved state for the switch, and building it changes no word elsewhere |
| ContextSwitch.ResumesExactly | boot/context_switch.asm:69-83 | the incoming process gets its registers, flags, return address, stack and directory |
| ContextSwitch.StepKeepsInv | boot/context_switch.asm:34-83 | computing, switching, spawning and reaping keep every waiting process resumable |
| ContextSwitch.SwitchRoundTrip | boot/context_switch.asm:34-83 | after any run that neither resumes nor frees it, a process resumes as it was when it called |
| ContextSwitch.FirstResume | kernel/process.c:198-211 | whenever a new process is first resumed it starts at its entry point, flags 0x202, registers zero, the exit routine on top of its stack |
| FileSpec.LookupIsInverse | kernel/ramfs.c:49-63 | a file is found at its own index and only there |
| FileSpec.RegisterAdds | kernel/ramfs.c:28-47 | registering fails exactly for an empty or long name, a taken name or a full table, and otherwise adds one file, keeping names unique and other files |
| FileSpec.ApplyKeepsInv | kernel/syscall.c:37-103 | every call keeps names unique and open descriptors on real files within their size |
| FileSpec.OthersUnaffected | kernel/syscall.c:45-103 | a call leaves every descriptor it does not name as it was |
| FileSpec.FilesStay | kernel/ramfs.c:28-47 | a registered file never changes |
| FileSpec.ReadsAreFaithful | kernel/syscall.c:37-103 | after any interleaving an open descriptor is on the file it was opened with and has delivered the prefix its reads asked for, up to the whole file |
| FileSpec.InUseIffOpen | kernel/syscall.c:37-103 | in every run a descriptor is in use iff an open returned it and no successful close of it and no start of its process came later |
| FileSpec.UseAnswers | kernel/syscall.c:65-103 | reading and closing fail exactly on a descriptor that is not open |
| FileSpec.OpenAnswers | kernel/syscall.c:37-63 | opening fails exactly when nothing is registered under the path or descriptors 3 to 7 are all open, and otherwise gives the least that is not |
| FileSpec.CloseFrees | kernel/syscall.c:90-103 | after a close the descriptor can neither be read nor closed, and the next open of a registered file succeeds |
| FileSpec.RegisterAnswers | kernel/ramfs.c:28-47 | in every run registering fails exactly for an empty name, one over 31 characters, a taken one, or a seventeenth file |
| FileSpec.DeliversWhatWasRegistered | kernel/syscall.c:37-103 | in every run an open descriptor has delivered the first bytes of what some call registered under its path, as many as were asked for |
| FileSpec.ZeroMeansWholeFile | kernel/syscall.c:80-87 | a non-empty read returns 0 exactly when the whole file has been delivered |
| Files.StrEq | kernel/ramfs.c:6-14 | true exactly when the texts before the terminators are equal |
| Files.StrLen | kernel/ramfs.c:16-21 | the length of the text, at most 31 |
| Files.CopyOut | kernel/syscall.c:83-84 | the buffer starts with the wanted bytes of the file and keeps the rest of its contents |
| Files.FileSystem.constructor | kernel/ramfs.c:23-26 | an empty table |
| Files.FileSystem.Lookup | kernel/ramfs.c:49-55 | the first file with that name, or -1 |
| Files.FileSystem.Get | kernel/ramfs.c:57-63 | whether the index is that of a registered file, for any integer |
| Files.FileSystem.FirstUnused | kernel/ramfs.c:36-45 | the first unused slot, or -1 |
| Files.FileSystem.Register | kernel/ramfs.c:28-47 | the array ends up as the registering call says, the name copied with its terminator |
| Files.FileSystem.NewProcess | kernel/process.c:143-146 | a zeroed control block has eight free descriptors |
| Files.FileSystem.AllocFd | kernel/syscall.c:37-43 | the first free descriptor from 3 on, or -1 |
| Files.FileSystem.Open | kernel/syscall.c:45-63 | refines opening; a missing path, an unknown name and a full table all give all ones and change nothing |
| Files.FileSystem.Read | kernel/syscall.c:65-88 | refines reading; the buffer holds the delivered bytes and is otherwise unchanged; a missing buffer or a bad descriptor gives all ones |
| Files.FileSystem.Close | kernel/syscall.c:90-103 | refines closing, which frees the descriptor; a bad descriptor gives all ones |

## Left out

- Console, keyboard, shell, number printing, boot code, descriptor tables, timer programming, ring-3 entry and interrupt stubs: they would add only one-step properties.
- TLB flushes and control-register loads as hardware effects; only which directory is current is kept.
- Interrupts inside one operation: each operation is one step, as if interrupts were masked. The source masks them only in the queue operations.
- Access through virtual addresses: a frame is read and written by its physical address, as the kernel does through its identity window. `AddressSpace.WindowKeptIff` says exactly which mappings keep that assumption true.
- Heap headers, control blocks and stacks are kept in memories of their own, apart from the frames that back them; heap frames and stack frames are still taken from the frame allocator.
- `paging_map`, which maps into the kernel's own directory and is called nowhere.
- ELF header validation: its verdict and entry point are parameters. Program headers arrive decoded.
- The trampoline into ring 3, process names, and the write, exit and yield system calls, which only forward.
- fork, wait and pipes, which the source declares and does not implement. No code sets a process to BLOCKED, so only the wake-up side of sleeping occurs.
- 32-bit wrap-around of pids, tick counters and stack pointers, and of `free_frames` during `pmm_init`.
- FrameAllocator.ListedIsWholeFrames: a region reaching 2^44 is excluded; the source truncates its frame numbers to 32 bits, and `RegionStart` and `RegionEnd` follow it there.
- Paging.Vm.MapInto: flags beyond the low twelve bits are excluded; the source would or them into the frame address, and every caller passes less.
- FrameAllocator.Pmm.Init: memory-map tags arrive decoded, and the rounding of the kernel's end must not wrap.
- KernelHeap.Heap.Kfree: a pointer that was never handed out, yet has the bytes of a live header before it, is excluded; the source cannot tell it from a real one.
- Elf.FillPage: as for the whole load, the segment's addresses must not wrap and its file part must lie in the file.
- Elf.LoadPage: as for the whole load, loadable headers must be in range.
- Elf.LoadSegment: as for the whole load, loadable headers must be in range.
- Elf.Load: headers whose address arithmetic wraps or whose file part lies outside the file are excluded; the source checks neither.
- Boot.Start: the static page tables and the idle control block lie in the kernel's own frames, as linked.
- Processes.Kernel.Exit: idle is excluded, since the kernel's first thread never exits.
- KernelStacks.PlacesApart: idle is excluded; its control block and stack are static objects of the kernel's image, and where the boot stack lies is not part of this model.
- ContextSwitch.Cpu.Switch: addresses are those of aligned words, and overlapping words are not modelled.
- ContextSwitch.StepKeepsInv: relies on the stack region given for each process. The two frames of a kernel stack need not be adjacent, so the region is the upper 4096 bytes, as in `KernelStacks.PlaceOf`.
- Files.FileSystem.Read: the caller's buffer must hold the length it claims; the source does not check user pointers. File contents do not change after registration.
