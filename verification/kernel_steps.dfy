/**
 The whole kernel as one state machine: processes, physical memory, address
 spaces and heap pointers together, and what each call from outside does to
 them. `Processes.Kernel` refines these steps; whole runs are in
 `KernelRuns`.
 */
module KernelSteps {
  import opened Machine
  import opened FrameAllocator
  import opened AddressSpace
  import opened CloneSpec
  import opened Growth
  import opened SchedSpec
  import opened ProcessSpec

  /** `owner` names the process each directory was created for; `live` the heap pointers handed out, with sizes. */
  datatype KState = KState(s: Sched, w: World, owner: map<nat, Ptr>, live: map<nat, nat>)

  /** Processes, memory and what each process holds are in order. */
  ghost predicate KInv(k: KState, kernelPd: nat) {
    && Inv(k.s) && WorldOk(k.w) && kernelPd in k.w.dirs && kernelPd < PHYS_FRAMES
    && AllHeld(k.s.pcb, k.s.idle, k.w, k.owner, k.live, kernelPd)
  }

  /**
   Creation that fails; a process set up at `p` with block `b`, grown from world
   `w1` by loading, and admitted as `c`; the same, but sent to the zombie list;
   and the three calls of the running system.
   */
  datatype KStep =
    | Refused
    | Launched(p: Ptr, b: Pcb, c: Pcb, w1: World)
    | Doomed(p: Ptr, b: Pcb, w1: World)
    | Ticked
    | Yielded
    | Exited(code: int)

  // ---------------------------------------------------------------- creation

  /** The fields of a new control block. */
  ghost predicate FreshBlock(s: Sched, b: Pcb) {
    && s.current in s.pcb && b.parent == s.pcb[s.current].pid
    && b.pid == s.nextPid && b.state == Ready && b.priority >= 1 && b.ticks == b.priority && b.sleep == 0
    && b.esp == b.stackHi + 4096 - 40 && b.exitCode == 0 && b.userEntry == 0 && b.userStackTop == 0
  }

  /** Directory and stacks are three different free frames. */
  ghost predicate TakesFrames(w: World, b: Pcb) {
    && b.cr3 != 0 && b.cr3 % 4096 == 0 && b.stackLo % 4096 == 0 && b.stackHi % 4096 == 0
    && b.cr3 / 4096 in w.clear && b.stackLo / 4096 in w.clear && b.stackHi / 4096 in w.clear
    && b.cr3 / 4096 != b.stackLo / 4096 && b.cr3 / 4096 != b.stackHi / 4096 && b.stackLo / 4096 != b.stackHi / 4096
  }

  /** Process `p` was given one heap block and exactly three frames: directory and stacks. */
  ghost predicate SetUp(k: KState, p: Ptr, b: Pcb, w: World, live: map<nat, nat>, kernelPd: nat) {
    && NewProcess(k.s, p, b) && FreshBlock(k.s, b)
    && TakesFrames(k.w, b) && kernelPd < PHYS_FRAMES
    && w == WithProcess(k.w, kernelPd, p, b.cr3 / 4096, b.stackLo / 4096, b.stackHi / 4096)
    && w.clear == k.w.clear - {b.cr3 / 4096, b.stackLo / 4096, b.stackHi / 4096}
    && HandedOut(k.live, live, p)
  }

  /** Set up, and then grown page by page from `w1`. */
  ghost predicate Filled(k: KState, p: Ptr, b: Pcb, w1: World, k': KState, kernelPd: nat) {
    && SetUp(k, p, b, w1, k'.live, kernelPd)
    && GrewBySteps(w1, k'.w, b.cr3 / 4096)
    && k'.owner == k.owner[b.cr3 / 4096 := p]
  }

  /** Nothing but the pid counter differs. */
  ghost predicate NothingCreated(k: KState, k': KState) {
    && k'.s == k.s.(nextPid := k'.s.nextPid) && k.s.nextPid <= k'.s.nextPid <= k.s.nextPid + 1
    && RolledBack(k.w, k'.w) && k'.live == k.live
    && forall d :: d in k.w.dirs && d in k.owner ==> d in k'.owner && k'.owner[d] == k.owner[d]
  }

  /** The control block of a loaded program. */
  function Loaded32(b: Pcb, entry: Word): Pcb {
    b.(userEntry := entry, userStackTop := (USER_STACK_PAGE + USER_STACK_PAGES) * 4096)
  }

  /** A process admitted and sent to the zombie list at once. */
  ghost function DoomedState(s: Sched, p: Ptr, b: Pcb): Sched
    requires FreeSlot(s.table) < |s.table|
  {
    Retire(Admit(s, p, b), p, b.exitCode)
  }

  // ---------------------------------------------------------------- freeing several processes

  ghost function DirsOf(pcb: map<Ptr, Pcb>, gone: set<Ptr>): set<nat>
    requires forall p :: p in gone ==> p in pcb
  {
    set p | p in gone :: pcb[p].cr3 / 4096
  }

  /** The world once the processes of `gone` have given back what they hold. */
  ghost function WithoutAll(w: World, pcb: map<Ptr, Pcb>, gone: set<Ptr>): World
    requires forall p :: p in gone ==> p in pcb && pcb[p].cr3 / 4096 < PHYS_FRAMES
  {
    var held := FramesHeldBy(pcb, gone, w.mem);
    w.(clear := w.clear + held, role := w.role - held, dirs := w.dirs - DirsOf(pcb, gone))
  }

  lemma WithoutOneMore(w: World, pcb: map<Ptr, Pcb>, gone: set<Ptr>, z: Ptr)
    requires forall p :: p in gone + {z} ==> p in pcb && pcb[p].cr3 / 4096 < PHYS_FRAMES
    ensures WithoutProcess(WithoutAll(w, pcb, gone), pcb[z]) == WithoutAll(w, pcb, gone + {z})
  {
    hide Owned;
    FramesHeldByOne(pcb, gone, z, w.mem);
    var u, v := WithoutProcess(WithoutAll(w, pcb, gone), pcb[z]), WithoutAll(w, pcb, gone + {z});
    assert DirsOf(pcb, gone + {z}) == DirsOf(pcb, gone) + {pcb[z].cr3 / 4096};
    assert u.clear == v.clear && u.role == v.role && u.dirs == v.dirs;
  }

  /** Freeing any set of processes leaves the rest of the kernel in order. */
  lemma {:induction false} FreeAllKeeps(pcb: map<Ptr, Pcb>, idle: Ptr, gone: set<Ptr>, w: World, owner: map<nat, Ptr>,
                                        live: map<nat, nat>, kernelPd: nat)
    requires WorldOk(w) && AllHeld(pcb, idle, w, owner, live, kernelPd) && kernelPd in w.dirs
    requires forall z :: z in gone ==> z in pcb && z != idle && pcb[z].cr3 / 4096 < PHYS_FRAMES
    ensures WorldOk(WithoutAll(w, pcb, gone)) && kernelPd in WithoutAll(w, pcb, gone).dirs
    ensures AllHeld(pcb - gone, idle, WithoutAll(w, pcb, gone), owner, live - gone, kernelPd)
    decreases |gone|
  {
    hide WorldOk; hide AllHeld; hide WithoutAll; hide WithoutProcess;
    if gone == {} {
      FreeNone(w, pcb);
      assert pcb - gone == pcb && live - gone == live;
    } else {
      var z :| z in gone;
      var rest := gone - {z};
      assert rest + {z} == gone;
      FreeAllKeeps(pcb, idle, rest, w, owner, live, kernelPd);
      var u := WithoutAll(w, pcb, rest);
      WithoutOneMore(w, pcb, rest, z);
      FreeProcessKeeps(pcb - rest, idle, z, u, owner, live - rest, kernelPd, WithoutProcess(u, pcb[z]));
      NotKernelPd(pcb, idle, z, w, owner, live, kernelPd);
      assert pcb - rest - {z} == pcb - gone && live - rest - {z} == live - gone;
    }
  }

  lemma FreeNone(w: World, pcb: map<Ptr, Pcb>)
    ensures WithoutAll(w, pcb, {}) == w
  {
  }

  lemma NotKernelPd(pcb: map<Ptr, Pcb>, idle: Ptr, z: Ptr, w: World, owner: map<nat, Ptr>, live: map<nat, nat>,
                    kernelPd: nat)
    requires AllHeld(pcb, idle, w, owner, live, kernelPd) && z in pcb && z != idle
    ensures pcb[z].cr3 / 4096 != kernelPd
  {
    assert Held(pcb[z], z, w, owner, live, kernelPd);
  }

  /** The zombies reaped among the first `n` have given back what they held, nothing else changed. */
  ghost predicate FreedUpTo(s: Sched, n: nat, w0: World, live0: map<nat, nat>, w: World, live: map<nat, nat>) {
    && n <= |s.zombies| && (forall z :: z in s.zombies ==> z in s.pcb)
    && (forall z :: z in ReapedIn(s, n) ==> z in s.pcb && s.pcb[z].cr3 / 4096 < PHYS_FRAMES)
    && w == WithoutAll(w0, s.pcb, ReapedIn(s, n)) && live == live0 - ReapedIn(s, n)
  }

  lemma FreedNone(s: Sched, w: World, live: map<nat, nat>)
    requires forall z :: z in s.zombies ==> z in s.pcb
    ensures FreedUpTo(s, 0, w, live, w, live)
    ensures s.zombies[..0] == [] && Filter(s, s.zombies[..0]) == []
  {
    assert ReapedIn(s, 0) == {};
    FreeNone(w, s.pcb);
  }

  lemma FreedNoMore(s: Sched, n: nat, w0: World, live0: map<nat, nat>, w: World, live: map<nat, nat>)
    requires n < |s.zombies| && FreedUpTo(s, n, w0, live0, w, live) && ReapedIn(s, n + 1) == ReapedIn(s, n)
    ensures FreedUpTo(s, n + 1, w0, live0, w, live)
  {
  }

  lemma FreedOneMore(s: Sched, n: nat, w0: World, live0: map<nat, nat>, w1: World, live1: map<nat, nat>, w: World,
                     live: map<nat, nat>, z: Ptr)
    requires n < |s.zombies| && FreedUpTo(s, n, w0, live0, w1, live1)
    requires z in s.pcb && ReapedIn(s, n + 1) == ReapedIn(s, n) + {z} && s.pcb[z].cr3 / 4096 < PHYS_FRAMES
    requires w == WithoutProcess(w1, s.pcb[z]) && live == live1 - {z}
    ensures FreedUpTo(s, n + 1, w0, live0, w, live)
  {
    hide WithoutAll; hide WithoutProcess; hide Kept; hide ReapedIn;
    WithoutOneMore(w0, s.pcb, ReapedIn(s, n), z);
  }

  lemma FreedAll(s: Sched, w0: World, live0: map<nat, nat>, w: World, live: map<nat, nat>)
    requires FreedUpTo(s, |s.zombies|, w0, live0, w, live)
    ensures forall z :: z in Reaped(s) ==> z in s.pcb && s.pcb[z].cr3 / 4096 < PHYS_FRAMES
    ensures w == WithoutAll(w0, s.pcb, Reaped(s)) && live == live0 - Reaped(s)
  {
    assert s.zombies[..|s.zombies|] == s.zombies;
  }

  // ---------------------------------------------------------------- the steps

  ghost predicate Takes(k: KState, st: KStep, k': KState, kernelPd: nat)
    requires Inv(k.s)
  {
    match st
    case Refused => NothingCreated(k, k')
    case Launched(p, b, c, w1) =>
      && Filled(k, p, b, w1, k', kernelPd)
      && c == b.(userEntry := c.userEntry, userStackTop := c.userStackTop)
      && k'.s == Apply(k.s, Create(p, c))
    case Doomed(p, b, w1) =>
      && Filled(k, p, b, w1, k', kernelPd)
      && k'.s == Apply(k.s, CreateDoomed(p, b))
    case Ticked =>
      && k'.s == Apply(k.s, Tick) && ReapsWell(k.s)
      && k'.w == WithoutAll(k.w, k.s.pcb, Reaped(k.s))
      && k'.owner == k.owner && k'.live == k.live - Reaped(k.s)
    case Yielded => k' == k.(s := Apply(k.s, Yield))
    case Exited(code) => k.s.current != k.s.idle && k' == k.(s := Apply(k.s, Exit(code)))
  }

  /** A kernel in order took step `st`. */
  ghost predicate Steps(k: KState, st: KStep, k': KState, kernelPd: nat) {
    KInv(k, kernelPd) && Takes(k, st, k', kernelPd)
  }

  ghost predicate ReapsWell(s: Sched) {
    && (forall z :: z in s.zombies ==> z in s.pcb)
    && (forall z :: z in Reaped(s) ==> z in s.pcb && z != s.idle && s.pcb[z].cr3 / 4096 < PHYS_FRAMES)
  }

  lemma ReapsIsWell(s: Sched)
    requires Inv(s)
    ensures ReapsWell(s)
  {
    hide Kept;
  }

  lemma AdmittedProcess(s0: Sched, s: Sched, p: Ptr, b: Pcb)
    requires Inv(s0) && NewProcess(s0, p, b) && s == Admit(s0, p, b)
    ensures p in s.pcb && s.pcb[p] == b && p != 0 && p !in s.zombies && p in s.queue
  {
  }

  /** Steps that neither add nor free processes leave what each holds untouched. */
  lemma SameProcesses(pcb: map<Ptr, Pcb>, pcb': map<Ptr, Pcb>, idle: Ptr, w: World, owner: map<nat, Ptr>,
                      live: map<nat, nat>, kernelPd: nat)
    requires AllHeld(pcb, idle, w, owner, live, kernelPd) && KeepsHoldings(pcb, pcb')
    ensures AllHeld(pcb', idle, w, owner, live, kernelPd)
  {
    forall p | p in pcb' && p != idle ensures Held(pcb'[p], p, w, owner, live, kernelPd) {
      assert p in pcb;
      assert Held(pcb[p], p, w, owner, live, kernelPd);
    }
  }

  /** After a failed creation nothing but the pid counter differs. */
  lemma RestoredAfterFailure(s: Sched, t: Sched, w: World, v: World, owner: map<nat, Ptr>, owner': map<nat, Ptr>,
                             live: map<nat, nat>, kernelPd: nat)
    requires Inv(s) && t == s.(nextPid := t.nextPid) && s.nextPid <= t.nextPid
    requires AllHeld(s.pcb, s.idle, w, owner, live, kernelPd) && RolledBack(w, v)
    requires forall d :: d in w.dirs && d in owner ==> d in owner' && owner'[d] == owner[d]
    ensures Inv(t) && AllHeld(t.pcb, t.idle, v, owner', live, kernelPd)
  {
    ApplyKeepsInv(s, CreateFailed(t.nextPid - s.nextPid));
    RolledBackHeld(s.pcb, s.idle, w, v, owner, owner', live, kernelPd);
  }

  lemma TakeTwo(w: World, lo: nat, hi: nat, p: Ptr)
    requires WorldOk(w) && lo in w.clear && hi in w.clear && lo != hi
    ensures WorldOk(w.(clear := w.clear - {lo} - {hi}, role := w.role[lo := Reserved(p, 0)][hi := Reserved(p, 1)]))
  {
    hide WorldOk;
    TakeFromFree(w, lo);
    var w1 := w.(clear := w.clear - {lo});
    TakeFromFree(w1, hi);
    var w2 := w1.(clear := w1.clear - {hi});
    ReserveFrame(w2, lo, p, 0);
    var w3 := w2.(role := w2.role[lo := Reserved(p, 0)]);
    ReserveFrame(w3, hi, p, 1);
  }

  /** Setting up keeps the world in order and gives the new process what it holds. */
  lemma SetUpKeeps(k: KState, p: Ptr, b: Pcb, w: World, live: map<nat, nat>, kernelPd: nat)
    requires KInv(k, kernelPd) && SetUp(k, p, b, w, live, kernelPd)
    ensures WorldOk(w) && b.cr3 / 4096 in w.dirs && Owned(w.mem, b.cr3 / 4096) == {b.cr3 / 4096}
    ensures w.dirs == k.w.dirs + {b.cr3 / 4096}
    ensures AllHeld(k.s.pcb[p := b], k.s.idle, w, k.owner[b.cr3 / 4096 := p], live, kernelPd)
  {
    hide WorldOk; hide AllHeld; hide Inv; hide Owned; hide NewDirectory;
    var d := b.cr3 / 4096;
    CreateKeepsWorld(k.w, kernelPd, d);
    TakeTwo(CreateWorld(k.w, kernelPd, d), b.stackLo / 4096, b.stackHi / 4096, p);
    AddProcess(k.s.pcb, k.s.idle, k.w, k.owner, k.live, kernelPd, p, b, w, live);
  }

  /** Loading leaves a world in order, grown from the one after the set-up. */
  lemma FilledGrew(k: KState, p: Ptr, b: Pcb, w1: World, k': KState, kernelPd: nat)
    requires KInv(k, kernelPd) && Filled(k, p, b, w1, k', kernelPd)
    ensures WorldOk(w1) && b.cr3 / 4096 in w1.dirs && b.cr3 / 4096 < PHYS_FRAMES
    ensures WorldOk(k'.w) && Grew(w1, k'.w, b.cr3 / 4096)
  {
    hide WorldOk; hide AllHeld; hide Inv; hide Owned; hide SetUp; hide Grew; hide GrewBySteps;
    SetUpKeeps(k, p, b, w1, k'.live, kernelPd);
    StepsGrew(w1, k'.w, b.cr3 / 4096);
  }

  lemma FilledKeeps(k: KState, p: Ptr, b: Pcb, w1: World, k': KState, kernelPd: nat)
    requires KInv(k, kernelPd) && Filled(k, p, b, w1, k', kernelPd)
    ensures WorldOk(k'.w) && kernelPd in k'.w.dirs
    ensures AllHeld(k.s.pcb[p := b], k.s.idle, k'.w, k'.owner, k'.live, kernelPd)
  {
    hide WorldOk; hide AllHeld; hide Inv; hide Owned; hide SetUp; hide Grew; hide GrewBySteps;
    SetUpKeeps(k, p, b, w1, k'.live, kernelPd);
    FilledGrew(k, p, b, w1, k', kernelPd);
    GrewHeld(k.s.pcb[p := b], k.s.idle, w1, k'.w, b.cr3 / 4096, k'.owner, k'.live, kernelPd);
    GrewKeepsDirs(w1, k'.w, b.cr3 / 4096);
  }

  /** A tick after reaping, a yield and an exit change no process's directory or stacks. */
  lemma TickHoldings(s: Sched)
    requires Inv(s) && ReapsWell(s)
    ensures KeepsHoldings(s.pcb - Reaped(s), Apply(s, Tick).pcb) && Apply(s, Tick).idle == s.idle
  {
    hide Inv; hide Wake; hide Quantum; hide Kept; hide Filter;
    var u := Reap(s);
    TickParts(s, u, Wake(u));
    WakeFrame(u, u.table, u.nextPid);
    QuantumFrame(Wake(u), u.table, u.nextPid);
    TickIdle(s, u);
  }

  lemma TickIdle(s: Sched, u: Sched)
    requires Inv(s) && (forall z :: z in s.zombies ==> z in s.pcb) && u == Reap(s)
    ensures TickOf(s).idle == s.idle
  {
    hide Inv; hide FirstReady; hide Kept; hide Filter;
    TickParts(s, u, Wake(u));
  }

  lemma YieldHoldings(s: Sched)
    requires Inv(s)
    ensures KeepsHoldings(s.pcb, Apply(s, Yield).pcb) && Apply(s, Yield).idle == s.idle
  {
    hide Inv; hide FirstReady;
    CurrentKnown(s);
    PickFrame(s, s.table, s.nextPid);
  }

  lemma ExitHoldings(s: Sched, code: int)
    requires Inv(s) && s.current != s.idle
    ensures KeepsHoldings(s.pcb, Apply(s, Exit(code)).pcb) && Apply(s, Exit(code)).idle == s.idle
  {
    hide Inv; hide FirstReady; hide Picking; hide Remove;
    CurrentKnown(s);
    var u := Retire(s, s.current, code);
    RetireFacts(s, s.current, code);
    RetireHoldings(s, s.current, code);
    PickingKnown(u);
    PickFrame(u, u.table, u.nextPid);
  }

  /** Every step keeps the whole kernel in order. */
  lemma TakesKeepsInv(k: KState, st: KStep, k': KState, kernelPd: nat)
    requires KInv(k, kernelPd) && Takes(k, st, k', kernelPd)
    ensures KInv(k', kernelPd)
  {
    hide Inv; hide WorldOk; hide AllHeld; hide WithoutAll; hide Filled; hide NewProcess;
    match st
    case Refused => RefusedKeeps(k, k', kernelPd);
    case Launched(p, b, c, w1) => LaunchedKeeps(k, st, k', kernelPd);
    case Doomed(p, b, w1) => DoomedKeeps(k, st, k', kernelPd);
    case Ticked =>
      ApplyKeepsInv(k.s, Tick);
      FreeAllKeeps(k.s.pcb, k.s.idle, Reaped(k.s), k.w, k.owner, k.live, kernelPd);
      TickHoldings(k.s);
      SameProcesses(k.s.pcb - Reaped(k.s), k'.s.pcb, k.s.idle, k'.w, k'.owner, k'.live, kernelPd);
    case Yielded =>
      ApplyKeepsInv(k.s, Yield);
      YieldHoldings(k.s);
      SameProcesses(k.s.pcb, k'.s.pcb, k.s.idle, k.w, k.owner, k.live, kernelPd);
    case Exited(code) =>
      ApplyKeepsInv(k.s, Exit(code));
      ExitHoldings(k.s, code);
      SameProcesses(k.s.pcb, k'.s.pcb, k.s.idle, k.w, k.owner, k.live, kernelPd);
  }

  /** A process set up and not yet loaded is launched. */
  lemma LaunchedBare(k: KState, p: Ptr, b: Pcb, k': KState, kernelPd: nat)
    requires KInv(k, kernelPd) && SetUp(k, p, b, k'.w, k'.live, kernelPd)
    requires k'.owner == k.owner[b.cr3 / 4096 := p] && k'.s == Admit(k.s, p, b)
    ensures Steps(k, Launched(p, b, b, k'.w), k', kernelPd)
  {
    hide Inv; hide WorldOk; hide AllHeld; hide WithProcess; hide Grew; hide GrewBySteps; hide FreeSlot;
    SetUpKeeps(k, p, b, k'.w, k'.live, kernelPd);
    StepsNone(k'.w, b.cr3 / 4096);
  }

  /** A process loaded after it was set up is launched, or doomed. */
  lemma LaunchedLoaded(k: KState, p: Ptr, b: Pcb, c: Pcb, w1: World, k': KState, kernelPd: nat)
    requires KInv(k, kernelPd) && SetUp(k, p, b, w1, k'.live, kernelPd) && k'.owner == k.owner[b.cr3 / 4096 := p]
    requires GrewBySteps(w1, k'.w, b.cr3 / 4096)
    requires c == b.(userEntry := c.userEntry, userStackTop := c.userStackTop)
    ensures k'.s == Admit(k.s, p, c) ==> Steps(k, Launched(p, b, c, w1), k', kernelPd)
    ensures k'.s == DoomedState(k.s, p, b) ==> Steps(k, Doomed(p, b, w1), k', kernelPd)
  {
    hide Inv; hide WorldOk; hide AllHeld; hide WithProcess; hide Grew; hide GrewBySteps; hide FreeSlot; hide Retire;
  }

  lemma RefusedKeeps(k: KState, k': KState, kernelPd: nat)
    requires KInv(k, kernelPd) && NothingCreated(k, k')
    ensures KInv(k', kernelPd)
  {
    hide Inv; hide AllHeld;
    RestoredAfterFailure(k.s, k'.s, k.w, k'.w, k.owner, k'.owner, k.live, kernelPd);
    RolledBackOk(k.w, k'.w);
  }

  /** Where only free frames differ, every address space is as it was. */
  lemma RolledBackOk(w: World, v: World)
    requires WorldOk(w) && RolledBack(w, v)
    ensures WorldOk(v)
    ensures forall d :: d in w.dirs ==> d < PHYS_FRAMES && Owned(v.mem, d) == Owned(w.mem, d)
  {
    hide Present; hide Writable; hide User; hide FrameOf; hide FlagsOf; hide Owned;
    forall d | d in w.dirs
      ensures d < PHYS_FRAMES && DirectoryOk(v, d) && LeavesOk(v, d) && Owned(v.mem, d) == Owned(w.mem, d)
    {
      assert DirectoryOk(w, d);
      OtherFramesKeepDirectory(w, v, d, {});
    }
  }

  lemma LaunchedKeeps(k: KState, st: KStep, k': KState, kernelPd: nat)
    requires KInv(k, kernelPd) && st.Launched? && Takes(k, st, k', kernelPd)
    ensures KInv(k', kernelPd)
  {
    hide Inv; hide WorldOk; hide AllHeld; hide WithProcess; hide Grew; hide GrewBySteps; hide FreeSlot;
    ApplyKeepsInv(k.s, Create(st.p, st.c));
    FilledKeeps(k, st.p, st.b, st.w1, k', kernelPd);
    SameProcesses(k.s.pcb[st.p := st.b], k'.s.pcb, k.s.idle, k'.w, k'.owner, k'.live, kernelPd);
  }

  lemma DoomedKeeps(k: KState, st: KStep, k': KState, kernelPd: nat)
    requires KInv(k, kernelPd) && st.Doomed? && Takes(k, st, k', kernelPd)
    ensures KInv(k', kernelPd)
  {
    hide Inv; hide WorldOk; hide AllHeld; hide WithProcess; hide Grew; hide GrewBySteps; hide FreeSlot; hide Remove;
    ApplyKeepsInv(k.s, CreateDoomed(st.p, st.b));
    FilledKeeps(k, st.p, st.b, st.w1, k', kernelPd);
    SameProcesses(k.s.pcb[st.p := st.b], k'.s.pcb, k.s.idle, k'.w, k'.owner, k'.live, kernelPd);
  }
}
