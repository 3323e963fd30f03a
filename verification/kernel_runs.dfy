/**
 Whole runs of the kernel: processes created, loaded, scheduled, exited and
 reaped in any order. What a process holds stays its own until it is reaped;
 what its creation lost stays lost.
 */
module KernelRuns {
  import opened Machine
  import opened FrameAllocator
  import opened AddressSpace
  import opened CloneSpec
  import opened Growth
  import opened SchedSpec
  import opened ProcessSpec
  import opened KernelSteps

  /** `ks[i + 1]` is the state after step `i`. */
  ghost predicate KRun(ks: seq<KState>, steps: seq<KStep>, kernelPd: nat)
    requires |ks| == |steps| + 1 && KInv(ks[0], kernelPd)
    decreases |steps|
  {
    steps == [] ||
    (Takes(ks[0], steps[0], ks[1], kernelPd)
     && (TakesKeepsInv(ks[0], steps[0], ks[1], kernelPd); KRun(ks[1..], steps[1..], kernelPd)))
  }

  /** The whole kernel is in order after every step of every run. */
  lemma {:induction false} RunKeepsKernel(ks: seq<KState>, steps: seq<KStep>, kernelPd: nat, i: nat)
    requires |ks| == |steps| + 1 && KInv(ks[0], kernelPd) && KRun(ks, steps, kernelPd) && i <= |steps|
    ensures KInv(ks[i], kernelPd)
    ensures i < |steps| ==> Takes(ks[i], steps[i], ks[i + 1], kernelPd)
    decreases i
  {
    hide KInv; hide Takes;
    if i > 0 {
      TakesKeepsInv(ks[0], steps[0], ks[1], kernelPd);
      RunKeepsKernel(ks[1..], steps[1..], kernelPd, i - 1);
    } else {
      InOrder(ks[0], kernelPd);
    }
  }

  lemma InOrder(k: KState, kernelPd: nat)
    requires KInv(k, kernelPd)
    ensures Inv(k.s) && WorldOk(k.w)
  {
  }

  // ---------------------------------------------------------------- frames no one gives back

  /** No step gives an orphaned frame back to the allocator or to a process. */
  lemma OrphanStays(k: KState, st: KStep, k': KState, kernelPd: nat, f: nat)
    requires KInv(k, kernelPd) && Takes(k, st, k', kernelPd) && Orphan(k.w, f)
    ensures Orphan(k'.w, f)
  {
    hide Inv; hide Owned; hide WithoutAll; hide Filled;
    match st
    case Refused => RolledBackOk(k.w, k'.w);
    case Launched(p, b, _, w1) => FilledKeepsOrphan(k, p, b, w1, k', kernelPd, f);
    case Doomed(p, b, w1) => FilledKeepsOrphan(k, p, b, w1, k', kernelPd, f);
    case Ticked => ReapKeepsOrphan(k, k', kernelPd, f);
    case _ =>
  }

  lemma SetUpKeepsOthers(k: KState, p: Ptr, b: Pcb, w: World, live: map<nat, nat>, kernelPd: nat, d: nat)
    requires KInv(k, kernelPd) && SetUp(k, p, b, w, live, kernelPd) && d in k.w.dirs
    ensures d < PHYS_FRAMES && d != b.cr3 / 4096 && Owned(w.mem, d) == Owned(k.w.mem, d)
  {
    hide Owned; hide Present; hide FrameOf; hide NewDirectory; hide Inv; hide AllHeld;
    FreeFacts(k.w);
    assert DirectoryOk(k.w, d);
    OtherFramesKeepDirectory(k.w, w, d, {});
  }

  lemma FilledKeepsOrphan(k: KState, p: Ptr, b: Pcb, w1: World, k': KState, kernelPd: nat, f: nat)
    requires KInv(k, kernelPd) && Filled(k, p, b, w1, k', kernelPd) && Orphan(k.w, f)
    ensures Orphan(k'.w, f)
  {
    hide Owned; hide Grew; hide GrewBySteps; hide Inv; hide AllHeld; hide WorldOk; hide NewDirectory;
    SetUpKeeps(k, p, b, w1, k'.live, kernelPd);
    FreeFacts(k.w);
    forall d | d in k.w.dirs ensures d < PHYS_FRAMES && f !in Owned(w1.mem, d) {
      SetUpKeepsOthers(k, p, b, w1, k'.live, kernelPd, d);
    }
    FilledGrew(k, p, b, w1, k', kernelPd);
    GrewKeepsOrphan(w1, k'.w, b.cr3 / 4096, f);
  }

  lemma ReapKeepsOrphan(k: KState, k': KState, kernelPd: nat, f: nat)
    requires KInv(k, kernelPd) && Takes(k, Ticked, k', kernelPd) && Orphan(k.w, f)
    ensures Orphan(k'.w, f)
  {
    hide Owned; hide Inv; hide WorldOk; hide Kept;
    forall z | z in Reaped(k.s) ensures f !in FramesHeld(k.s.pcb[z], k.w.mem) {
      assert Held(k.s.pcb[z], z, k.w, k.owner, k.live, kernelPd);
    }
  }

  /** An orphaned frame is never free again, in any run. */
  lemma {:induction false} OrphanForever(ks: seq<KState>, steps: seq<KStep>, kernelPd: nat, i: nat, f: nat)
    requires |ks| == |steps| + 1 && KInv(ks[0], kernelPd) && KRun(ks, steps, kernelPd)
    requires Orphan(ks[0].w, f) && i <= |steps|
    ensures Orphan(ks[i].w, f) && f !in ks[i].w.clear
    decreases i
  {
    hide KInv; hide Takes; hide Orphan;
    if i > 0 {
      TakesKeepsInv(ks[0], steps[0], ks[1], kernelPd);
      OrphanStays(ks[0], steps[0], ks[1], kernelPd, f);
      OrphanForever(ks[1..], steps[1..], kernelPd, i - 1, f);
    } else {
      OrphanIsUsed(ks[0], kernelPd, f);
    }
  }

  lemma OrphanIsUsed(k: KState, kernelPd: nat, f: nat)
    requires KInv(k, kernelPd) && Orphan(k.w, f)
    ensures f !in k.w.clear
  {
  }

  // ---------------------------------------------------------------- what a process holds

  /** The step creates process `p` with block `b`, loaded from world `w1` on. */
  ghost predicate Makes(st: KStep, p: Ptr, b: Pcb, w1: World) {
    match st
    case Launched(q, c, _, w) => q == p && c == b && w == w1
    case Doomed(q, c, w) => q == p && c == b && w == w1
    case _ => false
  }

  lemma MadeIs(k: KState, st: KStep, k': KState, kernelPd: nat, p: Ptr, b: Pcb, w1: World)
    requires KInv(k, kernelPd) && Takes(k, st, k', kernelPd) && Makes(st, p, b, w1)
    ensures Filled(k, p, b, w1, k', kernelPd) && p != k.s.idle
    ensures p in k'.s.pcb && SameHoldings(b, k'.s.pcb[p]) && k'.s.idle == k.s.idle
  {
    hide WorldOk; hide AllHeld; hide Grew; hide GrewBySteps; hide Inv; hide FreeSlot; hide Remove;
    NewIsNotIdle(k, p, b, w1, k', kernelPd);
  }

  lemma MakesOne(k: KState, st: KStep, k': KState, kernelPd: nat, p: Ptr, b: Pcb, w1: World)
    requires KInv(k, kernelPd) && Takes(k, st, k', kernelPd) && Makes(st, p, b, w1)
    ensures Filled(k, p, b, w1, k', kernelPd)
    ensures p !in k.s.pcb && p in k'.s.pcb && k'.s.pcb == k.s.pcb[p := k'.s.pcb[p]]
  {
    hide KInv; hide Inv; hide GrewBySteps; hide WithProcess; hide FreeSlot; hide Remove;
  }

  /** Until it is reaped, no step of anyone changes which frames a process holds. */
  lemma HoldingStays(k: KState, st: KStep, k': KState, kernelPd: nat, p: Ptr)
    requires KInv(k, kernelPd) && Takes(k, st, k', kernelPd)
    requires p in k.s.pcb && p in k'.s.pcb && p != k.s.idle
    ensures SameHoldings(k.s.pcb[p], k'.s.pcb[p])
    ensures FramesHeld(k'.s.pcb[p], k'.w.mem) == FramesHeld(k.s.pcb[p], k.w.mem)
  {
    hide Inv; hide Owned; hide WorldOk; hide WithoutAll; hide Filled; hide Apply; hide Reaped;
    assert Held(k.s.pcb[p], p, k.w, k.owner, k.live, kernelPd);
    match st
    case Refused => RolledBackOk(k.w, k'.w);
    case Launched(q, b, c, w1) =>
      MakesOne(k, st, k', kernelPd, q, b, w1);
      FilledKeepsOthers(k, q, b, w1, k', kernelPd, k.s.pcb[p].cr3 / 4096);
    case Doomed(q, b, w1) =>
      MakesOne(k, st, k', kernelPd, q, b, w1);
      FilledKeepsOthers(k, q, b, w1, k', kernelPd, k.s.pcb[p].cr3 / 4096);
    case Ticked =>
      TickHoldings(k.s);
      WithoutAllMem(k.w, k.s.pcb, Reaped(k.s));
    case Yielded => YieldHoldings(k.s);
    case Exited(code) => ExitHoldings(k.s, code);
  }

  lemma WithoutAllMem(w: World, pcb: map<Ptr, Pcb>, gone: set<Ptr>)
    requires forall p :: p in gone ==> p in pcb && pcb[p].cr3 / 4096 < PHYS_FRAMES
    ensures WithoutAll(w, pcb, gone).mem == w.mem
  {
  }

  lemma FilledKeepsOthers(k: KState, p: Ptr, b: Pcb, w1: World, k': KState, kernelPd: nat, d: nat)
    requires KInv(k, kernelPd) && Filled(k, p, b, w1, k', kernelPd) && d in k.w.dirs
    ensures d < PHYS_FRAMES && Owned(k'.w.mem, d) == Owned(k.w.mem, d)
  {
    hide Owned; hide Grew; hide GrewBySteps; hide KInv; hide SetUp; hide WorldOk;
    SetUpKeeps(k, p, b, w1, k'.live, kernelPd);
    SetUpKeepsOthers(k, p, b, w1, k'.live, kernelPd, d);
    FilledGrew(k, p, b, w1, k', kernelPd);
    GrewKeepsOthers(w1, k'.w, b.cr3 / 4096, d);
  }

  // ---------------------------------------------------------------- isolation

  /** Above 32 MB directory `d` maps the same pages to the same frames with the same flags and the same bytes. */
  ghost predicate SameSpace(m: Memory, m': Memory, d: nat)
    requires d < PHYS_FRAMES
  {
    forall i: nat, j: nat :: IDENTITY_TABLES <= i < ENTRIES && j < ENTRIES ==>
      && Walk(m', d, i, j) == Walk(m, d, i, j)
      && (Walk(m, d, i, j).MapsTo? ==>
            Walk(m, d, i, j).frame < PHYS_FRAMES && m'[Walk(m, d, i, j).frame] == m[Walk(m, d, i, j).frame])
  }

  /** An address space is what its frames hold. */
  lemma SpaceIsItsFrames(m: Memory, m': Memory, d: nat)
    requires d < PHYS_FRAMES
    requires forall f :: f in Owned(m, d) && 0 <= f < PHYS_FRAMES ==> m'[f] == m[f]
    ensures SameSpace(m, m', d)
  {
    hide Present; hide FrameOf; hide FlagsOf;
    forall i: nat, j: nat | IDENTITY_TABLES <= i < ENTRIES && j < ENTRIES
      ensures Walk(m', d, i, j) == Walk(m, d, i, j)
      ensures Walk(m, d, i, j).MapsTo? ==>
                Walk(m, d, i, j).frame < PHYS_FRAMES && m'[Walk(m, d, i, j).frame] == m[Walk(m, d, i, j).frame]
    {
      assert Present(m[d][i]) ==> FrameOf(m[d][i]) in Tables(m, d);
      assert IsMapped(m, d, i, j) ==> FrameOf(Pte(m, d, i, j)) in Leaves(m, d);
    }
  }

  /** A frame process `p` has: part of its address space, or one of its stacks. */
  lemma HeldRole(k: KState, kernelPd: nat, p: Ptr, f: nat)
    requires KInv(k, kernelPd) && p in k.s.pcb && p != k.s.idle && k.s.pcb[p].cr3 / 4096 < PHYS_FRAMES
    requires f in FramesHeld(k.s.pcb[p], k.w.mem)
    ensures k.s.pcb[p].cr3 / 4096 in k.w.dirs && f in k.w.role && f !in k.w.clear && f < PHYS_FRAMES
    ensures f == k.s.pcb[p].cr3 / 4096 || f !in k.w.dirs
    ensures match k.w.role[f]
            case IdentityTable(_) => false
            case TableOf(d, _) => d == k.s.pcb[p].cr3 / 4096
            case _ => true
  {
    hide Inv; hide Owned;
    assert Held(k.s.pcb[p], p, k.w, k.owner, k.live, kernelPd);
    assert DirectoryOk(k.w, k.s.pcb[p].cr3 / 4096);
    assert f in k.w.dirs ==> DirectoryOk(k.w, f);
    OwnedByRole(k.w, k.s.pcb[p].cr3 / 4096, f);
  }

  /**
   No creation, load, reaping or scheduling step writes a page, a table or a
   stack frame of an existing process. (What runs on a process's own stack is
   the matter of `ContextSwitch`.)
   */
  lemma HeldIsNotWritten(k: KState, st: KStep, k': KState, kernelPd: nat, p: Ptr, f: nat)
    requires KInv(k, kernelPd) && Takes(k, st, k', kernelPd)
    requires p in k.s.pcb && p != k.s.idle && k.s.pcb[p].cr3 / 4096 < PHYS_FRAMES
    requires f in FramesHeld(k.s.pcb[p], k.w.mem)
    ensures f < PHYS_FRAMES && k'.w.mem[f] == k.w.mem[f]
  {
    hide KInv; hide Inv; hide FramesHeld; hide WithoutAll; hide Filled;
    HeldRole(k, kernelPd, p, f);
    match st
    case Launched(q, b, _, w1) => FillingWrites(k, q, b, w1, k', kernelPd, f, k.s.pcb[p].cr3 / 4096);
    case Doomed(q, b, w1) => FillingWrites(k, q, b, w1, k', kernelPd, f, k.s.pcb[p].cr3 / 4096);
    case Ticked => WithoutAllMem(k.w, k.s.pcb, Reaped(k.s));
    case _ =>
  }

  /** Creating and loading a process writes free frames, its own, and the shared tables. */
  lemma FillingWrites(k: KState, q: Ptr, b: Pcb, w1: World, k': KState, kernelPd: nat, f: nat, d: nat)
    requires KInv(k, kernelPd) && Filled(k, q, b, w1, k', kernelPd)
    requires d in k.w.dirs && f in k.w.role && f < PHYS_FRAMES && (f == d || f !in k.w.dirs)
    requires !k.w.role[f].IdentityTable? && (k.w.role[f].TableOf? ==> k.w.role[f].dir == d)
    ensures k'.w.mem[f] == k.w.mem[f]
  {
    hide Inv; hide AllHeld; hide WorldOk; hide NewDirectory; hide GrewBySteps; hide Walk; hide Present; hide FrameOf;
    FreeFacts(k.w);
    RolesAreUsed(k.w);
    FilledGrew(k, q, b, w1, k', kernelPd);
    assert w1.mem[f] == k.w.mem[f] && f !in w1.clear;
    assert !Writes(w1, b.cr3 / 4096, f);
  }

  /** While a process lives, whatever others do, its frames and with them its address space keep their contents. */
  lemma {:induction false} Undisturbed(ks: seq<KState>, steps: seq<KStep>, kernelPd: nat, p: Ptr, i: nat)
    requires |ks| == |steps| + 1 && KInv(ks[0], kernelPd) && KRun(ks, steps, kernelPd) && i <= |steps|
    requires (forall j :: 0 <= j <= i ==> p in ks[j].s.pcb) && p != ks[0].s.idle
    ensures ks[0].s.pcb[p].cr3 / 4096 < PHYS_FRAMES
    ensures forall f :: f in FramesHeld(ks[0].s.pcb[p], ks[0].w.mem) ==>
              0 <= f < PHYS_FRAMES && ks[i].w.mem[f] == ks[0].w.mem[f]
    ensures SameSpace(ks[0].w.mem, ks[i].w.mem, ks[0].s.pcb[p].cr3 / 4096)
    decreases i
  {
    hide KInv; hide Takes; hide FramesHeld; hide SameSpace;
    HeldIsUsed(ks[0], kernelPd, p);
    var b := ks[0].s.pcb[p];
    forall f | f in FramesHeld(b, ks[0].w.mem) ensures 0 <= f < PHYS_FRAMES && ks[i].w.mem[f] == ks[0].w.mem[f] {
      HeldRole(ks[0], kernelPd, p, f);
      if i > 0 {
        TakesKeepsInv(ks[0], steps[0], ks[1], kernelPd);
        HeldIsNotWritten(ks[0], steps[0], ks[1], kernelPd, p, f);
        HoldingStays(ks[0], steps[0], ks[1], kernelPd, p);
        IdleStays(ks[0], steps[0], ks[1], kernelPd);
        Undisturbed(ks[1..], steps[1..], kernelPd, p, i - 1);
      }
    }
    OwnedIsHeld(b, ks[0].w.mem);
    SpaceIsItsFrames(ks[0].w.mem, ks[i].w.mem, b.cr3 / 4096);
  }

  lemma OwnedIsHeld(b: Pcb, m: Memory)
    requires b.cr3 / 4096 < PHYS_FRAMES
    ensures forall f :: f in Owned(m, b.cr3 / 4096) ==> f in FramesHeld(b, m)
  {
  }

  // ---------------------------------------------------------------- a whole life

  /** What a creation took: what the process holds, and what was lost while it was loaded. */
  lemma CreationTakes(k: KState, p: Ptr, b: Pcb, w1: World, k': KState, kernelPd: nat)
    requires KInv(k, kernelPd) && Filled(k, p, b, w1, k', kernelPd)
    ensures b.cr3 / 4096 < PHYS_FRAMES
    ensures var held, lost := FramesHeld(b, k'.w.mem), Lost(w1, k'.w, b.cr3 / 4096);
            && k.w.clear == k'.w.clear + held + lost
            && held !! k'.w.clear && lost !! k'.w.clear && held !! lost
            && forall f :: f in lost ==> Orphan(k'.w, f)
  {
    hide Owned; hide Grew; hide GrewBySteps; hide Inv; hide AllHeld; hide WorldOk; hide LostRole; hide WithProcess;
    hide Orphan;
    var d := b.cr3 / 4096;
    SetUpKeeps(k, p, b, w1, k'.live, kernelPd);
    FilledGrew(k, p, b, w1, k', kernelPd);
    FreeAfterGrowth(w1, k'.w, d);
    GrewKeepsDirs(w1, k'.w, d);
    OwnedIsUsed(k'.w, d);
    StacksNotOwned(k, p, b, w1, k', kernelPd);
    FreeFacts(k.w);
    forall f | f in Lost(w1, k'.w, d) ensures Orphan(k'.w, f) && f !in Owned(k'.w.mem, d) {
      LostIsOrphan(w1, k'.w, d, f);
      NotOwned(k'.w, d, f);
    }
  }

  lemma NotOwned(w: World, d: nat, f: nat)
    requires Orphan(w, f) && d in w.dirs && d < PHYS_FRAMES
    ensures f !in Owned(w.mem, d)
  {
  }

  lemma OwnedIsUsed(w: World, d: nat)
    requires WorldOk(w) && d in w.dirs && d < PHYS_FRAMES
    ensures Owned(w.mem, d) !! w.clear
  {
    hide Owned; hide DirectoryOk;
    FreeKeepsWorld(w, d);
  }

  lemma StacksNotOwned(k: KState, p: Ptr, b: Pcb, w1: World, k': KState, kernelPd: nat)
    requires KInv(k, kernelPd) && Filled(k, p, b, w1, k', kernelPd)
    ensures b.cr3 / 4096 < PHYS_FRAMES && {b.stackLo / 4096, b.stackHi / 4096} !! Owned(k'.w.mem, b.cr3 / 4096)
  {
    hide Owned; hide Grew; hide GrewBySteps; hide KInv; hide WorldOk; hide SetUp;
    FilledKeeps(k, p, b, w1, k', kernelPd);
    assert k.s.pcb[p := b][p] == b;
    NewIsNotIdle(k, p, b, w1, k', kernelPd);
    var d := b.cr3 / 4096;
    assert Held(b, p, k'.w, k'.owner, k'.live, kernelPd);
    DirHasNoStack(k'.w, d, b.stackLo / 4096, p, 0);
    DirHasNoStack(k'.w, d, b.stackHi / 4096, p, 1);
  }

  lemma NewIsNotIdle(k: KState, p: Ptr, b: Pcb, w1: World, k': KState, kernelPd: nat)
    requires KInv(k, kernelPd) && Filled(k, p, b, w1, k', kernelPd)
    ensures p != k.s.idle
  {
    hide WorldOk; hide AllHeld; hide WithProcess; hide Grew; hide GrewBySteps;
  }

  lemma {:induction false} HeldUntil(ks: seq<KState>, steps: seq<KStep>, kernelPd: nat, p: Ptr, i: nat)
    requires |ks| == |steps| + 1 && KInv(ks[0], kernelPd) && KRun(ks, steps, kernelPd) && i <= |steps|
    requires (forall j :: 0 <= j <= i ==> p in ks[j].s.pcb) && p != ks[0].s.idle
    ensures SameHoldings(ks[0].s.pcb[p], ks[i].s.pcb[p]) && ks[i].s.idle == ks[0].s.idle
    ensures FramesHeld(ks[i].s.pcb[p], ks[i].w.mem) == FramesHeld(ks[0].s.pcb[p], ks[0].w.mem)
    decreases i
  {
    hide KInv; hide Takes; hide FramesHeld;
    if i > 0 {
      TakesKeepsInv(ks[0], steps[0], ks[1], kernelPd);
      HoldingStays(ks[0], steps[0], ks[1], kernelPd, p);
      IdleStays(ks[0], steps[0], ks[1], kernelPd);
      HeldUntil(ks[1..], steps[1..], kernelPd, p, i - 1);
    }
  }

  lemma IdleStays(k: KState, st: KStep, k': KState, kernelPd: nat)
    requires KInv(k, kernelPd) && Takes(k, st, k', kernelPd)
    ensures k'.s.idle == k.s.idle
  {
    hide Inv; hide WorldOk; hide AllHeld; hide WithoutAll; hide Filled; hide FreeSlot; hide Remove; hide FirstReady;
    match st
    case Ticked => TickHoldings(k.s);
    case Yielded => YieldHoldings(k.s);
    case Exited(code) => ExitHoldings(k.s, code);
    case _ =>
  }

  /** The step on which a process disappears is a tick that returns all it holds. */
  lemma GoneIsReaped(k: KState, st: KStep, k': KState, kernelPd: nat, p: Ptr)
    requires KInv(k, kernelPd) && Takes(k, st, k', kernelPd)
    requires p in k.s.pcb && p !in k'.s.pcb
    ensures st == Ticked && ReapsWell(k.s) && p in Reaped(k.s)
    ensures FramesHeld(k.s.pcb[p], k.w.mem) <= k'.w.clear && p !in k'.live
  {
    hide Inv; hide WorldOk; hide AllHeld; hide Filled; hide FreeSlot; hide Remove; hide FirstReady; hide Owned;
    hide Kept;
    match st
    case Ticked => TickHoldings(k.s);
    case Yielded => YieldHoldings(k.s);
    case Exited(code) => ExitHoldings(k.s, code);
    case _ =>
  }

  /** The heap pointer of a process is handed out from its creation to its reaping. */
  lemma BlockIsHeld(k: KState, kernelPd: nat, p: Ptr)
    requires KInv(k, kernelPd) && p in k.s.pcb && p != k.s.idle
    ensures p in k.live && k.live[p] >= PCB_BYTES
  {
    hide Inv; hide WorldOk;
    assert Held(k.s.pcb[p], p, k.w, k.owner, k.live, kernelPd);
  }

  lemma BlockIsNew(k: KState, p: Ptr, b: Pcb, w1: World, k': KState, kernelPd: nat)
    requires Filled(k, p, b, w1, k', kernelPd)
    ensures p !in k.live
  {
  }

  /** No step takes a heap pointer away from anyone but the processes it reaps. */
  lemma OtherBlocksStay(k: KState, st: KStep, k': KState, kernelPd: nat, q: nat)
    requires KInv(k, kernelPd) && Takes(k, st, k', kernelPd) && q in k.live && (q in k.s.pcb ==> q in k'.s.pcb)
    requires q != k.s.idle
    ensures q in k'.live && k'.live[q] == k.live[q]
  {
    hide KInv; hide Inv; hide GrewBySteps; hide WithProcess; hide WithoutAll; hide FreeSlot; hide Remove; hide Kept;
    InOrder(k, kernelPd);
    if st.Ticked? { TickHoldings(k.s); }
  }

  /**
   Frame accounting over a process's whole life, among any other processes. Its
   creation took from the free frames exactly what it holds and what was lost.
   Until it is reaped it holds just that, whatever others do. The tick that
   reaps it returns all it holds. What its creation lost is free in none of
   these states, so it is exactly what the process costs for good.
   */
  lemma WholeLife(ks: seq<KState>, steps: seq<KStep>, kernelPd: nat, p: Ptr, b: Pcb, w1: World)
    requires |ks| == |steps| + 1 && KInv(ks[0], kernelPd) && KRun(ks, steps, kernelPd)
    requires |steps| >= 2 && Makes(steps[0], p, b, w1)
    requires (forall i :: 1 <= i < |steps| ==> p in ks[i].s.pcb) && p !in ks[|steps|].s.pcb
    ensures b.cr3 / 4096 < PHYS_FRAMES
    ensures var held, lost := FramesHeld(b, ks[1].w.mem), Lost(w1, ks[1].w, b.cr3 / 4096);
            && ks[0].w.clear == ks[1].w.clear + held + lost
            && held !! lost
            && (forall i :: 1 <= i < |steps| ==> FramesHeld(ks[i].s.pcb[p], ks[i].w.mem) == held)
            && (forall i :: 1 <= i < |steps| ==> held !! ks[i].w.clear)
            && held <= ks[|steps|].w.clear
            && (forall i :: 1 <= i <= |steps| ==> lost !! ks[i].w.clear)
    ensures p !in ks[0].live && (forall i :: 1 <= i < |steps| ==> p in ks[i].live) && p !in ks[|steps|].live
  {
    hide KInv; hide Takes; hide FramesHeld; hide Lost; hide Filled; hide Orphan; hide Makes;
    var n := |steps|;
    RunKeepsKernel(ks, steps, kernelPd, 0);
    TakesKeepsInv(ks[0], steps[0], ks[1], kernelPd);
    MadeIs(ks[0], steps[0], ks[1], kernelPd, p, b, w1);
    CreationTakes(ks[0], p, b, w1, ks[1], kernelPd);
    var held, lost := FramesHeld(b, ks[1].w.mem), Lost(w1, ks[1].w, b.cr3 / 4096);
    SameFrames(b, ks[1].s.pcb[p], ks[1].w.mem);
    var later, rest := ks[1..], steps[1..];
    forall i | 1 <= i < n
      ensures FramesHeld(ks[i].s.pcb[p], ks[i].w.mem) == held && held !! ks[i].w.clear
    {
      HeldUntil(later, rest, kernelPd, p, i - 1);
      RunKeepsKernel(ks, steps, kernelPd, i);
      HeldIsUsed(ks[i], kernelPd, p);
    }
    BlockIsNew(ks[0], p, b, w1, ks[1], kernelPd);
    forall i | 1 <= i < n ensures p in ks[i].live {
      HeldUntil(later, rest, kernelPd, p, i - 1);
      RunKeepsKernel(ks, steps, kernelPd, i);
      BlockIsHeld(ks[i], kernelPd, p);
    }
    forall i, f | 1 <= i <= n && f in lost ensures f !in ks[i].w.clear {
      OrphanForever(later, rest, kernelPd, i - 1, f);
    }
    RunKeepsKernel(ks, steps, kernelPd, n - 1);
    GoneIsReaped(ks[n - 1], steps[n - 1], ks[n], kernelPd, p);
  }

  lemma SameFrames(b: Pcb, c: Pcb, m: Memory)
    requires SameHoldings(b, c) && b.cr3 / 4096 < PHYS_FRAMES
    ensures FramesHeld(b, m) == FramesHeld(c, m)
  {
  }

  lemma HeldIsUsed(k: KState, kernelPd: nat, p: Ptr)
    requires KInv(k, kernelPd) && p in k.s.pcb && p != k.s.idle
    ensures k.s.pcb[p].cr3 / 4096 < PHYS_FRAMES && FramesHeld(k.s.pcb[p], k.w.mem) !! k.w.clear
  {
    hide Inv; hide Owned; hide WorldOk;
    assert Held(k.s.pcb[p], p, k.w, k.owner, k.live, kernelPd);
    OwnedIsUsed(k.w, k.s.pcb[p].cr3 / 4096);
    RolesAreUsed(k.w);
  }
}
