/**
 Where the control blocks and stacks that `context_switch` works on lie. Those
 of any two processes are apart, which is what the round trip of
 `ContextSwitch` rests on, and the steps of the kernel move them as the steps
 of `ContextSwitch` do. Idle is not among them: its control block and stack are
 static.
 */
module KernelStacks {
  import opened Machine
  import opened AddressSpace
  import opened Growth
  import opened HeapSpec
  import opened HeapRuns
  import opened SchedSpec
  import opened ProcessSpec
  import opened KernelSteps
  import opened KernelRuns
  import opened Processes
  import Context = ContextSwitch

  /** The control block and the stack frame a process is switched on. */
  function PlaceOf(p: Ptr, b: Pcb): Context.Place { Context.Place(p, b.stackHi, b.stackHi + 4096) }

  function PlacesOf(s: Sched): map<nat, Context.Place> {
    map p | p in s.pcb && p != s.idle :: PlaceOf(p, s.pcb[p])
  }

  /** The heap block of a control block. */
  lemma BlockOf(bs: seq<Block>, p: Ptr) returns (i: nat)
    requires p in LiveSizes(bs)
    ensures i < |bs| && Payload(bs[i]) == p && bs[i].size == LiveSizes(bs)[p]
  {
    LivePtrsAt(bs, p);
    i := LiveAt(bs, p);
  }

  lemma StackFramesDiffer(k: KState, kernelPd: nat, p: Ptr, q: Ptr)
    requires KInv(k, kernelPd) && p in k.s.pcb && q in k.s.pcb && p != k.s.idle && q != k.s.idle && p != q
    ensures Context.StacksApart(PlaceOf(p, k.s.pcb[p]), PlaceOf(q, k.s.pcb[q]))
  {
    hide Inv; hide WorldOk;
    assert Held(k.s.pcb[p], p, k.w, k.owner, k.live, kernelPd);
    assert Held(k.s.pcb[q], q, k.w, k.owner, k.live, kernelPd);
    assert k.s.pcb[p].stackHi / 4096 != k.s.pcb[q].stackHi / 4096;
  }

  lemma BlocksDiffer(bs: seq<Block>, p: Ptr, q: Ptr, x: Context.Place, y: Context.Place)
    requires Ordered(bs) && p in LiveSizes(bs) && q in LiveSizes(bs) && p != q
    requires LiveSizes(bs)[p] >= PCB_BYTES && LiveSizes(bs)[q] >= PCB_BYTES && x.pcb == p && y.pcb == q
    ensures Context.BlocksApart(x, y)
  {
    hide LiveSizes;
    var i := BlockOf(bs, p);
    var j := BlockOf(bs, q);
    assert i < j ==> End(bs[i]) <= bs[j].addr;
    assert j < i ==> End(bs[j]) <= bs[i].addr;
  }

  /** A stack frame is no frame of the heap. */
  lemma ByteIsOffStack(bs: seq<Block>, w: World, a: nat, q: Ptr, part: nat, y: Context.Place)
    requires Arena(bs, w) && Covered(bs, a)
    requires y.lo >= 0 && y.lo % 4096 == 0 && y.hi == y.lo + 4096 && HasRole(w, y.lo / 4096, Reserved(q, part))
    ensures !(y.lo <= a < y.hi)
  {
    assert HasRole(w, a / 4096, HeapFrame);
  }

  lemma BlockIsOffStack(bs: seq<Block>, w: World, p: Ptr, q: Ptr, part: nat, x: Context.Place, y: Context.Place)
    requires Arena(bs, w) && p in LiveSizes(bs) && LiveSizes(bs)[p] >= PCB_BYTES && x.pcb == p
    requires y.lo >= 0 && y.lo % 4096 == 0 && y.hi == y.lo + 4096 && HasRole(w, y.lo / 4096, Reserved(q, part))
    ensures Context.BlockOffStack(x, y)
  {
    hide LiveSizes; hide Arena;
    var i := BlockOf(bs, p);
    assert Contains(bs[i], p);
    ByteIsOffStack(bs, w, p, q, part, y);
    if p < y.lo < p + Context.PCB_HEAD {
      assert Contains(bs[i], y.lo);
      ByteIsOffStack(bs, w, y.lo, q, part, y);
    }
  }

  /** Control blocks and stacks of all processes but idle are apart from each other. */
  lemma PlacesApart(k: KState, kernelPd: nat, bs: seq<Block>)
    requires KInv(k, kernelPd) && Ordered(bs) && k.live == LiveSizes(bs) && Arena(bs, k.w)
    ensures Context.Apart(PlacesOf(k.s))
  {
    hide Inv; hide WorldOk; hide Arena; hide LiveSizes; hide Ordered; hide Context.StacksApart;
    hide Context.BlocksApart;
    hide Context.BlockOffStack;
    var ps := PlacesOf(k.s);
    forall p | p in ps ensures Held(k.s.pcb[p], p, k.w, k.owner, k.live, kernelPd) {}
    forall p, q | p in ps && q in ps && p != q
      ensures Context.StacksApart(ps[p], ps[q]) && Context.BlocksApart(ps[p], ps[q])
    {
      StackFramesDiffer(k, kernelPd, p, q);
      BlocksDiffer(bs, p, q, ps[p], ps[q]);
    }
    forall p, q | p in ps && q in ps ensures Context.BlockOffStack(ps[p], ps[q]) {
      BlockIsOffStack(bs, k.w, p, q, 1, ps[p], ps[q]);
    }
  }

  /** In every state a kernel reaches. */
  lemma KernelPlacesApart(k: Kernel)
    requires k.Valid()
    ensures Context.Apart(PlacesOf(k.S()))
  {
    hide Inv; hide AllHeld; hide Arena; hide LiveSizes; hide Context.Apart; hide KInv;
    k.InOrder();
    BlocksTile(k.heap);
    PlacesApart(k.K(), k.vm.kernelPd, k.heap.blocks);
  }

  lemma PlacesKept(s: Sched, t: Sched, gone: set<Ptr>)
    requires KeepsHoldings(s.pcb - gone, t.pcb) && t.idle == s.idle
    ensures PlacesOf(t) == PlacesOf(s) - gone
  {
    forall p | p in t.pcb ensures p in s.pcb - gone && t.pcb[p].stackHi == s.pcb[p].stackHi {}
  }

  lemma SamePlaces(s: Sched, t: Sched)
    requires KeepsHoldings(s.pcb, t.pcb) && t.idle == s.idle
    ensures PlacesOf(t) == PlacesOf(s)
  {
    assert s.pcb - {} == s.pcb;
    PlacesKept(s, t, {});
    assert PlacesOf(s) - {} == PlacesOf(s);
  }

  lemma PlaceAdded(k: KState, st: KStep, k': KState, kernelPd: nat, p: Ptr, b: Pcb, w1: World)
    requires KInv(k, kernelPd) && Takes(k, st, k', kernelPd) && Makes(st, p, b, w1)
    ensures p !in PlacesOf(k.s) && PlacesOf(k'.s) == PlacesOf(k.s)[p := PlaceOf(p, b)]
    ensures b.esp == PlaceOf(p, b).hi - 40
  {
    hide KInv; hide Inv; hide GrewBySteps; hide WithProcess; hide Takes;
    MadeIs(k, st, k', kernelPd, p, b, w1);
    MakesOne(k, st, k', kernelPd, p, b, w1);
  }

  /**
   Creation adds the place of the new process, ready for its first switch, as
   `Spawn` does; reaping removes the places of the reaped, as `Reap` does; no
   other step moves any.
   */
  lemma StepMovesPlaces(k: KState, st: KStep, k': KState, kernelPd: nat)
    requires KInv(k, kernelPd) && Takes(k, st, k', kernelPd)
    ensures match st
            case Launched(p, b, _, _) =>
              && p !in PlacesOf(k.s) && PlacesOf(k'.s) == PlacesOf(k.s)[p := PlaceOf(p, b)]
              && b.esp == PlaceOf(p, b).hi - 40
            case Doomed(p, b, _) =>
              p !in PlacesOf(k.s) && PlacesOf(k'.s) == PlacesOf(k.s)[p := PlaceOf(p, b)]
            case Ticked => PlacesOf(k'.s) == PlacesOf(k.s) - Reaped(k.s)
            case _ => PlacesOf(k'.s) == PlacesOf(k.s)
  {
    hide Inv; hide KInv; hide WithoutAll; hide Filled; hide Apply; hide Reaped; hide PlacesOf;
    InOrder(k, kernelPd);
    match st
    case Launched(p, b, c, w1) => PlaceAdded(k, st, k', kernelPd, p, b, w1);
    case Doomed(p, b, w1) => PlaceAdded(k, st, k', kernelPd, p, b, w1);
    case Ticked =>
      TickHoldings(k.s);
      PlacesKept(k.s, k'.s, Reaped(k.s));
    case Yielded =>
      YieldHoldings(k.s);
      SamePlaces(k.s, k'.s);
    case Exited(code) =>
      ExitHoldings(k.s, code);
      SamePlaces(k.s, k'.s);
    case Refused => SamePlaces(k.s, k'.s);
  }
}
