/**
 The bitmap allocator of physical frames (kernel/pmm.c).
 A bitmap word is its 32 bits; bit set means the frame is in use.
 */
module FrameAllocator {
  import opened Machine

  const WORD_BITS: nat := 32
  const BITMAP_WORDS: nat := 1024        // MAX_FRAMES / 32
  const MB2_MEMORY_AVAILABLE: nat := 1

  type Bits = b: seq<bool> | |b| == WORD_BITS ghost witness seq<bool>(WORD_BITS, _ => true)
  type U64 = x: int | 0 <= x < 0x1_0000_0000_0000_0000

  /** One entry of the Multiboot2 memory map. */
  datatype Region = Region(base: U64, length: U64, memType: Word)

  datatype Tag = MemoryMapTag(entries: seq<Region>) | OtherTag

  // ---------------------------------------------------------------- sets of frames

  /** The smallest member of a set of frames. */
  ghost function Least(s: set<nat>): (m: nat)
    requires s != {}
    ensures m in s
    ensures forall x :: x in s ==> m <= x
  {
    var x :| x in s;
    if s - {x} == {} then
      assert s == {x};
      x
    else
      assert forall z :: z in s ==> z == x || z in s - {x};
      var y := Least(s - {x});
      if x < y then x else y
  }

  /** The frames lo, ..., hi - 1. */
  ghost function Span(lo: nat, hi: nat): (s: set<nat>)
    ensures forall f: nat :: f in s <==> lo <= f < hi
    ensures |s| == if lo < hi then hi - lo else 0
  {
    if lo >= hi then {} else Span(lo, hi - 1) + {hi - 1}
  }

  /** One more frame at the end of a span. */
  lemma SpanStep(lo: nat, f: nat)
    requires lo <= f
    ensures Span(lo, f + 1) == Span(lo, f) + {f} && Span(lo, lo) == {}
  {
  }

  lemma SpanStart(s: set<nat>, lo: nat)
    ensures s == s + Span(lo, lo)
  {
  }

  lemma SpanGrows(s: set<nat>, lo: nat, f: nat)
    requires lo <= f
    ensures s + Span(lo, f) + {f} == s + Span(lo, f + 1)
  {
    SpanStep(lo, f);
  }

  lemma SpanEnd(lo: nat, f: nat, hi: nat)
    requires lo <= f && (if lo < hi then f == hi else f == lo)
    ensures Span(lo, f) == Span(lo, hi) && |Span(lo, hi)| == f - lo
  {
  }

  lemma SizeWithout(s: set<nat>, x: nat)
    ensures |s - {x}| == |s| - (if x in s then 1 else 0)
  {
    if x in s {
      assert s == (s - {x}) + {x};
    } else {
      assert s - {x} == s;
    }
  }

  ghost predicate Tracked(s: set<nat>) {
    forall f :: f in s ==> f < MAX_FRAMES
  }

  ghost function Below(n: nat): set<nat> {
    Span(0, n)
  }

  /** First frame of a region, as the code computes it: rounded up, 64-bit sum, truncated to 32 bits. */
  function RegionStart(e: Region): Word {
    ((e.base + 4095) % 0x1_0000_0000_0000_0000 / 4096) % 0x1_0000_0000
  }

  function RegionEnd(e: Region): Word {
    ((e.base + e.length) % 0x1_0000_0000_0000_0000 / 4096) % 0x1_0000_0000
  }

  function Capped(f: nat): nat { if f < MAX_FRAMES then f else MAX_FRAMES }

  /** The frames one memory-map entry releases. */
  ghost function Listed(e: Region): set<nat> {
    if e.memType == MB2_MEMORY_AVAILABLE then
      Span(RegionStart(e), Capped(RegionEnd(e)))
    else {}
  }

  ghost function AllListed(rs: seq<Region>): seq<set<nat>> {
    seq(|rs|, i requires 0 <= i < |rs| => Listed(rs[i]))
  }

  /** Every frame some entry releases. */
  ghost function Union(ls: seq<set<nat>>): set<nat> {
    if ls == [] then {} else Union(ls[..|ls| - 1]) + ls[|ls| - 1]
  }

  /** How many releases happen; a frame listed twice is counted twice. */
  ghost function Releases(ls: seq<set<nat>>): nat {
    if ls == [] then 0 else Releases(ls[..|ls| - 1]) + |ls[|ls| - 1]|
  }

  ghost predicate Disjoint(ls: seq<set<nat>>) {
    forall i, j :: 0 <= i < j < |ls| ==> ls[i] !! ls[j]
  }

  ghost function Regions(tags: seq<Tag>): seq<Region> {
    if tags == [] then []
    else Regions(tags[..|tags| - 1]) + Entries(tags[|tags| - 1])
  }

  function Entries(t: Tag): seq<Region> {
    if t.MemoryMapTag? then t.entries else []
  }

  /** An entry releases exactly the whole frames inside it, as long as it ends below 2^44 - 4095. */
  lemma ListedIsWholeFrames(e: Region, f: nat)
    requires e.base + e.length + 4095 < 0x1000_0000_0000
    ensures f in Listed(e) <==>
            e.memType == 1 && f < 32768 &&
            e.base <= f * 4096 && (f + 1) * 4096 <= e.base + e.length
  {
    hide RegionStart; hide RegionEnd; hide Span;
    RegionBounds(e);
    FloorAndCeiling(e.base, f);
    FloorAndCeiling(e.base + e.length, f);
  }

  lemma RegionBounds(e: Region)
    requires e.base + e.length + 4095 < 0x1000_0000_0000
    ensures RegionStart(e) == (e.base + 4095) / 4096 && RegionEnd(e) == (e.base + e.length) / 4096
  {
    NoWrap(e.base + 4095);
    NoWrap(e.base + e.length);
  }

  lemma NoWrap(x: nat)
    requires x < 0x1000_0000_0000
    ensures (x % 0x1_0000_0000_0000_0000 / 4096) % 0x1_0000_0000 == x / 4096
  {
    assert x / 4096 < 0x1_0000_0000;
  }

  lemma FloorAndCeiling(x: nat, f: nat)
    ensures (x + 4095) / 4096 <= f <==> x <= f * 4096
    ensures f < x / 4096 <==> (f + 1) * 4096 <= x
  {
  }

  lemma {:induction false} UnionMember(ls: seq<set<nat>>, f: nat)
    ensures f in Union(ls) <==> exists i :: 0 <= i < |ls| && f in ls[i]
  {
    if ls != [] {
      var n := |ls| - 1;
      UnionMember(ls[..n], f);
      assert forall i :: 0 <= i < n ==> ls[..n][i] == ls[i];
    }
  }

  lemma {:induction false} RegionsMember(tags: seq<Tag>, e: Region)
    ensures e in Regions(tags) <==> exists i :: 0 <= i < |tags| && tags[i].MemoryMapTag? && e in tags[i].entries
  {
    if tags != [] {
      var n := |tags| - 1;
      RegionsMember(tags[..n], e);
      assert forall i :: 0 <= i < n ==> tags[..n][i] == tags[i];
    }
  }

  /** What the firmware says of a frame: some memory map lists it, whole, as available. */
  ghost predicate Offered(tags: seq<Tag>, f: nat) {
    exists i, e :: 0 <= i < |tags| && tags[i].MemoryMapTag? && e in tags[i].entries && Holds(e, f)
  }

  predicate Holds(e: Region, f: nat) {
    e.memType == 1 && f < 32768 && e.base <= f * 4096 && (f + 1) * 4096 <= e.base + e.length
  }

  /** A frame is released exactly when some memory map lists it, whole, as available. */
  lemma ReleasedIffOffered(tags: seq<Tag>, f: nat)
    requires forall e :: e in Regions(tags) ==> e.base + e.length + 4095 < 0x1000_0000_0000
    ensures f in Union(AllListed(Regions(tags))) <==> Offered(tags, f)
  {
    hide Listed; hide Union; hide Regions;
    var rs := Regions(tags);
    UnionMember(AllListed(rs), f);
    forall e | e in rs ensures f in Listed(e) <==> Holds(e, f) { ListedIsWholeFrames(e, f); }
    forall e ensures e in rs <==> exists i :: 0 <= i < |tags| && tags[i].MemoryMapTag? && e in tags[i].entries {
      RegionsMember(tags, e);
    }
    if f in Union(AllListed(rs)) {
      var j :| 0 <= j < |rs| && f in AllListed(rs)[j];
      assert rs[j] in rs && f in Listed(rs[j]);
    }
    if Offered(tags, f) {
      var i, e :| 0 <= i < |tags| && tags[i].MemoryMapTag? && e in tags[i].entries && Holds(e, f);
      assert e in rs;
      var j :| 0 <= j < |rs| && rs[j] == e;
      assert f in AllListed(rs)[j];
    }
  }

  lemma {:induction false} DisjointUnionSize(ls: seq<set<nat>>)
    requires Disjoint(ls)
    ensures |Union(ls)| == Releases(ls)
  {
    if ls != [] {
      var n := |ls| - 1;
      DisjointUnionSize(ls[..n]);
      forall f | f in Union(ls[..n]) ensures f !in ls[n] {
        UnionMember(ls[..n], f);
      }
      assert Union(ls[..n]) !! ls[n];
    }
  }

  lemma {:induction false} UnionSize(ls: seq<set<nat>>)
    ensures |Union(ls)| <= Releases(ls)
  {
    if ls != [] {
      UnionSize(ls[..|ls| - 1]);
    }
  }

  lemma AllListedAppend(rs: seq<Region>, e: Region)
    ensures Union(AllListed(rs + [e])) == Union(AllListed(rs)) + Listed(e)
    ensures Releases(AllListed(rs + [e])) == Releases(AllListed(rs)) + |Listed(e)|
  {
    hide Listed;
    assert AllListed(rs + [e])[..|rs|] == AllListed(rs);
  }

  // ---------------------------------------------------------------- the allocator as a value

  /** What clients see: the set of free frames and the counter kept beside it. */
  datatype Frames = Frames(clear: set<nat>, count: nat)

  datatype FrameOp = Alloc | Free(addr: Word)

  /** 0 is the failure value; it is also what a free frame 0 would be issued as. */
  ghost function AllocResult(s: Frames): Word
    requires Tracked(s.clear)
  {
    if s.count == 0 || s.clear == {} then 0
    else
      assert Least(s.clear) < MAX_FRAMES;
      Least(s.clear) * 4096
  }

  ghost function StepFrames(s: Frames, op: FrameOp): (t: Frames)
    requires Tracked(s.clear)
    ensures Tracked(t.clear)
  {
    match op
    case Alloc =>
      if s.count == 0 || s.clear == {} then s
      else Frames(s.clear - {Least(s.clear)}, s.count - 1)
    case Free(a) =>
      var f := a / 4096;
      if f >= MAX_FRAMES || f in s.clear then s
      else Frames(s.clear + {f}, s.count + 1)
  }

  ghost function RunFrames(s: Frames, ops: seq<FrameOp>): (t: Frames)
    requires Tracked(s.clear)
    ensures Tracked(t.clear)
  {
    if ops == [] then s else StepFrames(RunFrames(s, ops[..|ops| - 1]), ops[|ops| - 1])
  }

  /** Frames issued during the run and not freed since. */
  ghost function Outstanding(s: Frames, ops: seq<FrameOp>): set<nat>
    requires Tracked(s.clear)
  {
    if ops == [] then {}
    else
      var n := |ops| - 1;
      StepOutstanding(RunFrames(s, ops[..n]), Outstanding(s, ops[..n]), ops[n])
  }

  ghost function StepOutstanding(s: Frames, out: set<nat>, op: FrameOp): set<nat>
    requires Tracked(s.clear)
  {
    match op
    case Alloc => if s.count == 0 || s.clear == {} then out else out + {AllocResult(s) / 4096}
    case Free(a) => out - {a / 4096}
  }

  lemma StepKeepsOutstandingUsed(s: Frames, out: set<nat>, op: FrameOp)
    requires Tracked(s.clear) && out !! s.clear
    ensures StepOutstanding(s, out, op) !! StepFrames(s, op).clear
  {
    if op.Alloc? && s.count != 0 && s.clear != {} {
      assert AllocResult(s) / 4096 == Least(s.clear);
    }
  }

  /** The gap between the counter and the number of clear bits never changes. */
  lemma StepKeepsSlack(s: Frames, op: FrameOp)
    requires Tracked(s.clear)
    ensures var t := StepFrames(s, op);
            t.count - |t.clear| == s.count - |s.clear|
  {
    match op
    case Alloc =>
      if s.count != 0 && s.clear != {} {
        var f := Least(s.clear);
        assert s.clear == (s.clear - {f}) + {f};
      }
    case Free(a) =>
  }

  /** An allocation gives the lowest free frame and takes just that one. */
  lemma AllocLaw(s: Frames, f: nat)
    requires Tracked(s.clear) && s.count > 0 && f in s.clear && forall g :: g in s.clear ==> f <= g
    ensures AllocResult(s) == f * 4096 && StepFrames(s, Alloc) == Frames(s.clear - {f}, s.count - 1)
  {
    assert Least(s.clear) == f;
  }

  /** A failing allocation means no free frame, once the counter is not below the number of them. */
  lemma AllocFailsIffNoneFree(s: Frames)
    requires Tracked(s.clear) && s.count >= |s.clear| && 0 !in s.clear
    ensures AllocResult(s) == 0 <==> s.clear == {}
  {
    if s.clear != {} {
      assert Least(s.clear) in s.clear;
      assert |s.clear| > 0;
    }
  }

  /**
   Over every run of allocations and frees: the slack is constant, outstanding
   frames are never free (so never issued again), and as long as the counter
   did not start below the number of free frames and frame 0 is not free,
   an allocation fails exactly when no frame is free.
   */
  lemma {:induction false} FrameRun(s: Frames, ops: seq<FrameOp>)
    requires Tracked(s.clear)
    ensures var t := RunFrames(s, ops);
            && t.count - |t.clear| == s.count - |s.clear|
            && Outstanding(s, ops) !! t.clear
            && (s.count >= |s.clear| && 0 !in t.clear ==> (AllocResult(t) == 0 <==> t.clear == {}))
  {
    var t := RunFrames(s, ops);
    if ops != [] {
      var n := |ops| - 1;
      FrameRun(s, ops[..n]);
      StepKeepsSlack(RunFrames(s, ops[..n]), ops[n]);
      StepKeepsOutstandingUsed(RunFrames(s, ops[..n]), Outstanding(s, ops[..n]), ops[n]);
    }
    if s.count >= |s.clear| && 0 !in t.clear {
      AllocFailsIffNoneFree(t);
    }
  }

  // ---------------------------------------------------------------- the allocator as the code runs it

  class Pmm {
    const bitmap: array<Bits>
    var freeFrames: nat
    var totalFrames: nat

    ghost var clear: set<nat>            // the frames whose bit is clear

    ghost predicate Valid()
      reads this, bitmap
    {
      && bitmap.Length == BITMAP_WORDS
      && Tracked(clear)
      && forall f: nat {:trigger Used(f)} :: f < MAX_FRAMES ==> (f in clear <==> !Used(f))
    }

    /** The static bitmap and counters, before `pmm_init` fills them. */
    constructor ()
      ensures bitmap.Length == BITMAP_WORDS && fresh(bitmap)
      ensures freeFrames == 0 && totalFrames == 0
    {
      bitmap := new Bits[BITMAP_WORDS](_ => seq<bool>(WORD_BITS, _ => false));
      freeFrames, totalFrames := 0, 0;
    }

    /** frame_test */
    predicate Used(f: nat)
      requires f < MAX_FRAMES && bitmap.Length == BITMAP_WORDS
      reads bitmap
    {
      bitmap[f / 32][f % 32]
    }

    ghost function Contents(): Frames
      reads this
    {
      Frames(clear, freeFrames)
    }

    /** How far the counter is above the number of clear bits. */
    ghost function Slack(): int
      reads this
    {
      freeFrames - |clear|
    }

    /** frame_set */
    method SetFrame(f: nat)
      requires Valid() && f < MAX_FRAMES
      modifies this`clear, bitmap
      ensures Valid() && clear == old(clear) - {f}
    {
      bitmap[f / 32] := bitmap[f / 32][f % 32 := true];
      clear := clear - {f};
      assert forall g: nat :: g < MAX_FRAMES && g != f ==> Used(g) == old(Used(g));
    }

    /** frame_clear */
    method ClearFrame(f: nat)
      requires Valid() && f < MAX_FRAMES
      modifies this`clear, bitmap
      ensures Valid() && clear == old(clear) + {f}
    {
      bitmap[f / 32] := bitmap[f / 32][f % 32 := false];
      clear := clear + {f};
      assert forall g: nat :: g < MAX_FRAMES && g != f ==> Used(g) == old(Used(g));
    }

    method AllocFrame() returns (phys: Word)
      requires Valid()
      modifies this`freeFrames, this`clear, bitmap
      ensures Valid()
      ensures Tracked(old(clear))
      ensures phys == AllocResult(old(Contents()))
      ensures Contents() == StepFrames(old(Contents()), Alloc)
      ensures Slack() == old(Slack())
      ensures old(Slack() >= 0 && 0 !in clear) ==>
                && (phys == 0 <==> old(clear) == {})
                && (phys == 0 ==> clear == old(clear))
                && (phys != 0 ==> phys % 4096 == 0 && phys / 4096 in old(clear) && clear == old(clear) - {phys / 4096})
    {
      StepKeepsSlack(Contents(), Alloc);
      if Slack() >= 0 && 0 !in clear { AllocFailsIffNoneFree(Contents()); }
      ghost var was := clear;
      if freeFrames == 0 { return 0; }
      for i := 0 to BITMAP_WORDS
        invariant Valid() && clear == was && freeFrames == old(freeFrames)
        invariant forall g: nat :: g < i * 32 ==> Used(g)
      {
        if forall k :: 0 <= k < WORD_BITS ==> bitmap[i][k] {
          assert forall g: nat :: i * 32 <= g < (i + 1) * 32 ==> g / 32 == i && Used(g);
          continue;
        }
        for bit := 0 to WORD_BITS
          invariant Valid() && clear == was && freeFrames == old(freeFrames)
          invariant forall g: nat :: g < i * 32 + bit ==> Used(g)
        {
          var frame := i * 32 + bit;
          if !Used(frame) {
            forall g: nat | g < frame ensures g !in was { assert Used(g); }
            assert frame == Least(was);
            SetFrame(frame);
            freeFrames := freeFrames - 1;
            return frame * 4096;
          }
        }
      }
      assert was == {} by {
        forall g: nat | g < MAX_FRAMES ensures g !in was { assert Used(g); }
      }
      return 0;
    }

    method FreeFrame(phys: Word)
      requires Valid()
      modifies this`freeFrames, this`clear, bitmap
      ensures Valid()
      ensures Tracked(old(clear))
      ensures Contents() == StepFrames(old(Contents()), Free(phys))
      ensures Slack() == old(Slack())
      ensures clear == old(clear) + (if phys / 4096 < MAX_FRAMES then {phys / 4096} else {})
    {
      StepKeepsSlack(Contents(), Free(phys));
      var frame := phys / 4096;
      if frame >= MAX_FRAMES { return; }
      if !Used(frame) { return; }
      ClearFrame(frame);
      freeFrames := freeFrames + 1;
    }

    method ReleaseOne(f: nat)
      requires Valid() && f < MAX_FRAMES
      modifies this, bitmap
      ensures Valid() && clear == old(clear) + {f}
      ensures freeFrames == old(freeFrames) + 1 && totalFrames == old(totalFrames) + 1
    {
      ClearFrame(f);
      freeFrames := freeFrames + 1;
      totalFrames := totalFrames + 1;
    }

    /** The innermost loop of `pmm_init`: releases one region frame by frame. */
    method ReleaseSpan(start: nat, end: nat)
      requires Valid()
      modifies this, bitmap
      ensures Valid()
      ensures var freed := Span(start, Capped(end));
              && clear == old(clear) + freed
              && freeFrames == old(freeFrames) + |freed|
              && totalFrames == old(totalFrames) + |freed|
    {
      hide Span; hide Pmm.Valid;
      SpanStart(clear, start);
      var f := start;
      while f < end && f < MAX_FRAMES
        invariant start <= f && (f <= Capped(end) || f == start)
        invariant Valid()
        invariant clear == old(clear) + Span(start, f)
        invariant freeFrames == old(freeFrames) + f - start
        invariant totalFrames == old(totalFrames) + f - start
      {
        ReleaseOne(f);
        SpanGrows(old(clear), start, f);
        f := f + 1;
      }
      SpanEnd(start, f, Capped(end));
    }

    /**
     After initialisation the free frames are exactly the available ones minus
     frame 0, the kernel's frames and the boot-information frame. The counter
     exceeds their number by the double listings, plus one when frame 0 was
     listed: marking frame 0 used does not decrement it.
     */
    method Init(tags: seq<Tag>, kernelEnd: Word, mbootPtr: Word)
      requires bitmap.Length == BITMAP_WORDS && freeFrames == 0 && totalFrames == 0
      requires kernelEnd + 4095 < WORD_LIMIT
      modifies this, bitmap
      ensures Valid()
      ensures var listed := AllListed(Regions(tags));
              var avail := Union(listed);
              && clear == avail - Below((kernelEnd + 4095) / 4096 + 1) - {mbootPtr / 4096}
              && freeFrames - |clear|
                 == Releases(listed) - |avail| + (if 0 in avail then 1 else 0)
    {
      MarkAllUsed();
      ReleaseAvailable(tags);
      ghost var listed := AllListed(Regions(tags));
      UnionSize(listed);
      MarkReserved((kernelEnd + 4095) / 4096, mbootPtr / 4096);
    }

    /** Step 2 of `pmm_init`: the walk over the tags and their memory-map entries. */
    method ReleaseAvailable(tags: seq<Tag>)
      requires Valid() && clear == {} && freeFrames == 0
      modifies this, bitmap
      ensures Valid()
      ensures clear == Union(AllListed(Regions(tags)))
      ensures freeFrames == Releases(AllListed(Regions(tags)))
    {
      for t := 0 to |tags|
        invariant Valid()
        invariant clear == Union(AllListed(Regions(tags[..t])))
        invariant freeFrames == Releases(AllListed(Regions(tags[..t])))
      {
        assert tags[..t + 1][..t] == tags[..t];
        if tags[t].MemoryMapTag? {
          ReleaseEntries(tags[t].entries, Regions(tags[..t]));
        } else {
          assert Regions(tags[..t]) + [] == Regions(tags[..t]);
        }
      }
      assert tags[..|tags|] == tags;
    }

    method ReleaseEntries(entries: seq<Region>, ghost done: seq<Region>)
      requires Valid() && clear == Union(AllListed(done)) && freeFrames == Releases(AllListed(done))
      modifies this, bitmap
      ensures Valid()
      ensures clear == Union(AllListed(done + entries)) && freeFrames == Releases(AllListed(done + entries))
    {
      hide *;
      assert done + entries[..0] == done;
      for k := 0 to |entries|
        invariant Valid()
        invariant clear == Union(AllListed(done + entries[..k]))
        invariant freeFrames == Releases(AllListed(done + entries[..k]))
      {
        ReleaseRegion(entries[k]);
        AllListedAppend(done + entries[..k], entries[k]);
        assert done + entries[..k + 1] == done + entries[..k] + [entries[k]];
      }
      assert entries[..|entries|] == entries;
    }

    method ReleaseRegion(e: Region)
      requires Valid()
      modifies this, bitmap
      ensures Valid()
      ensures clear == old(clear) + Listed(e)
      ensures freeFrames == old(freeFrames) + |Listed(e)|
    {
      if e.memType == MB2_MEMORY_AVAILABLE {
        ReleaseSpan(RegionStart(e), RegionEnd(e));
      }
    }

    /** Step 1 of `pmm_init`: every frame starts as used. */
    method MarkAllUsed()
      requires bitmap.Length == BITMAP_WORDS
      modifies this`clear, bitmap
      ensures Valid() && clear == {}
    {
      for i := 0 to BITMAP_WORDS
        invariant forall g: nat :: g < i * 32 ==> Used(g)
      {
        bitmap[i] := seq<bool>(WORD_BITS, _ => true);
      }
      clear := {};
    }

    /** Steps 3 to 5 of `pmm_init`: frame 0, the kernel image and the boot information. */
    method MarkReserved(lastKernel: nat, info: nat)
      requires Valid() && freeFrames >= |clear|
      modifies this`freeFrames, this`clear, bitmap
      ensures Valid()
      ensures clear == old(clear) - Below(lastKernel + 1) - {info}
      ensures freeFrames - |clear| == old(freeFrames - |clear|) + (if 0 in old(clear) then 1 else 0)
    {
      hide Span;
      SetFrame(0);
      SizeWithout(old(clear), 0);
      ReserveBelow(lastKernel);
      assert clear == old(clear) - Below(lastKernel + 1);
      if info < MAX_FRAMES {
        Reserve(info);
      }
    }

    /** Step 4: the frames the kernel occupies. */
    method ReserveBelow(last: nat)
      requires Valid() && freeFrames >= |clear|
      modifies this`freeFrames, this`clear, bitmap
      ensures Valid() && freeFrames >= |clear|
      ensures clear == old(clear) - Below(last + 1)
      ensures freeFrames - |clear| == old(freeFrames - |clear|)
    {
      hide Pmm.Valid; hide Span;
      ghost var was := clear;
      KnownFrames();
      var f := 0;
      while f <= last && f < MAX_FRAMES
        invariant Valid() && f <= last + 1 && f <= MAX_FRAMES
        invariant clear == was - Below(f)
        invariant freeFrames - |clear| == old(freeFrames - |clear|)
      {
        SpanStep(0, f);
        Reserve(f);
        f := f + 1;
      }
    }

    lemma KnownFrames()
      requires Valid()
      ensures Tracked(clear) && Below(0) == {}
    {
    }

    /** Marks a frame used unless it already is, keeping the counter in step. */
    method Reserve(f: nat)
      requires Valid() && f < MAX_FRAMES && freeFrames >= |clear|
      modifies this`freeFrames, this`clear, bitmap
      ensures Valid()
      ensures clear == old(clear) - {f}
      ensures freeFrames - |clear| == old(freeFrames - |clear|)
    {
      if !Used(f) {
        SizeWithout(clear, f);
        assert clear != {};
        SetFrame(f);
        freeFrames := freeFrames - 1;
      }
    }
  }

  /** With non-overlapping regions the counter starts exact, or one too high when frame 0 is listed. */
  lemma InitialSlack(rs: seq<Region>)
    requires Disjoint(AllListed(rs))
    ensures Releases(AllListed(rs)) - |Union(AllListed(rs))| + (if 0 in Union(AllListed(rs)) then 1 else 0)
            == (if exists i :: 0 <= i < |rs| && 0 in Listed(rs[i]) then 1 else 0)
  {
    var ls := AllListed(rs);
    DisjointUnionSize(ls);
    UnionMember(ls, 0);
    assert forall i :: 0 <= i < |rs| ==> ls[i] == Listed(rs[i]);
  }
}
