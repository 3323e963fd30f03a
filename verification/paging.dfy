/**
 Paging as the kernel runs it (kernel/paging.c): directories and tables are
 written in place in physical memory, frames come from the bitmap allocator.
 */
module Paging {
  import opened Machine
  import opened FrameAllocator
  import opened AddressSpace
  import opened CloneSpec
  import opened CloneCount

  class Vm {
    const pmm: Pmm
    const kernelPd: nat                  // frame of the static kernel_pd
    const identity: nat                  // frame of identity_pts[0]
    var mem: Memory

    ghost var role: map<nat, Role>
    ghost var dirs: set<nat>

    ghost function W(): World
      reads this, pmm
    {
      World(mem, pmm.clear, role, dirs, identity)
    }

    /** Enough for `paging_map_into`: allocator and tables are in order. */
    ghost predicate Structured()
      reads this, pmm, pmm.bitmap
    {
      && pmm.Valid() && pmm.Slack() >= 0
      && TablesOk(W())
      && kernelPd in dirs && kernelPd < PHYS_FRAMES
    }

    /** In addition every page above the shared window has one owner. */
    ghost predicate Valid()
      reads this, pmm, pmm.bitmap
    {
      Structured() && WorldOk(W())
    }

    /** The static tables before `paging_init`; they lie in frames that are not free. */
    ghost predicate Unbooted()
      reads this, pmm, pmm.bitmap
    {
      && pmm.Valid() && pmm.Slack() >= 0 && Tracked(pmm.clear) && 0 !in pmm.clear
      && 0 < kernelPd < MAX_FRAMES && kernelPd !in pmm.clear
      && 0 < identity && identity + IDENTITY_TABLES <= MAX_FRAMES
      && (forall f :: f in IdentityFrames(identity) ==> f !in pmm.clear && f != kernelPd)
      && mem[kernelPd] == ZeroPage()
    }

    constructor (pmm: Pmm, kernelPd: nat, identity: nat, initial: Memory)
      ensures this.pmm == pmm && this.kernelPd == kernelPd && this.identity == identity && mem == initial
    {
      this.pmm, this.kernelPd, this.identity, mem := pmm, kernelPd, identity, initial;
    }

    /** `paging_init`: afterwards the first 32 MB map to themselves and nothing else is mapped (`BootedWalk`). */
    method Init()
      requires Unbooted()
      modifies this
      ensures Valid()
      ensures BootTables(mem, kernelPd, identity)
      ensures W() == BootWorld(mem, pmm.clear, kernelPd, identity)
    {
      hide Entry; hide IdentityPage; hide Span; hide IdentityRoles; hide WorldOk; hide TablesOk; hide ZeroPage;
      hide Pmm.Slack; hide Pmm.Valid; hide BootTables; hide IdentityFrames; hide Tracked;
      FillStaticTables();
      role := BootWorld(mem, pmm.clear, kernelPd, identity).role;
      dirs := {kernelPd};
      BootedWorldOk(mem, pmm.clear, kernelPd, identity);
      WorldHasTables(W());
    }

    method FillStaticTables()
      requires 0 < kernelPd < MAX_FRAMES && 0 < identity && identity + IDENTITY_TABLES <= MAX_FRAMES
      requires kernelPd !in IdentityFrames(identity) && mem[kernelPd] == ZeroPage()
      modifies this`mem
      ensures BootTables(mem, kernelPd, identity)
    {
      hide Present; hide Entry; hide FrameOf; hide IdentityPage; hide Span;
      for t := 0 to IDENTITY_TABLES
        invariant forall u: nat :: u < t ==> Booted(mem, kernelPd, identity, u)
        invariant forall u: nat :: t <= u < ENTRIES ==> mem[kernelPd][u] == 0
      {
        ghost var before := mem;
        assert identity + t in IdentityFrames(identity);
        FillIdentityTable(t);
        mem := mem[kernelPd := mem[kernelPd][t := Entry(identity + t, 3)]];
        forall u: nat | u < t ensures Booted(mem, kernelPd, identity, u) {
          assert Booted(before, kernelPd, identity, u);
          assert identity + u in IdentityFrames(identity);
        }
      }
    }

    method FillIdentityTable(t: nat)
      requires t < IDENTITY_TABLES && identity + t < PHYS_FRAMES
      modifies this`mem
      ensures mem == old(mem)[identity + t := IdentityPage(t)]
    {
      hide Entry; hide IdentityEntry;
      var f := identity + t;
      for i := 0 to ENTRIES
        invariant mem == old(mem)[f := mem[f]]
        invariant forall k :: 0 <= k < i ==> mem[f][k] == IdentityPage(t)[k]
      {
        mem := mem[f := mem[f][i := IdentityEntry(t, i)]];
      }
      assert mem[f] == IdentityPage(t);
    }

    /** Returns the physical address of a new directory, or 0 when no frame is free. */
    method CreateUserPd() returns (pdPhys: Word)
      requires Valid()
      modifies this, pmm, pmm.bitmap
      ensures Valid() && pmm.Slack() == old(pmm.Slack())
      ensures pdPhys == 0 <==> old(pmm.clear) == {}
      ensures pdPhys == 0 ==> W() == old(W())
      ensures pdPhys != 0 ==>
                && pdPhys % 4096 == 0 && pdPhys / 4096 in old(pmm.clear)
                && W() == CreateWorld(old(W()), kernelPd, pdPhys / 4096)
    {
      hide TablesOk; hide WorldOk; hide NewDirectory; hide Pmm.Slack; hide Pmm.Valid; hide AllocResult; hide StepFrames;
      FrameFacts(W(), kernelPd);
      pdPhys := pmm.AllocFrame();
      if pdPhys == 0 { return; }
      var pd := pdPhys / 4096;
      FillDirectory(pd);
      role := role[pd := Directory];
      dirs := dirs + {pd};
      CreateKeepsWorld(old(W()), kernelPd, pd);
      WorldHasTables(W());
    }

    method FillDirectory(pd: nat)
      requires pd < PHYS_FRAMES && kernelPd < PHYS_FRAMES && pd != kernelPd
      modifies this`mem
      ensures mem == old(mem)[pd := NewDirectory(old(mem)[kernelPd])]
    {
      ghost var page := NewDirectory(mem[kernelPd]);
      for i := 0 to ENTRIES
        invariant mem == old(mem)[pd := mem[pd]]
        invariant forall k :: 0 <= k < i ==> mem[pd][k] == page[k]
      {
        mem := mem[pd := mem[pd][i := if i < IDENTITY_TABLES then mem[kernelPd][i] else 0]];
      }
      assert mem[pd] == page;
    }

    /** Maps one page into an arbitrary directory; `ok` is false when the kernel panics for want of a table. */
    method MapInto(pdPhys: Word, virt: Word, phys: Word, flags: nat) returns (ok: bool, ghost spare: nat)
      requires Structured() && pdPhys / 4096 in dirs && flags < 4096
      modifies this, pmm, pmm.bitmap
      ensures Structured() && pmm.Slack() == old(pmm.Slack())
      ensures ok <==> old(Present(mem[pdPhys / 4096][virt / 0x40_0000]) || pmm.clear != {})
      ensures !ok ==> W() == old(W())
      ensures ok ==>
        var pd, i, j := pdPhys / 4096, virt / 0x40_0000, virt / 4096 % 1024;
        && CanMap(old(W()), pd, i, j, spare)
        && W() == MapWorld(old(W()), pd, i, j, Entry(phys / 4096, flags), spare)
    {
      hide TablesOk; hide WorldOk; hide Pmm.Slack; hide Pmm.Valid; hide AllocResult; hide StepFrames;
      hide Present; hide User; hide FrameOf; hide FlagsOf; hide Entry; hide WithUser; hide TableFlags;
      spare := 0;
      var pd, i, j := pdPhys / 4096, virt / 0x40_0000, virt / 4096 % 1024;
      var entry := Entry(phys / 4096, flags);
      FrameFacts(W(), pd);
      if !Present(mem[pd][i]) {
        var ptPhys := pmm.AllocFrame();
        if ptPhys == 0 { return false, 0; }
        spare := ptPhys / 4096;
        ZeroFrame(ptPhys / 4096);
        mem := mem[pd := mem[pd][i := Entry(ptPhys / 4096, TableFlags(flags))]];
        role := role[spare := TableOf(pd, i)];
      } else if User(flags) {
        mem := mem[pd := mem[pd][i := WithUser(mem[pd][i])]];
      }
      var t := FrameOf(mem[pd][i]);
      mem := mem[t := mem[t][j := entry]];
      assert CanMap(old(W()), pd, i, j, spare);
      MapRefinesUpdate(old(W()), pd, i, j, entry, spare);
      ok := true;
    }

    method ZeroFrame(f: nat)
      requires f < PHYS_FRAMES
      modifies this`mem
      ensures mem == old(mem)[f := ZeroPage()]
    {
      for k := 0 to ENTRIES
        invariant mem == old(mem)[f := mem[f]]
        invariant forall n :: 0 <= n < k ==> mem[f][n] == 0
      {
        mem := mem[f := mem[f][k := 0]];
      }
      assert mem[f] == ZeroPage();
    }

    /** Frees a directory with the page tables and pages it owns; the shared slots are left alone. */
    method FreePd(pdPhys: Word)
      requires Valid()
      requires pdPhys != 0 ==> pdPhys / 4096 in dirs && pdPhys / 4096 != kernelPd
      modifies this, pmm, pmm.bitmap
      ensures Valid() && pmm.Slack() == old(pmm.Slack())
      ensures pdPhys / 4096 < PHYS_FRAMES
      ensures W() == if pdPhys == 0 then old(W()) else FreeWorld(old(W()), pdPhys / 4096)
    {
      hide TablesOk; hide WorldOk; hide Pmm.Slack; hide Pmm.Valid; hide AllocResult; hide StepFrames;
      hide Present; hide FrameOf; hide SlotLeaves; hide Owned;
      if pdPhys == 0 { return; }
      var pd := pdPhys / 4096;
      SlotTracked(W(), pd, IDENTITY_TABLES);
      for i := IDENTITY_TABLES to ENTRIES
        invariant W() == old(W()).(clear := old(pmm.clear) + OwnedBelow(mem, pd, i))
        invariant pmm.Valid() && pmm.Slack() == old(pmm.Slack())
      {
        if Present(mem[pd][i]) {
          SlotTracked(old(W()), pd, i);
          FreeTable(pd, i);
        }
      }
      pmm.FreeFrame(pdPhys);
      OwnedBelowAll(mem, pd);
      role := role - Owned(mem, pd);
      dirs := dirs - {pd};
      assert pmm.clear == old(pmm.clear) + Owned(mem, pd);
      FreeKeepsWorld(old(W()), pd);
      WorldHasTables(W());
    }

    /** The inner loop of `paging_free_pd`: the pages of one table, then the table. */
    method FreeTable(pd: nat, i: nat)
      requires pd < PHYS_FRAMES && i < ENTRIES && Present(mem[pd][i])
      requires pmm.Valid() && FrameOf(mem[pd][i]) < MAX_FRAMES
      requires forall j: nat :: j < ENTRIES && IsMapped(mem, pd, i, j) ==> FrameOf(Pte(mem, pd, i, j)) < MAX_FRAMES
      modifies pmm, pmm.bitmap
      ensures pmm.Valid() && pmm.Slack() == old(pmm.Slack())
      ensures pmm.clear == old(pmm.clear) + SlotLeaves(mem, pd, i, ENTRIES) + {FrameOf(mem[pd][i])}
    {
      hide Pmm.Slack; hide Pmm.Valid; hide AllocResult; hide StepFrames; hide Present;
      assert SlotLeaves(mem, pd, i, 0) == {};
      hide SlotLeaves;
      var pt := FrameOf(mem[pd][i]);
      for j := 0 to ENTRIES
        invariant pmm.Valid() && pmm.Slack() == old(pmm.Slack())
        invariant pmm.clear == old(pmm.clear) + SlotLeaves(mem, pd, i, j)
      {
        SlotLeavesStep(mem, pd, i, j);
        if Present(mem[pt][j]) {
          pmm.FreeFrame(FrameOf(mem[pt][j]) * 4096);
        }
      }
      pmm.FreeFrame(pt * 4096);
    }

    /** The byte-by-byte copy of one frame. */
    method CopyFrame(src: nat, dst: nat)
      requires src < PHYS_FRAMES && dst < PHYS_FRAMES && src != dst
      modifies this`mem
      ensures mem == old(mem)[dst := old(mem)[src]]
    {
      hide ByteAt; hide SetByte;
      for b := 0 to PAGE_SIZE
        invariant mem == old(mem)[dst := mem[dst]]
        invariant forall k: nat :: k < b ==> ByteAt(mem[dst], k) == ByteAt(mem[src], k)
      {
        mem := mem[dst := SetByte(mem[dst], b, ByteAt(mem[src], b))];
      }
      PageFromItsBytes(mem[dst], mem[src]);
    }

    /**
     Clones the parent's pages above the shared window. The number of free frames
     decides how it ends (`CloneEndsOneWay`): it succeeds with as many as the
     clone needs; one that runs out at a page gives 0, and then everything is as
     before; one that runs out at a table, inside `MapInto`, halts the kernel.
     */
    method CloneUserSpace(parentPhys: Word) returns (childPhys: Word, panicked: bool)
      requires Valid() && parentPhys / 4096 in dirs
      modifies this, pmm, pmm.bitmap
      ensures Valid() && pmm.Slack() == old(pmm.Slack())
      ensures panicked ==> childPhys == 0 && pmm.clear == {}
      ensures childPhys == 0 && !panicked ==>
                RolledBack(old(W()), W()) && pmm.freeFrames == old(pmm.freeFrames)
      ensures childPhys != 0 ==>
                && childPhys % 4096 == 0 && childPhys / 4096 in dirs
                && Cloned(old(W()), W(), parentPhys / 4096, childPhys / 4096)
      ensures parentPhys / 4096 < PHYS_FRAMES
      ensures CloneEnds(if childPhys != 0 then Copied else if panicked then Halted else NoFrame,
                        old(mem), parentPhys / 4096, |old(pmm.clear)|)
    {
      hide WorldOk; hide TablesOk; hide Walk; hide Present; hide FrameOf; hide OnlyFreshTouched; hide CreateWorld;
      hide Pmm.Valid; hide Cloning;
      panicked := false;
      childPhys := CreateUserPd();
      if childPhys == 0 { return; }
      var parent, child := parentPhys / 4096, childPhys / 4096;
      ghost var w0 := old(W());
      FrameFacts(w0, parent);
      CloneStart(w0, kernelPd, parent, child);
      NewHasNoTables(w0, kernelPd, child);
      for i := IDENTITY_TABLES to ENTRIES
        invariant Valid() && pmm.Slack() == old(pmm.Slack()) && child in dirs && child != kernelPd
        invariant Cloning(w0, W(), parent, child, i, 0) && NoEmptyTable(mem, child)
      {
        CloningKeepsParent(w0, W(), parent, child, i, 0, i);
        if !Present(mem[parent][i]) {
          SkipSlot(w0, W(), parent, child, i);
          continue;
        }
        var r := CloneSlot(w0, parent, childPhys, i);
        if r == Halted { return 0, true; }
        if r == NoFrame { return 0, false; }
        SkipSlot(w0, W(), parent, child, i);
      }
      CloneFinished(w0, W(), parent, child);
      FinishedClone(w0, W(), parent, child);
    }

    /** The inner loop of the clone: the pages of one table. */
    method CloneSlot(ghost w0: World, parent: nat, childPhys: Word, i: nat) returns (r: CopyResult)
      requires Valid() && childPhys / 4096 in dirs && childPhys != 0 && childPhys / 4096 != kernelPd
      requires Cloning(w0, W(), parent, childPhys / 4096, i, 0)
      requires parent < PHYS_FRAMES && NoEmptyTable(mem, childPhys / 4096)
      requires IDENTITY_TABLES <= i < ENTRIES && Present(w0.mem[parent][i])
      modifies this, pmm, pmm.bitmap
      ensures Valid() && pmm.Slack() == old(pmm.Slack())
      ensures r == Copied ==>
                && childPhys / 4096 in dirs && Cloning(w0, W(), parent, childPhys / 4096, i, ENTRIES)
                && NoEmptyTable(mem, childPhys / 4096)
      ensures r == Halted ==> pmm.clear == {}
      ensures r == NoFrame ==> RolledBack(w0, W())
      ensures r != Copied ==> CloneEnds(r, w0.mem, parent, |w0.clear|)
    {
      hide WorldOk; hide TablesOk; hide Walk; hide Present; hide FrameOf; hide OnlyFreshTouched; hide FreeWorld;
      hide Pmm.Valid; hide Cloning; hide Pmm.Slack; hide RolledBack;
      var child := childPhys / 4096;
      for j := 0 to ENTRIES
        invariant Valid() && pmm.Slack() == old(pmm.Slack()) && child in dirs
        invariant Cloning(w0, W(), parent, child, i, j) && NoEmptyTable(mem, child)
      {
        CloningKeepsParent(w0, W(), parent, child, i, j, i);
        if !Present(Pte(mem, parent, i, j)) {
          AbsentEntry(w0.mem, parent, i, j);
          SkipPage(w0, W(), parent, child, i, j);
          continue;
        }
        PresentEntry(w0.mem, parent, i, j);
        r := ClonePage(w0, parent, childPhys, i, j);
        if r == NoFrame {
          RollbackIsExact(w0, W(), parent, child, i, j);
          FreePd(childPhys);
          return;
        }
        if r == Halted { return; }
      }
      r := Copied;
    }

    /** One mapped page: a fresh frame, a copy of the bytes, the same flags. */
    method ClonePage(ghost w0: World, parent: nat, childPhys: Word, i: nat, j: nat) returns (r: CopyResult)
      requires Valid() && childPhys / 4096 in dirs
      requires Cloning(w0, W(), parent, childPhys / 4096, i, j)
      requires parent < PHYS_FRAMES && NoEmptyTable(mem, childPhys / 4096)
      requires IDENTITY_TABLES <= i < ENTRIES && j < ENTRIES && Walk(w0.mem, parent, i, j).MapsTo?
      requires Present(w0.mem[parent][i]) && Present(Pte(w0.mem, parent, i, j))
               && Pte(mem, parent, i, j) == Pte(w0.mem, parent, i, j)
      modifies this, pmm, pmm.bitmap
      ensures Valid() && pmm.Slack() == old(pmm.Slack()) && dirs == old(dirs)
      ensures r == Copied ==>
                Cloning(w0, W(), parent, childPhys / 4096, i, j + 1) && NoEmptyTable(mem, childPhys / 4096)
      ensures r == Halted ==> pmm.clear == {}
      ensures r == NoFrame ==> W() == old(W())
      ensures r != Copied ==> CloneEnds(r, w0.mem, parent, |w0.clear|)
    {
      hide WorldOk; hide TablesOk; hide Walk; hide Present; hide FrameOf; hide FlagsOf; hide Entry; hide Pmm.Valid;
      hide Pmm.Slack; hide Cloning; hide AllocResult; hide StepFrames; hide MapMem; hide TableWorld; hide DirectoryOk;
      hide CloneEnds; hide NoEmptyTable;
      var child := childPhys / 4096;
      CloneSource(w0, W(), parent, child, i, j);
      PageAddress(i, j);
      PresentEntry(w0.mem, parent, i, j);
      var parentFrame, flags := FrameOf(Pte(mem, parent, i, j)), FlagsOf(Pte(mem, parent, i, j));
      ghost var w := W();
      var childFrame := pmm.AllocFrame();
      if childFrame == 0 {
        RunsOut(w0, w, parent, child, i, j);
        return NoFrame;
      }
      CopyFrame(parentFrame, childFrame / 4096);
      TakeKeepsWorld(w, childFrame / 4096, w0.mem[parentFrame]);
      WorldHasTables(W());
      r := MapCopy(w0, w, parent, childPhys, i, j, childFrame, flags);
    }

    /** Maps the copy at the page's address in the child. */
    method MapCopy(ghost w0: World, ghost w: World, ghost parent: nat, childPhys: Word, i: nat, j: nat,
                   childFrame: Word, flags: nat)
      returns (r: CopyResult)
      requires Structured() && Cloning(w0, w, parent, childPhys / 4096, i, j) && childPhys / 4096 in w.dirs
      requires parent < PHYS_FRAMES && childPhys / 4096 < PHYS_FRAMES && NoEmptyTable(w.mem, childPhys / 4096)
      requires IDENTITY_TABLES <= i < ENTRIES && j < ENTRIES && Walk(w0.mem, parent, i, j).MapsTo?
      requires Walk(w0.mem, parent, i, j).frame < PHYS_FRAMES && flags == Walk(w0.mem, parent, i, j).flags < 4096
      requires Present(flags) && childFrame % 4096 == 0 && childFrame / 4096 in w.clear
      requires W() == TakeFrame(w, childFrame / 4096, w0.mem[Walk(w0.mem, parent, i, j).frame]) && WorldOk(W())
      modifies this, pmm, pmm.bitmap
      ensures Valid() && pmm.Slack() == old(pmm.Slack()) && dirs == old(dirs) && r != NoFrame
      ensures r == Copied ==>
                Cloning(w0, W(), parent, childPhys / 4096, i, j + 1) && NoEmptyTable(mem, childPhys / 4096)
      ensures r == Halted ==> pmm.clear == {} && CloneEnds(Halted, w0.mem, parent, |w0.clear|)
    {
      hide WorldOk; hide TablesOk; hide Walk; hide Present; hide FrameOf; hide FlagsOf; hide Entry; hide Pmm.Valid;
      hide Pmm.Slack; hide Cloning; hide MapMem; hide TableWorld; hide DirectoryOk; hide CloneEnds; hide NoEmptyTable;
      var child := childPhys / 4096;
      PageAddress(i, j);
      CloningIsOk(w0, w, parent, child, i, j);
      FrameFacts(w, child);
      var ok, spare := MapInto(childPhys, i * 0x40_0000 + j * 4096, childFrame, flags);
      if !ok {
        assert w.clear == {childFrame / 4096};
        RunsOut(w0, w, parent, child, i, j);
        return Halted;
      }
      role := role[childFrame / 4096 := LeafOf(child, i, j)];
      CopyFillsTable(w0, w, W(), parent, child, i, j, childFrame / 4096, Entry(childFrame / 4096, flags), spare);
      CopyCopies(w0, w, parent, child, i, j, childFrame / 4096, Entry(childFrame / 4096, flags), spare);
      CloningIsOk(w0, W(), parent, child, i, j + 1);
      return Copied;
    }
  }
}
