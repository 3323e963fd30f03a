/** The ELF loader (kernel/elf.c) on top of paging. */
module Elf {
  import opened Machine
  import opened FrameAllocator
  import opened AddressSpace
  import opened CloneSpec
  import opened Growth
  import opened ElfSpec
  import opened ElfCount
  import opened Paging

  /** Builds the contents of one page: zeros, then the part of the file that falls on it. */
  method FillPage(vm: Vm, frame: nat, ph: Phdr, data: seq<Byte>, vp: nat)
    requires frame < PHYS_FRAMES && InRange(ph, |data|) && vp < PAGES
    modifies vm`mem
    ensures vm.mem == old(vm.mem)[frame := vm.mem[frame]]
    ensures HoldsPage(vm.mem[frame], ph, data, vp)
  {
    hide ByteAt; hide SetByte;
    for j := 0 to PAGE_SIZE
      invariant vm.mem == old(vm.mem)[frame := vm.mem[frame]]
      invariant forall o: nat :: o < j ==> ByteAt(vm.mem[frame], o) == 0
    {
      vm.mem := vm.mem[frame := SetByte(vm.mem[frame], j, 0)];
    }
    var va := vp * 4096;
    var copyStart := if va > ph.vaddr then va else ph.vaddr;
    var copyEnd := if va + PAGE_SIZE < ph.vaddr + ph.filesz then va + PAGE_SIZE else ph.vaddr + ph.filesz;
    if copyStart < copyEnd {
      var fileOff := ph.offset + (copyStart - ph.vaddr);
      var dstOff := copyStart - va;
      for j := 0 to copyEnd - copyStart
        invariant vm.mem == old(vm.mem)[frame := vm.mem[frame]]
        invariant forall o: nat :: o < PAGE_SIZE ==>
          ByteAt(vm.mem[frame], o) == if dstOff <= o < dstOff + j then data[fileOff + (o - dstOff)] else 0
      {
        vm.mem := vm.mem[frame := SetByte(vm.mem[frame], dstOff + j, data[fileOff + j])];
      }
    }
  }

  /** The headers, the tables already there and the free frames decide how it ends (`LoadEndsOneWay`). */
  method Load(vm: Vm, data: seq<Byte>, hs: seq<Phdr>, pdPhys: Word) returns (r: LoadResult)
    requires vm.Valid() && pdPhys / 4096 in vm.dirs && AllInRange(hs, |data|)
    modifies vm, vm.pmm, vm.pmm.bitmap
    ensures vm.Valid() && vm.pmm.Slack() == old(vm.pmm.Slack())
    ensures r == LoadOk ==> Loaded(old(vm.W()), vm.W(), pdPhys / 4096, hs, data)
    ensures r == LoadFailed ==> GrewBySteps(old(vm.W()), vm.W(), pdPhys / 4096)
    ensures r != LoadOk ==> vm.pmm.clear == {}
    ensures pdPhys / 4096 < PHYS_FRAMES
    ensures LoadEnds(r, Slots(old(vm.mem), pdPhys / 4096), hs, |old(vm.pmm.clear)|)
    ensures r == LoadOk ==>
              |old(vm.pmm.clear)| - |vm.pmm.clear| == |FullDemand(Slots(old(vm.mem), pdPhys / 4096), hs)|
  {
    hide WorldOk; hide TablesOk; hide Pmm.Valid; hide Pmm.Slack; hide Grew; hide GrewBySteps; hide Loading;
    hide Counted; hide LoadEnds;
    hide Present;
    ghost var w0 := vm.W();
    var pd := pdPhys / 4096;
    FrameFacts(w0, pd);
    LoadStart(w0, pd, hs, data);
    CountStart(w0, pd, hs);
    for i := 0 to |hs|
      invariant vm.Valid() && vm.pmm.Slack() == old(vm.pmm.Slack()) && pd in vm.dirs
      invariant Loading(w0, vm.W(), pd, hs, data, i, 0) && Counted(w0, vm.W(), pd, hs, i, 0)
    {
      var ph := hs[i];
      if !Loads(ph) {
        CountNextHeader(w0, vm.W(), pd, hs, i, 0);
        LoadNextHeader(w0, vm.W(), pd, hs, data, i, 0);
        continue;
      }
      r := LoadSegment(vm, data, hs, pdPhys, w0, i);
      if r != LoadOk { return; }
    }
    LoadRanThrough(w0, vm.W(), pd, hs);
    r := LoadOk;
  }

  /** The page loop of one loadable segment. */
  method LoadSegment(vm: Vm, data: seq<Byte>, hs: seq<Phdr>, pdPhys: Word, ghost w0: World,
                     i: nat) returns (r: LoadResult)
    requires vm.Valid() && pdPhys / 4096 in vm.dirs
    requires i < |hs| && Loads(hs[i]) && Loading(w0, vm.W(), pdPhys / 4096, hs, data, i, 0)
    requires Counted(w0, vm.W(), pdPhys / 4096, hs, i, 0)
    modifies vm, vm.pmm, vm.pmm.bitmap
    ensures vm.Valid() && vm.pmm.Slack() == old(vm.pmm.Slack()) && vm.dirs == old(vm.dirs)
    ensures r == LoadOk ==> Loading(w0, vm.W(), pdPhys / 4096, hs, data, i + 1, 0)
    ensures r == LoadOk ==> Counted(w0, vm.W(), pdPhys / 4096, hs, i + 1, 0)
    ensures r == LoadFailed ==> GrewBySteps(w0, vm.W(), pdPhys / 4096)
    ensures pdPhys / 4096 < PHYS_FRAMES
    ensures r != LoadOk ==> vm.pmm.clear == {} && LoadEnds(r, Slots(w0.mem, pdPhys / 4096), hs, |w0.clear|)
  {
    hide WorldOk; hide TablesOk; hide Pmm.Valid; hide Pmm.Slack; hide Grew; hide GrewBySteps; hide PagesLoaded;
    hide Present; hide User;
    hide Writable;
    hide Counted; hide LoadEnds;
    var ph, pd := hs[i], pdPhys / 4096;
    LoadEnterHeader(w0, vm.W(), pd, hs, data, i);
    CountEnterHeader(w0, vm.W(), pd, hs, i);
    var segStart, segEnd := ph.vaddr / 4096, (ph.vaddr + ph.memsz + 0xFFF) / 4096;
    for vp := segStart to segEnd
      invariant vm.Valid() && vm.pmm.Slack() == old(vm.pmm.Slack()) && vm.dirs == old(vm.dirs)
      invariant Loading(w0, vm.W(), pd, hs, data, i, vp) && Counted(w0, vm.W(), pd, hs, i, vp)
    {
      r := LoadPage(vm, data, hs, pdPhys, w0, i, vp);
      if r != LoadOk { return; }
    }
    LoadNextHeader(w0, vm.W(), pd, hs, data, i, segEnd);
    CountNextHeader(w0, vm.W(), pd, hs, i, segEnd);
    r := LoadOk;
  }

  /** One page of one segment: a fresh frame, its contents, its mapping. */
  method LoadPage(vm: Vm, data: seq<Byte>, hs: seq<Phdr>, pdPhys: Word, ghost w0: World, i: nat,
                  vp: nat) returns (r: LoadResult)
    requires vm.Valid() && pdPhys / 4096 in vm.dirs
    requires i < |hs| && Covers(hs[i], vp) && vp < PAGES && Loading(w0, vm.W(), pdPhys / 4096, hs, data, i, vp)
    requires Counted(w0, vm.W(), pdPhys / 4096, hs, i, vp)
    modifies vm, vm.pmm, vm.pmm.bitmap
    ensures vm.Valid() && vm.pmm.Slack() == old(vm.pmm.Slack()) && vm.dirs == old(vm.dirs)
    ensures r == LoadOk ==> Loading(w0, vm.W(), pdPhys / 4096, hs, data, i, vp + 1)
    ensures r == LoadOk ==> Counted(w0, vm.W(), pdPhys / 4096, hs, i, vp + 1)
    ensures r == LoadFailed ==> vm.W() == old(vm.W())
    ensures pdPhys / 4096 < PHYS_FRAMES
    ensures r != LoadOk ==> vm.pmm.clear == {} && LoadEnds(r, Slots(w0.mem, pdPhys / 4096), hs, |w0.clear|)
  {
    hide WorldOk; hide TablesOk; hide Pmm.Valid; hide Pmm.Slack; hide Grew; hide GrewBySteps; hide PagesLoaded;
    hide AllocResult;
    hide StepFrames;
    hide Present; hide User; hide Writable; hide FrameOf; hide FlagsOf; hide Entry; hide MapMem; hide TableWorld;
    hide HoldsPage;
    hide FirstPage; hide EndPage; hide Counted; hide LoadEnds;
    var pd := pdPhys / 4096;
    ghost var w := vm.W();
    FrameFacts(w, pd);
    var frame := vm.pmm.AllocFrame();
    if frame == 0 {
      LoadRunsOut(w0, w, pd, hs, i, vp);
      return LoadFailed;
    }
    var f := frame / 4096;
    FillPage(vm, f, hs[i], data, vp);
    ghost var page := vm.mem[f];
    TakeKeepsWorld(w, f, page);
    WorldHasTables(vm.W());
    var flags := PageFlags(hs[i]);
    assert vp * 4096 / 0x40_0000 == vp / 1024;
    var ok, spare := vm.MapInto(pdPhys, vp * 4096, frame, flags);
    if !ok {
      assert w.clear == {f};
      LoadRunsOut(w0, w, pd, hs, i, vp);
      return LoadHalted;
    }
    assert vp * 4096 / 0x40_0000 == vp / 1024 && vp * 4096 / 4096 % 1024 == vp % 1024;
    vm.role := vm.role[f := LeafOf(pd, vp / 1024, vp % 1024)];
    assert LoadsPage(w0, w, vm.W(), pd, hs, data, i, vp, f, page, Entry(f, flags), spare);
    LoadPageStep(w0, w, vm.W(), pd, hs, data, i, vp, f, page, Entry(f, flags), spare);
    CountPage(w0, w, vm.W(), pd, hs, i, vp, f, page, Entry(f, flags), spare);
    WorldHasTables(vm.W());
    return LoadOk;
  }
}
