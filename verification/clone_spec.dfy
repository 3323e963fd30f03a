/**
 What the full-copy clone of an address space promises, and the step by
 which it gets there: one page copied into a fresh frame and mapped.
 */
module CloneSpec {
  import opened Machine
  import opened FrameAllocator
  import opened AddressSpace

  /** Page (a, b) of the child is the parent's page: same flags, same contents. */
  ghost predicate SamePage(m0: Memory, parent: nat, m: Memory, child: nat, a: nat, b: nat)
    requires parent < PHYS_FRAMES && child < PHYS_FRAMES && a < ENTRIES && b < ENTRIES
  {
    var t := Walk(m, child, a, b);
    match Walk(m0, parent, a, b)
    case NotMapped => t == NotMapped
    case MapsTo(f, g) =>
      t.MapsTo? && t.flags == g && f < PHYS_FRAMES && t.frame < PHYS_FRAMES && m[t.frame] == m0[f]
  }

  predicate Before(a: nat, b: nat, i: nat, j: nat) { a < i || (a == i && b < j) }

  /** Only frames that were free when the clone started have been written or taken. */
  ghost predicate OnlyFreshTouched(w0: World, w: World, child: nat) {
    && child < PHYS_FRAMES && child !in w0.dirs
    && w.dirs == w0.dirs + {child} && w.identity == w0.identity
    && (forall f :: 0 <= f < PHYS_FRAMES && f !in w0.clear ==> w.mem[f] == w0.mem[f])
    && (forall f :: f in w0.role ==> f in w.role && w.role[f] == w0.role[f])
    && (forall f :: f in w.role && f !in w0.role ==> f in Owned(w.mem, child))
    && Owned(w.mem, child) <= w0.clear
    && w.clear == w0.clear - Owned(w.mem, child)
  }

  /** The loop state: pages before (i, j) are copied, later ones are still absent in the child. */
  ghost predicate Cloning(w0: World, w: World, parent: nat, child: nat, i: nat, j: nat) {
    && WorldOk(w0) && parent in w0.dirs && parent < PHYS_FRAMES
    && WorldOk(w) && OnlyFreshTouched(w0, w, child) && child in w.dirs && child < PHYS_FRAMES
    && forall a: nat, b: nat :: IDENTITY_TABLES <= a < ENTRIES && b < ENTRIES ==>
         if Before(a, b, i, j) then SamePage(w0.mem, parent, w.mem, child, a, b)
         else Walk(w.mem, child, a, b) == NotMapped
  }

  /** A free frame taken from the allocator and filled. */
  ghost function TakeFrame(w: World, f: nat, page: Page): World
    requires f < PHYS_FRAMES
  {
    w.(clear := w.clear - {f}, mem := w.mem[f := page])
  }

  lemma TakeKeepsWorld(w: World, f: nat, page: Page)
    requires WorldOk(w) && f in w.clear && f < PHYS_FRAMES
    ensures WorldOk(TakeFrame(w, f, page)) && InHand(TakeFrame(w, f, page), f)
    ensures forall d :: d in w.dirs ==> d < PHYS_FRAMES && Owned(TakeFrame(w, f, page).mem, d) == Owned(w.mem, d)
    ensures forall d, i: nat, j: nat :: d in w.dirs && i < ENTRIES && j < ENTRIES ==>
              Walk(TakeFrame(w, f, page).mem, d, i, j) == Walk(w.mem, d, i, j)
  {
    hide Present; hide Writable; hide User; hide FrameOf; hide FlagsOf;
    var v := TakeFrame(w, f, page);
    forall d | d in w.dirs
      ensures DirectoryOk(v, d) && LeavesOk(v, d) && Owned(v.mem, d) == Owned(w.mem, d)
      ensures forall i: nat, j: nat :: i < ENTRIES && j < ENTRIES ==> Walk(v.mem, d, i, j) == Walk(w.mem, d, i, j)
    {
      assert DirectoryOk(w, d);
      OtherFramesKeepDirectory(w, v, d, {});
    }
  }

  lemma CloneStart(w0: World, kernelPd: nat, parent: nat, child: nat)
    requires WorldOk(w0) && parent in w0.dirs && parent < PHYS_FRAMES
    requires kernelPd in w0.dirs && kernelPd < PHYS_FRAMES && child in w0.clear && child < PHYS_FRAMES
    ensures Cloning(w0, CreateWorld(w0, kernelPd, child), parent, child, IDENTITY_TABLES, 0)
  {
    CreateKeepsWorld(w0, kernelPd, child);
  }

  /** What the loop body does to one mapped page of the parent. */
  ghost predicate CopiesPage(w0: World, w: World, parent: nat, child: nat, i: nat, j: nat, f: nat, entry: Word,
                             spare: nat) {
    && Cloning(w0, w, parent, child, i, j)
    && IDENTITY_TABLES <= i < ENTRIES && j < ENTRIES && f in w.clear && f < PHYS_FRAMES
    && Walk(w0.mem, parent, i, j).MapsTo? && Walk(w0.mem, parent, i, j).frame < PHYS_FRAMES
    && Present(entry) && FrameOf(entry) == f && FlagsOf(entry) == Walk(w0.mem, parent, i, j).flags
    && CanMap(TakeFrame(w, f, w0.mem[Walk(w0.mem, parent, i, j).frame]), child, i, j, spare)
  }

  ghost function CopyWorld(w0: World, w: World, parent: nat, child: nat, i: nat, j: nat, f: nat, entry: Word,
                           spare: nat): World
    requires CopiesPage(w0, w, parent, child, i, j, f, entry, spare)
  {
    LeafWorld(TakeFrame(w, f, w0.mem[Walk(w0.mem, parent, i, j).frame]), child, i, j, entry, spare)
  }

  lemma CopyOwned(w0: World, w: World, parent: nat, child: nat, i: nat, j: nat, f: nat, entry: Word, spare: nat)
    requires CopiesPage(w0, w, parent, child, i, j, f, entry, spare)
    ensures var v := CopyWorld(w0, w, parent, child, i, j, f, entry, spare);
            && WorldOk(v)
            && Owned(v.mem, child) == Owned(w.mem, child) + (w.clear - v.clear)
            && f !in v.clear && v.clear <= w.clear && FrameOf(entry) == f
  {
    hide Present; hide Writable; hide User; hide FrameOf; hide FlagsOf; hide Entry; hide WithUser; hide TableFlags;
    hide Owned; hide WorldOk; hide MapMem; hide DirectoryOk;
    var page := w0.mem[Walk(w0.mem, parent, i, j).frame];
    var u := TakeFrame(w, f, page);
    TakeKeepsWorld(w, f, page);
    LeafMapKeepsWorld(u, child, i, j, entry, spare);
    MapConservesFrames(u, child, i, j, entry, spare);
    assert Walk(u.mem, child, i, j) == NotMapped;
  }

  lemma CopyMemory(w0: World, w: World, parent: nat, child: nat, i: nat, j: nat, f: nat, entry: Word, spare: nat,
                   g: nat)
    requires CopiesPage(w0, w, parent, child, i, j, f, entry, spare)
    requires g < PHYS_FRAMES && g !in w0.clear
    ensures CopyWorld(w0, w, parent, child, i, j, f, entry, spare).mem[g] == w0.mem[g]
  {
    hide Present; hide Writable; hide User; hide FrameOf; hide FlagsOf; hide Entry; hide WithUser; hide TableFlags;
    hide WorldOk; hide TablesOk; hide MapMem; hide Walk;
    var u := TakeFrame(w, f, w0.mem[Walk(w0.mem, parent, i, j).frame]);
    assert Owned(w.mem, child) <= w0.clear && child in Owned(w.mem, child);
    if Present(u.mem[child][i]) {
      assert w.mem[child] == u.mem[child];
      assert FrameOf(w.mem[child][i]) in Tables(w.mem, child);
    }
    MapTouches(u, child, i, j, entry, spare, g);
  }

  lemma CopyTouchesOnlyFresh(w0: World, w: World, parent: nat, child: nat, i: nat, j: nat, f: nat, entry: Word,
                             spare: nat)
    requires CopiesPage(w0, w, parent, child, i, j, f, entry, spare)
    ensures WorldOk(CopyWorld(w0, w, parent, child, i, j, f, entry, spare))
    ensures OnlyFreshTouched(w0, CopyWorld(w0, w, parent, child, i, j, f, entry, spare), child)
  {
    hide Present; hide Writable; hide User; hide FrameOf; hide FlagsOf; hide Entry; hide WithUser; hide TableFlags;
    hide Owned; hide WorldOk; hide TablesOk; hide MapMem; hide WithTable; hide Walk;
    var v := CopyWorld(w0, w, parent, child, i, j, f, entry, spare);
    CopyOwned(w0, w, parent, child, i, j, f, entry, spare);
    forall g | 0 <= g < PHYS_FRAMES && g !in w0.clear ensures v.mem[g] == w0.mem[g] {
      CopyMemory(w0, w, parent, child, i, j, f, entry, spare, g);
    }
    CopyRoles(w0, w, parent, child, i, j, f, entry, spare);
  }

  lemma CopyRoles(w0: World, w: World, parent: nat, child: nat, i: nat, j: nat, f: nat, entry: Word, spare: nat)
    requires CopiesPage(w0, w, parent, child, i, j, f, entry, spare)
    ensures var v := CopyWorld(w0, w, parent, child, i, j, f, entry, spare);
            && (forall g :: g in w.role ==> g in v.role && v.role[g] == w.role[g])
            && (forall g :: g in v.role && g !in w.role ==> g in w.clear && g !in v.clear)
            && v.dirs == w.dirs && v.identity == w.identity
  {
    hide Present; hide Writable; hide User; hide FrameOf; hide FlagsOf; hide Entry; hide WithUser; hide TableFlags;
    hide Owned; hide MapMem; hide WithTable; hide Walk; hide DirectoryOk;
  }

  lemma CopyCopies(w0: World, w: World, parent: nat, child: nat, i: nat, j: nat, f: nat, entry: Word, spare: nat)
    requires CopiesPage(w0, w, parent, child, i, j, f, entry, spare)
    ensures Cloning(w0, CopyWorld(w0, w, parent, child, i, j, f, entry, spare), parent, child, i, j + 1)
  {
    var u := TakeFrame(w, f, w0.mem[Walk(w0.mem, parent, i, j).frame]);
    var v := CopyWorld(w0, w, parent, child, i, j, f, entry, spare);
    CopyTouchesOnlyFresh(w0, w, parent, child, i, j, f, entry, spare);
    forall a: nat, b: nat | IDENTITY_TABLES <= a < ENTRIES && b < ENTRIES
      ensures if Before(a, b, i, j + 1) then SamePage(w0.mem, parent, v.mem, child, a, b)
              else Walk(v.mem, child, a, b) == NotMapped
    {
      CopyKeepsPage(w0, w, parent, child, i, j, f, entry, spare, a, b);
    }
  }

  lemma CopyKeepsPage(w0: World, w: World, parent: nat, child: nat, i: nat, j: nat, f: nat, entry: Word, spare: nat,
                      a: nat, b: nat)
    requires CopiesPage(w0, w, parent, child, i, j, f, entry, spare)
    requires IDENTITY_TABLES <= a < ENTRIES && b < ENTRIES
    ensures var v := CopyWorld(w0, w, parent, child, i, j, f, entry, spare);
            if Before(a, b, i, j + 1) then SamePage(w0.mem, parent, v.mem, child, a, b)
            else Walk(v.mem, child, a, b) == NotMapped
  {
    hide Present; hide Writable; hide User; hide FrameOf; hide FlagsOf; hide Entry; hide WithUser; hide TableFlags;
    hide Owned;
    var page := w0.mem[Walk(w0.mem, parent, i, j).frame];
    var u := TakeFrame(w, f, page);
    var v := CopyWorld(w0, w, parent, child, i, j, f, entry, spare);
    TakeKeepsWorld(w, f, page);
    MapRefinesUpdate(u, child, i, j, entry, spare);
    assert Walk(v.mem, child, a, b) == if SameSlot(child, i, j, child, a, b) then Installed(entry)
           else Walk(w.mem, child, a, b);
    var t := Walk(v.mem, child, a, b);
    if t.MapsTo? {
      assert DirectoryOk(u, child) && LeavesOk(u, child);
      if (a, b) != (i, j) { assert HasRole(u, t.frame, LeafOf(child, a, b)); }
      MapTouches(u, child, i, j, entry, spare, t.frame);
    }
  }

  lemma SkipPage(w0: World, w: World, parent: nat, child: nat, i: nat, j: nat)
    requires Cloning(w0, w, parent, child, i, j) && i < ENTRIES && j < ENTRIES
    requires Walk(w0.mem, parent, i, j) == NotMapped
    ensures Cloning(w0, w, parent, child, i, j + 1)
  {
    hide WorldOk; hide OnlyFreshTouched; hide Walk;
    assert Before(i, j, i, j + 1);
    forall a: nat, b: nat | IDENTITY_TABLES <= a < ENTRIES && b < ENTRIES
      ensures if Before(a, b, i, j + 1) then SamePage(w0.mem, parent, w.mem, child, a, b)
              else Walk(w.mem, child, a, b) == NotMapped
    {
      assert Before(a, b, i, j + 1) <==> Before(a, b, i, j) || (a, b) == (i, j);
    }
  }

  lemma SkipSlot(w0: World, w: World, parent: nat, child: nat, i: nat)
    requires i < ENTRIES
    requires || (Cloning(w0, w, parent, child, i, 0) && !Present(w0.mem[parent][i]))
             || Cloning(w0, w, parent, child, i, ENTRIES)
    ensures Cloning(w0, w, parent, child, i + 1, 0)
  {
    hide WorldOk; hide OnlyFreshTouched; hide Present;
    forall a: nat, b: nat | IDENTITY_TABLES <= a < ENTRIES && b < ENTRIES
      ensures if Before(a, b, i + 1, 0) then SamePage(w0.mem, parent, w.mem, child, a, b)
              else Walk(w.mem, child, a, b) == NotMapped
    {
      assert Before(a, b, i + 1, 0) <==> Before(a, b, i, ENTRIES);
      assert Before(a, b, i, 0) ==> Before(a, b, i, ENTRIES);
    }
  }

  /**
   A finished clone: every page above the shared window is present in the child
   iff it is in the parent, with the same flags, effective rights and contents,
   in frames that were all free before; nothing else in memory changed.
   */
  ghost predicate Cloned(w0: World, w: World, parent: nat, child: nat)
    requires parent < PHYS_FRAMES && child < PHYS_FRAMES
  {
    && OnlyFreshTouched(w0, w, child)
    && forall a: nat, b: nat :: IDENTITY_TABLES <= a < ENTRIES && b < ENTRIES ==>
         && SamePage(w0.mem, parent, w.mem, child, a, b)
         && UserPage(w.mem, child, a, b) == UserPage(w0.mem, parent, a, b)
         && WritablePage(w.mem, child, a, b) == WritablePage(w0.mem, parent, a, b)
  }

  lemma CloneFinished(w0: World, w: World, parent: nat, child: nat)
    requires Cloning(w0, w, parent, child, ENTRIES, 0)
    ensures Cloned(w0, w, parent, child)
  {
    hide Present; hide FrameOf; hide FlagsOf; hide User; hide Writable; hide OnlyFreshTouched;
    forall a: nat, b: nat | IDENTITY_TABLES <= a < ENTRIES && b < ENTRIES
      ensures SamePage(w0.mem, parent, w.mem, child, a, b)
      ensures UserPage(w.mem, child, a, b) == UserPage(w0.mem, parent, a, b)
      ensures WritablePage(w.mem, child, a, b) == WritablePage(w0.mem, parent, a, b)
    {
      assert Before(a, b, ENTRIES, 0);
      RightsByFlags(w0, parent, a, b);
      RightsByFlags(w, child, a, b);
    }
  }

  /** Free set, roles and directories are as before, and no frame in use has changed. */
  ghost predicate RolledBack(w0: World, w: World) {
    && w.clear == w0.clear && w.role == w0.role && w.dirs == w0.dirs && w.identity == w0.identity
    && forall f :: 0 <= f < PHYS_FRAMES && f !in w0.clear ==> w.mem[f] == w0.mem[f]
  }

  /** Giving up at any point of the copy restores the free set, the roles and the directories exactly. */
  lemma RollbackIsExact(w0: World, w: World, parent: nat, child: nat, i: nat, j: nat)
    requires Cloning(w0, w, parent, child, i, j)
    ensures RolledBack(w0, FreeWorld(w, child))
  {
    hide Owned; hide Walk; hide DirectoryOk;
    assert FramesOk(w0);
    var v := FreeWorld(w, child);
    assert v.clear == w0.clear;
    assert v.role.Keys == w0.role.Keys;
    assert v.dirs == w0.dirs;
  }

  /** The parent's tables read the same throughout the clone. */
  lemma CloningKeepsParent(w0: World, w: World, parent: nat, child: nat, i: nat, j: nat, a: nat)
    requires Cloning(w0, w, parent, child, i, j) && a < ENTRIES
    ensures parent < PHYS_FRAMES && parent in w.dirs && w.mem[parent] == w0.mem[parent]
    ensures Present(w0.mem[parent][a]) ==> forall b: nat :: b < ENTRIES ==>
            Pte(w.mem, parent, a, b) == Pte(w0.mem, parent, a, b)
  {
    hide Present; hide FrameOf; hide Owned; hide Walk;
    assert DirectoryOk(w0, parent);
    assert parent !in w0.clear;
    if Present(w0.mem[parent][a]) {
      assert FrameOf(w0.mem[parent][a]) in w0.role;
      assert FrameOf(w0.mem[parent][a]) !in w0.clear;
    }
  }

  lemma AbsentEntry(m: Memory, d: nat, i: nat, j: nat)
    requires d < PHYS_FRAMES && i < ENTRIES && j < ENTRIES && !Present(Pte(m, d, i, j))
    ensures Walk(m, d, i, j) == NotMapped
  {
  }

  lemma PresentEntry(m: Memory, d: nat, i: nat, j: nat)
    requires d < PHYS_FRAMES && i < ENTRIES && j < ENTRIES && Present(m[d][i]) && Present(Pte(m, d, i, j))
    ensures Walk(m, d, i, j) == MapsTo(FrameOf(Pte(m, d, i, j)), FlagsOf(Pte(m, d, i, j)))
  {
  }

  /** A page of the parent is still intact, and not free, when its turn comes. */
  lemma CloneSource(w0: World, w: World, parent: nat, child: nat, i: nat, j: nat)
    requires Cloning(w0, w, parent, child, i, j)
    requires IDENTITY_TABLES <= i < ENTRIES && j < ENTRIES && Walk(w0.mem, parent, i, j).MapsTo?
    ensures var f := Walk(w0.mem, parent, i, j).frame;
            f < PHYS_FRAMES && f !in w.clear && w.mem[f] == w0.mem[f]
    ensures parent < PHYS_FRAMES && 0 !in w.clear && Tracked(w.clear)
  {
    hide Present; hide FrameOf; hide Owned;
    assert LeavesOk(w0, parent);
    assert HasRole(w0, Walk(w0.mem, parent, i, j).frame, LeafOf(parent, i, j));
  }

  lemma PageAddress(i: nat, j: nat)
    requires i < ENTRIES && j < ENTRIES
    ensures var virt := i * 0x40_0000 + j * 4096;
            virt < WORD_LIMIT && virt / 0x40_0000 == i && virt / 4096 % 1024 == j
  {
    assert (i * 0x40_0000 + j * 4096) / 4096 == i * 1024 + j;
  }

  lemma CloningIsOk(w0: World, w: World, parent: nat, child: nat, i: nat, j: nat)
    requires Cloning(w0, w, parent, child, i, j)
    ensures WorldOk(w) && TablesOk(w)
  {
  }
}
