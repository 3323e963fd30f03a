/**
 How an address space grows: fresh frames are filled and mapped one page at a
 time. `Grew` is what any number of such steps guarantees, and what is left
 over when the directory is freed afterwards.
 */
module Growth {
  import opened Machine
  import opened FrameAllocator
  import opened AddressSpace
  import opened CloneSpec

  /** A frame that growing directory `pd` may write although it was in use: its own tables and the shared ones. */
  ghost predicate Writes(w: World, pd: nat, f: nat) {
    || f == pd
    || (f in w.role && (w.role[f].IdentityTable? || (w.role[f].TableOf? && w.role[f].dir == pd)))
  }

  /** A new purpose given to a frame by growing `pd`. */
  ghost predicate PartOf(r: Role, pd: nat) {
    match r
    case TableOf(d, i) => d == pd && IDENTITY_TABLES <= i < ENTRIES
    case LeafOf(d, i, j) => d == pd && i < ENTRIES && j < ENTRIES
    case _ => false
  }

  ghost predicate Grew(w0: World, w: World, pd: nat) {
    && pd < PHYS_FRAMES
    && w.dirs == w0.dirs && w.identity == w0.identity && w.clear <= w0.clear
    && (forall f :: f in w0.role ==> f in w.role && w.role[f] == w0.role[f])
    && (forall f :: f in w.role && f !in w0.role ==> f in w0.clear && f !in w.clear && PartOf(w.role[f], pd))
    && (forall f :: f in w0.clear && f !in w.clear ==> f in w.role)
    && (forall f :: 0 <= f < PHYS_FRAMES && f !in w0.clear && !Writes(w0, pd, f) ==> w.mem[f] == w0.mem[f])
    && (forall i: nat :: i < ENTRIES && Present(w0.mem[pd][i]) ==>
          Present(w.mem[pd][i]) && FrameOf(w.mem[pd][i]) == FrameOf(w0.mem[pd][i])
          && (User(w0.mem[pd][i]) ==> User(w.mem[pd][i])))
    && (forall f :: f in w.role && f !in w0.role && w.role[f].TableOf? ==>
          Present(w.mem[pd][w.role[f].i]) && FrameOf(w.mem[pd][w.role[f].i]) == f)
    && (forall i: nat :: i < ENTRIES && Present(w.mem[pd][i]) && !Present(w0.mem[pd][i]) ==>
          FrameOf(w.mem[pd][i]) in w0.clear)
    && (forall i: nat, j: nat :: i < ENTRIES && j < ENTRIES ==>
          || Walk(w.mem, pd, i, j) == Walk(w0.mem, pd, i, j)
          || (Walk(w.mem, pd, i, j).MapsTo? && Walk(w.mem, pd, i, j).frame in w0.clear))
  }

  lemma GrewReflexive(w: World, pd: nat)
    requires pd < PHYS_FRAMES
    ensures Grew(w, w, pd)
  {
  }

  lemma GrewKeepsDirs(w0: World, w: World, pd: nat)
    requires Grew(w0, w, pd)
    ensures w.clear <= w0.clear && w.dirs == w0.dirs && pd < PHYS_FRAMES
  {
  }

  lemma GrewTransitive(w0: World, w1: World, w2: World, pd: nat)
    requires WorldOk(w0) && WorldOk(w1)
    requires Grew(w0, w1, pd) && Grew(w1, w2, pd)
    ensures Grew(w0, w2, pd)
  {
    hide Present; hide FrameOf; hide DirectoryOk; hide LeavesOk; hide Walk;
    forall f | 0 <= f < PHYS_FRAMES && f !in w0.clear && !Writes(w0, pd, f) ensures w2.mem[f] == w0.mem[f] {
      assert f !in w1.clear;
      assert !Writes(w1, pd, f);
    }
    forall f | f in w2.role && f !in w0.role && w2.role[f].TableOf?
      ensures Present(w2.mem[pd][w2.role[f].i]) && FrameOf(w2.mem[pd][w2.role[f].i]) == f
    {
      if f in w1.role {
        assert Present(w1.mem[pd][w1.role[f].i]);
      }
    }
    forall i: nat, j: nat | i < ENTRIES && j < ENTRIES
      ensures || Walk(w2.mem, pd, i, j) == Walk(w0.mem, pd, i, j)
              || (Walk(w2.mem, pd, i, j).MapsTo? && Walk(w2.mem, pd, i, j).frame in w0.clear)
    {
      if Walk(w2.mem, pd, i, j) == Walk(w1.mem, pd, i, j) {
        assert || Walk(w1.mem, pd, i, j) == Walk(w0.mem, pd, i, j)
               || (Walk(w1.mem, pd, i, j).MapsTo? && Walk(w1.mem, pd, i, j).frame in w0.clear);
      }
    }
  }

  /** Taking a free frame, filling it with `page` and mapping it at (i, j). */
  ghost predicate CanGrow(w: World, pd: nat, i: nat, j: nat, f: nat, page: Page, entry: Word, spare: nat) {
    && WorldOk(w) && pd in w.dirs && f in w.clear && f < PHYS_FRAMES
    && Present(entry) && FrameOf(entry) == f
    && CanMap(TakeFrame(w, f, page), pd, i, j, spare)
  }

  ghost function GrowWorld(w: World, pd: nat, i: nat, j: nat, f: nat, page: Page, entry: Word, spare: nat): World
    requires CanGrow(w, pd, i, j, f, page, entry, spare)
  {
    LeafWorld(TakeFrame(w, f, page), pd, i, j, entry, spare)
  }

  /** One step keeps the world in order and changes the walk of one page, to the new frame. */
  lemma GrowStepWalk(w: World, pd: nat, i: nat, j: nat, f: nat, page: Page, entry: Word, spare: nat)
    requires CanGrow(w, pd, i, j, f, page, entry, spare)
    ensures var v := GrowWorld(w, pd, i, j, f, page, entry, spare);
            && WorldOk(v) && HasRole(v, f, LeafOf(pd, i, j)) && v.mem[f] == page
            && forall d, a: nat, b: nat :: d in w.dirs && a < ENTRIES && b < ENTRIES ==>
                 d < PHYS_FRAMES &&
                 Walk(v.mem, d, a, b) == if SameSlot(pd, i, j, d, a, b) then MapsTo(f, FlagsOf(entry))
                   else Walk(w.mem, d, a, b)
  {
    hide Present; hide Writable; hide User; hide FrameOf; hide FlagsOf; hide Entry; hide WithUser; hide TableFlags;
    hide Owned;
    hide MapMem; hide Walk; hide DirectoryOk;
    var u := TakeFrame(w, f, page);
    TakeKeepsWorld(w, f, page);
    LeafMapKeepsWorld(u, pd, i, j, entry, spare);
    MapRefinesUpdate(u, pd, i, j, entry, spare);
    TableRole(u, pd, i);
    MapTouches(u, pd, i, j, entry, spare, f);
  }

  lemma TableRole(w: World, pd: nat, i: nat)
    requires TablesOk(w) && pd in w.dirs && i < ENTRIES
    ensures pd < PHYS_FRAMES && HasRole(w, pd, Directory)
    ensures Present(w.mem[pd][i]) ==>
              HasRole(w, FrameOf(w.mem[pd][i]), if i < IDENTITY_TABLES then IdentityTable(i) else TableOf(pd, i))
  {
    hide Present; hide FrameOf;
    assert DirectoryOk(w, pd);
  }

  lemma GrowStepGrew(w: World, pd: nat, i: nat, j: nat, f: nat, page: Page, entry: Word, spare: nat)
    requires CanGrow(w, pd, i, j, f, page, entry, spare)
    ensures Grew(w, GrowWorld(w, pd, i, j, f, page, entry, spare), pd)
  {
    hide Present; hide Writable; hide User; hide FrameOf; hide FlagsOf; hide Entry; hide WithUser; hide TableFlags;
    hide Owned;
    hide MapMem; hide WithTable; hide Walk; hide WorldOk; hide TablesOk; hide CanMap; hide GrowWorld; hide CanGrow;
    var v := GrowWorld(w, pd, i, j, f, page, entry, spare);
    GrowStepRoles(w, pd, i, j, f, page, entry, spare);
    GrowFrame(w, pd, i, j, f, page, entry, spare);
    GrowStepSlots(w, pd, i, j, f, page, entry, spare, i);
    forall g | 0 <= g < PHYS_FRAMES && g !in w.clear && !Writes(w, pd, g) ensures v.mem[g] == w.mem[g] {
      GrowStepMemory(w, pd, i, j, f, page, entry, spare, g);
    }
    forall a: nat | a < ENTRIES && Present(w.mem[pd][a])
      ensures Present(v.mem[pd][a]) && FrameOf(v.mem[pd][a]) == FrameOf(w.mem[pd][a])
      ensures User(w.mem[pd][a]) ==> User(v.mem[pd][a])
    {
      GrowStepSlots(w, pd, i, j, f, page, entry, spare, a);
    }
    forall a: nat | a < ENTRIES && Present(v.mem[pd][a]) && !Present(w.mem[pd][a])
      ensures FrameOf(v.mem[pd][a]) in w.clear
    {
      GrowStepSlots(w, pd, i, j, f, page, entry, spare, a);
    }
    GrowStepWalk(w, pd, i, j, f, page, entry, spare);
  }

  /** A step extends whatever growth came before it. */
  lemma GrowTwice(w0: World, w: World, pd: nat, i: nat, j: nat, f: nat, page: Page, entry: Word, spare: nat)
    requires WorldOk(w0) && Grew(w0, w, pd) && CanGrow(w, pd, i, j, f, page, entry, spare)
    ensures var v := GrowWorld(w, pd, i, j, f, page, entry, spare);
            WorldOk(v) && Grew(w0, v, pd)
  {
    hide Grew; hide GrowWorld; hide WorldOk; hide CanMap; hide FrameOf; hide Present;
    GrowStepWalk(w, pd, i, j, f, page, entry, spare);
    GrowStepGrew(w, pd, i, j, f, page, entry, spare);
    GrewTransitive(w0, w, GrowWorld(w, pd, i, j, f, page, entry, spare), pd);
  }

  lemma GrowFrame(w: World, pd: nat, i: nat, j: nat, f: nat, page: Page, entry: Word, spare: nat)
    requires CanGrow(w, pd, i, j, f, page, entry, spare)
    ensures f in w.clear && f < PHYS_FRAMES && pd in w.dirs
  {
  }

  lemma GrowStepRoles(w: World, pd: nat, i: nat, j: nat, f: nat, page: Page, entry: Word, spare: nat)
    requires CanGrow(w, pd, i, j, f, page, entry, spare)
    ensures var v := GrowWorld(w, pd, i, j, f, page, entry, spare);
            && pd < PHYS_FRAMES && i < ENTRIES
            && v.dirs == w.dirs && v.identity == w.identity && v.clear <= w.clear
            && (forall g :: g in w.role ==> g in v.role && v.role[g] == w.role[g])
            && (forall g :: g in v.role && g !in w.role ==> g in w.clear && g !in v.clear && PartOf(v.role[g], pd))
            && (forall g :: g in v.role && g !in w.role && v.role[g].TableOf? ==>
                  g == spare && v.role[g].i == i && !Present(w.mem[pd][i]))
            && (forall g :: g in w.clear && g !in v.clear ==> g in v.role)
  {
    hide Present; hide Writable; hide User; hide FrameOf; hide FlagsOf; hide Entry; hide WithUser; hide TableFlags;
    hide Owned;
    hide MapMem; hide WithTable; hide Walk; hide DirectoryOk; hide LeavesOk;
    var u := TakeFrame(w, f, page);
    assert CanMap(u, pd, i, j, spare);
    assert DirectoryOk(w, pd);
    DirectoryIsUsed(w, pd);
    assert u.mem[pd] == w.mem[pd];
    if !Present(w.mem[pd][i]) { AbsentIsHigh(w, pd, i); }
  }

  lemma GrowLeafRole(w: World, pd: nat, i: nat, j: nat, f: nat, page: Page, entry: Word, spare: nat, g: nat)
    requires CanGrow(w, pd, i, j, f, page, entry, spare)
    requires var v := GrowWorld(w, pd, i, j, f, page, entry, spare);
             g in v.role && v.role[g].LeafOf?
    ensures var v := GrowWorld(w, pd, i, j, f, page, entry, spare);
            if g == f then v.role[g] == LeafOf(pd, i, j) else g in w.role && w.role[g] == v.role[g]
  {
    hide FrameOf; hide Present; hide MapMem; hide WithTable; hide WorldOk;
  }

  lemma DirectoryIsUsed(w: World, pd: nat)
    requires TablesOk(w) && pd in w.dirs
    ensures pd !in w.clear && pd < PHYS_FRAMES
  {
    assert DirectoryOk(w, pd);
  }

  lemma GrowStepMemory(w: World, pd: nat, i: nat, j: nat, f: nat, page: Page, entry: Word, spare: nat, g: nat)
    requires CanGrow(w, pd, i, j, f, page, entry, spare)
    requires g < PHYS_FRAMES && g != f && !Writes(w, pd, g) && (Present(w.mem[pd][i]) || g != spare)
    ensures GrowWorld(w, pd, i, j, f, page, entry, spare).mem[g] == w.mem[g]
  {
    hide Present; hide Writable; hide User; hide FrameOf; hide FlagsOf; hide Entry; hide WithUser; hide TableFlags;
    hide Owned;
    hide MapMem; hide WithTable; hide Walk; hide DirectoryOk; hide LeavesOk;
    var u := TakeFrame(w, f, page);
    TableRole(u, pd, i);
    MapTouches(u, pd, i, j, entry, spare, g);
  }

  lemma GrowStepSlots(w: World, pd: nat, i: nat, j: nat, f: nat, page: Page, entry: Word, spare: nat, a: nat)
    requires CanGrow(w, pd, i, j, f, page, entry, spare) && a < ENTRIES
    ensures var v := GrowWorld(w, pd, i, j, f, page, entry, spare);
            && pd < PHYS_FRAMES && i < ENTRIES
            && (Present(w.mem[pd][a]) ==> Present(v.mem[pd][a]) && FrameOf(v.mem[pd][a]) == FrameOf(w.mem[pd][a]))
            && (!Present(w.mem[pd][i]) ==> Present(v.mem[pd][i]) && FrameOf(v.mem[pd][i]) == spare && spare in w.clear)
            && (Present(v.mem[pd][a]) ==> a == i || Present(w.mem[pd][a]))
            && (Present(w.mem[pd][a]) && User(w.mem[pd][a]) ==> User(v.mem[pd][a]))
            && (User(FlagsOf(entry)) ==> User(v.mem[pd][i]))
  {
    hide Present; hide Writable; hide User; hide FrameOf; hide FlagsOf; hide Entry; hide WithUser; hide TableFlags;
    hide Owned;
    hide WithTable; hide Walk; hide DirectoryOk; hide LeavesOk;
    var u := TakeFrame(w, f, page);
    DirectoryIsUsed(w, pd);
    assert u.mem[pd] == w.mem[pd];
    SlotAfterMap(u, pd, i, j, entry, spare, a);
    SlotAfterMap(u, pd, i, j, entry, spare, i);
  }

  lemma AbsentIsHigh(w: World, pd: nat, i: nat)
    requires TablesOk(w) && pd in w.dirs && i < ENTRIES && pd < PHYS_FRAMES && !Present(w.mem[pd][i])
    ensures i >= IDENTITY_TABLES
  {
    assert DirectoryOk(w, pd);
  }

  // ---------------------------------------------------------------- what growth costs for good

  /**
   Frames taken while `pd` grew that freeing it will not return: those mapped
   in the shared window, and those a later mapping of the same page displaced.
   */
  ghost function Lost(w0: World, w: World, pd: nat): set<nat>
    requires pd < PHYS_FRAMES
  {
    set f | f in w0.clear && f !in w.clear && f in w.role && LostRole(w, pd, f)
  }

  ghost predicate LostRole(w: World, pd: nat, f: nat)
    requires pd < PHYS_FRAMES && f in w.role
  {
    match w.role[f]
    case LeafOf(_, i, j) =>
      i < IDENTITY_TABLES || i >= ENTRIES || j >= ENTRIES
      || !Walk(w.mem, pd, i, j).MapsTo? || Walk(w.mem, pd, i, j).frame != f
    case _ => false
  }

  /** Freeing a directory that owned only itself before it grew returns everything but the lost frames. */
  lemma FreeAfterGrowth(w0: World, w: World, pd: nat)
    requires WorldOk(w0) && WorldOk(w) && pd in w0.dirs && Grew(w0, w, pd) && Owned(w0.mem, pd) == {pd}
    ensures FreeWorld(w, pd).clear == w0.clear + {pd} - Lost(w0, w, pd)
  {
    forall f ensures f in FreeWorld(w, pd).clear <==> f in w0.clear + {pd} - Lost(w0, w, pd) {
      FreeAfterGrowthAt(w0, w, pd, f);
    }
  }

  lemma FreeAfterGrowthAt(w0: World, w: World, pd: nat, f: nat)
    requires WorldOk(w0) && WorldOk(w) && pd in w0.dirs && Grew(w0, w, pd) && Owned(w0.mem, pd) == {pd}
    ensures f in FreeWorld(w, pd).clear <==> f in w0.clear + {pd} - Lost(w0, w, pd)
  {
    hide Present; hide FrameOf; hide DirectoryOk; hide LeavesOk; hide Owned; hide Walk;
    DirectoryIsUsed(w0, pd);
    OwnedByRole(w0, pd, f);
    OwnedByRole(w, pd, f);
  }

  // ---------------------------------------------------------------- what growing leaves to others

  /** Growing one directory leaves what every other directory owns as it was. */
  lemma GrewKeepsOthers(w0: World, w: World, pd: nat, d: nat)
    requires WorldOk(w0) && d in w0.dirs && d != pd && d < PHYS_FRAMES && pd in w0.dirs && Grew(w0, w, pd)
    ensures Owned(w.mem, d) == Owned(w0.mem, d)
  {
    hide Present; hide FrameOf; hide Walk; hide Writable; hide User;
    assert DirectoryOk(w0, d) && DirectoryOk(w0, pd);
    assert !Writes(w0, pd, d) && w.mem[d] == w0.mem[d];
    forall i: nat | IDENTITY_TABLES <= i < ENTRIES && Present(w0.mem[d][i])
      ensures w.mem[FrameOf(w0.mem[d][i])] == w0.mem[FrameOf(w0.mem[d][i])]
    {
      assert HasRole(w0, FrameOf(w0.mem[d][i]), TableOf(d, i));
      assert !Writes(w0, pd, FrameOf(w0.mem[d][i]));
    }
    forall i: nat, j: nat | IDENTITY_TABLES <= i < ENTRIES && j < ENTRIES
      ensures IsMapped(w.mem, d, i, j) == IsMapped(w0.mem, d, i, j)
      ensures IsMapped(w0.mem, d, i, j) ==> Pte(w.mem, d, i, j) == Pte(w0.mem, d, i, j)
    {
    }
    assert Tables(w.mem, d) == Tables(w0.mem, d);
    assert Leaves(w.mem, d) == Leaves(w0.mem, d);
  }

  /** A frame in use that no directory owns and no process has for a stack. */
  ghost predicate Orphan(w: World, f: nat) {
    && f in w.role && !w.role[f].Reserved?
    && forall d :: d in w.dirs ==> d < PHYS_FRAMES && f !in Owned(w.mem, d)
  }

  lemma GrewKeepsOrphan(w0: World, w: World, pd: nat, f: nat)
    requires WorldOk(w0) && WorldOk(w) && pd in w0.dirs && Grew(w0, w, pd) && Orphan(w0, f)
    ensures Orphan(w, f)
  {
    hide Present; hide FrameOf; hide Walk; hide DirectoryOk; hide LeavesOk; hide Owned;
    OwnedByRole(w0, pd, f);
    OwnedByRole(w, pd, f);
    forall d | d in w.dirs && d != pd ensures f !in Owned(w.mem, d) { GrewKeepsOthers(w0, w, pd, d); }
  }

  /** The lost frames of a growth are orphans. */
  lemma LostIsOrphan(w0: World, w: World, pd: nat, f: nat)
    requires WorldOk(w0) && WorldOk(w) && pd in w0.dirs && Grew(w0, w, pd) && f in Lost(w0, w, pd)
    ensures Orphan(w, f)
  {
    hide Present; hide FrameOf; hide Walk; hide DirectoryOk; hide LeavesOk; hide Owned;
    assert f !in w0.role;
    forall d | d in w.dirs ensures d < PHYS_FRAMES && f !in Owned(w.mem, d) {
      DirectoryIsUsed(w0, d);
      OwnedByRole(w, d, f);
    }
  }

  // ---------------------------------------------------------------- growth as a sequence of mappings

  /** One mapping: frame `f` filled with `page` and mapped at (i, j) by `entry`, `spare` being used for a table. */
  datatype Mapping = Mapping(i: nat, j: nat, f: nat, page: Page, entry: Word, spare: nat)

  /** The mapping takes free frames, and a table only where the slot has none. */
  ghost predicate Maps(w: World, pd: nat, m: Mapping) {
    && pd in w.dirs && pd < PHYS_FRAMES && m.i < ENTRIES && m.j < ENTRIES && m.spare < PHYS_FRAMES
    && m.f in w.clear && m.f < PHYS_FRAMES && Present(m.entry) && FrameOf(m.entry) == m.f
    && (Present(w.mem[pd][m.i]) || (m.spare in w.clear && m.spare != m.f))
  }

  ghost function Mapped(w: World, pd: nat, m: Mapping): World
    requires Maps(w, pd, m)
  {
    LeafWorld(TakeFrame(w, m.f, m.page), pd, m.i, m.j, m.entry, m.spare)
  }

  ghost predicate MapTrace(ws: seq<World>, ms: seq<Mapping>, pd: nat) {
    && |ws| == |ms| + 1
    && forall k :: 0 <= k < |ms| ==> Maps(ws[k], pd, ms[k]) && ws[k + 1] == Mapped(ws[k], pd, ms[k])
  }

  /** `w` comes from `w0` by mapping pages into `pd`, one after another. */
  ghost predicate GrewBySteps(w0: World, w: World, pd: nat) {
    exists ws: seq<World>, ms: seq<Mapping> :: MapTrace(ws, ms, pd) && ws[0] == w0 && ws[|ms|] == w
  }

  lemma MapsCanGrow(w: World, pd: nat, m: Mapping)
    requires WorldOk(w) && Maps(w, pd, m)
    ensures CanGrow(w, pd, m.i, m.j, m.f, m.page, m.entry, m.spare)
    ensures Mapped(w, pd, m) == GrowWorld(w, pd, m.i, m.j, m.f, m.page, m.entry, m.spare)
  {
    hide Present; hide FrameOf; hide DirectoryOk; hide LeavesOk; hide MapMem;
    TakeKeepsWorld(w, m.f, m.page);
    DirectoryIsUsed(w, pd);
  }

  lemma CanGrowMaps(w: World, pd: nat, i: nat, j: nat, f: nat, page: Page, entry: Word, spare: nat)
    requires CanGrow(w, pd, i, j, f, page, entry, spare)
    ensures var m := Mapping(i, j, f, page, entry, spare);
            Maps(w, pd, m) && Mapped(w, pd, m) == GrowWorld(w, pd, i, j, f, page, entry, spare)
  {
    hide Present; hide FrameOf; hide DirectoryOk; hide LeavesOk; hide MapMem;
    DirectoryIsUsed(w, pd);
  }

  /** Mapping pages, however many, keeps the world in order and is growth. */
  lemma {:induction false} TraceGrew(ws: seq<World>, ms: seq<Mapping>, pd: nat, n: nat)
    requires MapTrace(ws, ms, pd) && n <= |ms| && WorldOk(ws[0]) && pd < PHYS_FRAMES
    ensures WorldOk(ws[n]) && Grew(ws[0], ws[n], pd)
    decreases n
  {
    hide WorldOk; hide Grew; hide Maps; hide Mapped; hide CanGrow; hide GrowWorld;
    if n == 0 {
      GrewReflexive(ws[0], pd);
    } else {
      TraceGrew(ws, ms, pd, n - 1);
      var k := n - 1;
      var m := ms[k];
      assert ws[k + 1] == Mapped(ws[k], pd, m);
      MapsCanGrow(ws[k], pd, m);
      GrowTwice(ws[0], ws[k], pd, m.i, m.j, m.f, m.page, m.entry, m.spare);
    }
  }

  lemma StepsGrew(w0: World, w: World, pd: nat)
    requires GrewBySteps(w0, w, pd) && WorldOk(w0) && pd < PHYS_FRAMES
    ensures WorldOk(w) && Grew(w0, w, pd)
  {
    hide WorldOk; hide Grew; hide Maps; hide Mapped;
    var ws: seq<World>, ms: seq<Mapping> :| MapTrace(ws, ms, pd) && ws[0] == w0 && ws[|ms|] == w;
    TraceGrew(ws, ms, pd, |ms|);
  }

  lemma StepsNone(w: World, pd: nat)
    ensures GrewBySteps(w, w, pd)
  {
    var ws, ms := [w], [];
    assert MapTrace(ws, ms, pd) && ws[0] == w && ws[|ms|] == w;
  }

  lemma StepsOneMore(w0: World, w: World, pd: nat, i: nat, j: nat, f: nat, page: Page, entry: Word, spare: nat)
    requires GrewBySteps(w0, w, pd) && CanGrow(w, pd, i, j, f, page, entry, spare)
    ensures GrewBySteps(w0, GrowWorld(w, pd, i, j, f, page, entry, spare), pd)
  {
    hide CanGrow; hide GrowWorld; hide Maps; hide Mapped;
    var ws: seq<World>, ms: seq<Mapping> :| MapTrace(ws, ms, pd) && ws[0] == w0 && ws[|ms|] == w;
    var m, v := Mapping(i, j, f, page, entry, spare), GrowWorld(w, pd, i, j, f, page, entry, spare);
    CanGrowMaps(w, pd, i, j, f, page, entry, spare);
    var ws', ms' := ws + [v], ms + [m];
    forall k | 0 <= k < |ms'| ensures Maps(ws'[k], pd, ms'[k]) && ws'[k + 1] == Mapped(ws'[k], pd, ms'[k]) {
      assert k < |ms| ==> Maps(ws[k], pd, ms[k]) && ws[k + 1] == Mapped(ws[k], pd, ms[k]);
    }
    assert MapTrace(ws', ms', pd) && ws'[0] == w0 && ws'[|ms'|] == v;
  }

  lemma StepsTwice(w0: World, w1: World, w2: World, pd: nat)
    requires GrewBySteps(w0, w1, pd) && GrewBySteps(w1, w2, pd)
    ensures GrewBySteps(w0, w2, pd)
  {
    hide Maps; hide Mapped;
    var ws: seq<World>, ms: seq<Mapping> :| MapTrace(ws, ms, pd) && ws[0] == w0 && ws[|ms|] == w1;
    var vs: seq<World>, ns: seq<Mapping> :| MapTrace(vs, ns, pd) && vs[0] == w1 && vs[|ns|] == w2;
    var us, ls := ws + vs[1..], ms + ns;
    forall k | 0 <= k < |ls| ensures Maps(us[k], pd, ls[k]) && us[k + 1] == Mapped(us[k], pd, ls[k]) {
      if k < |ms| {
        assert Maps(ws[k], pd, ms[k]) && us[k] == ws[k] && us[k + 1] == ws[k + 1];
      } else {
        var n := k - |ms|;
        assert Maps(vs[n], pd, ns[n]) && us[k] == vs[n] && us[k + 1] == vs[n + 1];
      }
    }
    assert MapTrace(us, ls, pd) && us[0] == w0 && us[|ls|] == w2;
  }
}
