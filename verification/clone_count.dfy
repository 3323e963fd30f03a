/**
 How many frames a clone takes, and so exactly when it succeeds: one for the
 directory, one for each mapped page above the shared window, and one for each
 table that maps such a page.
 */
module CloneCount {
  import opened Machine
  import opened FrameAllocator
  import opened AddressSpace
  import opened CloneSpec

  /** What a frame of an address space can be. */
  datatype Part = Root | Table(i: nat) | Leaf(i: nat, j: nat)

  /** The parts a clone of `d` has to be given frames for. */
  ghost function Needed(m: Memory, d: nat): set<Part>
    requires d < PHYS_FRAMES
  {
    {Root}
    + (set i: nat, j: nat | IDENTITY_TABLES <= i < ENTRIES && j < ENTRIES && IsMapped(m, d, i, j) :: Table(i))
    + (set i: nat, j: nat | IDENTITY_TABLES <= i < ENTRIES && j < ENTRIES && IsMapped(m, d, i, j) :: Leaf(i, j))
  }

  /** Every table above the shared window maps a page. */
  ghost predicate NoEmptyTable(m: Memory, d: nat)
    requires d < PHYS_FRAMES
  {
    forall i: nat :: IDENTITY_TABLES <= i < ENTRIES && Present(m[d][i]) ==>
      exists j: nat :: j < ENTRIES && IsMapped(m, d, i, j)
  }

  function FrameFor(m: Memory, d: nat, p: Part): nat
    requires d < PHYS_FRAMES
  {
    match p
    case Root => d
    case Table(i) => if i < ENTRIES then FrameOf(m[d][i]) else 0
    case Leaf(i, j) => if i < ENTRIES && j < ENTRIES then FrameOf(Pte(m, d, i, j)) else 0
  }

  lemma {:induction false} ImageSize(parts: set<Part>, m: Memory, d: nat)
    requires d < PHYS_FRAMES
    requires forall p, q :: p in parts && q in parts && FrameFor(m, d, p) == FrameFor(m, d, q) ==> p == q
    ensures |set p | p in parts :: FrameFor(m, d, p)| == |parts|
    decreases |parts|
  {
    hide FrameFor;
    if parts != {} {
      var x :| x in parts;
      var rest := parts - {x};
      ImageSize(rest, m, d);
      var image := set p | p in parts :: FrameFor(m, d, p);
      var before := set p | p in rest :: FrameFor(m, d, p);
      assert FrameFor(m, d, x) !in before;
      assert image == before + {FrameFor(m, d, x)};
      assert parts == rest + {x};
    }
  }

  ghost function RoleFor(d: nat, p: Part): Role {
    match p
    case Root => Directory
    case Table(i) => TableOf(d, i)
    case Leaf(i, j) => LeafOf(d, i, j)
  }

  lemma PartHasRole(w: World, d: nat, p: Part)
    requires WorldOk(w) && d in w.dirs && d < PHYS_FRAMES && p in Needed(w.mem, d)
    ensures HasRole(w, FrameFor(w.mem, d, p), RoleFor(d, p))
  {
    hide Present; hide FrameOf; hide Writable; hide User;
    assert DirectoryOk(w, d) && LeavesOk(w, d);
  }

  /** An address space without empty tables owns exactly one frame for each part. */
  lemma OwnedCount(w: World, d: nat)
    requires WorldOk(w) && d in w.dirs && d < PHYS_FRAMES && NoEmptyTable(w.mem, d)
    ensures |Owned(w.mem, d)| == |Needed(w.mem, d)|
  {
    forall p, q | p in Needed(w.mem, d) && q in Needed(w.mem, d) && FrameFor(w.mem, d, p) == FrameFor(w.mem, d, q)
      ensures p == q
    {
      PartHasRole(w, d, p);
      PartHasRole(w, d, q);
    }
    ImageSize(Needed(w.mem, d), w.mem, d);
    OwnedIsImage(w.mem, d);
  }

  lemma OwnedIsImage(m: Memory, d: nat)
    requires d < PHYS_FRAMES && NoEmptyTable(m, d)
    ensures Owned(m, d) == set p | p in Needed(m, d) :: FrameFor(m, d, p)
  {
    hide Present; hide FrameOf;
    var image := set p | p in Needed(m, d) :: FrameFor(m, d, p);
    forall f | f in Owned(m, d) ensures f in image {
      if f in Tables(m, d) {
        var i: nat :| IDENTITY_TABLES <= i < ENTRIES && Present(m[d][i]) && FrameOf(m[d][i]) == f;
        var j: nat :| j < ENTRIES && IsMapped(m, d, i, j);
        assert Table(i) in Needed(m, d) && FrameFor(m, d, Table(i)) == f;
      } else if f in Leaves(m, d) {
        var i: nat, j: nat :| IDENTITY_TABLES <= i < ENTRIES && j < ENTRIES && IsMapped(m, d, i, j)
          && FrameOf(Pte(m, d, i, j)) == f;
        assert Leaf(i, j) in Needed(m, d) && FrameFor(m, d, Leaf(i, j)) == f;
      } else {
        assert Root in Needed(m, d) && FrameFor(m, d, Root) == f;
      }
    }
    forall f | f in image ensures f in Owned(m, d) {
      var p :| p in Needed(m, d) && FrameFor(m, d, p) == f;
    }
  }

  /** A copied page is mapped in both or in neither; a page not yet reached is absent. */
  lemma MappedSoFar(w0: World, w: World, parent: nat, child: nat, i: nat, j: nat, a: nat, b: nat)
    requires Cloning(w0, w, parent, child, i, j) && IDENTITY_TABLES <= a < ENTRIES && b < ENTRIES
    ensures IsMapped(w.mem, child, a, b) <==> IsMapped(w0.mem, parent, a, b) && Before(a, b, i, j)
  {
    hide Present; hide FrameOf; hide FlagsOf; hide WorldOk; hide OnlyFreshTouched;
    assert Walk(w.mem, child, a, b).MapsTo? <==> IsMapped(w.mem, child, a, b);
    assert Walk(w0.mem, parent, a, b).MapsTo? <==> IsMapped(w0.mem, parent, a, b);
  }

  /** The parts that have frames by the time page (i, j) is reached. */
  ghost function NeededBefore(m: Memory, d: nat, i: nat, j: nat): set<Part>
    requires d < PHYS_FRAMES
  {
    {Root}
    + (set a: nat, b: nat | IDENTITY_TABLES <= a < ENTRIES && b < ENTRIES && IsMapped(m, d, a, b)
      && Before(a, b, i, j) :: Table(a))
    + (set a: nat, b: nat | IDENTITY_TABLES <= a < ENTRIES && b < ENTRIES && IsMapped(m, d, a, b)
      && Before(a, b, i, j) :: Leaf(a, b))
  }

  lemma NeededAll(m: Memory, d: nat)
    requires d < PHYS_FRAMES
    ensures NeededBefore(m, d, ENTRIES, 0) == Needed(m, d)
  {
    hide IsMapped;
    assert forall a: nat, b: nat :: a < ENTRIES ==> Before(a, b, ENTRIES, 0);
  }

  /** A clone that has reached page (i, j) has taken exactly one frame for each part before it. */
  lemma TakenSoFar(w0: World, w: World, parent: nat, child: nat, i: nat, j: nat)
    requires Cloning(w0, w, parent, child, i, j) && NoEmptyTable(w.mem, child)
    ensures parent < PHYS_FRAMES
    ensures Needed(w.mem, child) == NeededBefore(w0.mem, parent, i, j)
    ensures |w0.clear| - |w.clear| == |NeededBefore(w0.mem, parent, i, j)|
  {
    hide Present; hide FrameOf; hide IsMapped; hide WorldOk; hide Owned; hide Walk; hide SamePage;
    OwnedCount(w, child);
    forall a: nat, b: nat | IDENTITY_TABLES <= a < ENTRIES && b < ENTRIES
      ensures IsMapped(w.mem, child, a, b) <==> IsMapped(w0.mem, parent, a, b) && Before(a, b, i, j)
    {
      MappedSoFar(w0, w, parent, child, i, j, a, b);
    }
    assert Needed(w.mem, child) == NeededBefore(w0.mem, parent, i, j);
    assert w0.clear == w.clear + Owned(w.mem, child);
  }

  // ---------------------------------------------------------------- how a clone ends

  /** How copying pages can end: done, no frame left for a page, or no frame left for a table. */
  datatype CopyResult = Copied | NoFrame | Halted

  /** With `free` frames the clone runs out just when it needs a frame for page (i, j). */
  ghost predicate StopsAtPage(m: Memory, d: nat, free: nat, i: nat, j: nat)
    requires d < PHYS_FRAMES
  {
    && IDENTITY_TABLES <= i < ENTRIES && j < ENTRIES && IsMapped(m, d, i, j)
    && |NeededBefore(m, d, i, j)| == free
  }

  /** With `free` frames the last one goes to page (i, j), whose table still has to be made. */
  ghost predicate StopsAtTable(m: Memory, d: nat, free: nat, i: nat, j: nat)
    requires d < PHYS_FRAMES
  {
    && IDENTITY_TABLES <= i < ENTRIES && j < ENTRIES && IsMapped(m, d, i, j)
    && Table(i) !in NeededBefore(m, d, i, j)
    && |NeededBefore(m, d, i, j)| + 1 == free
  }

  /** How cloning `d` ends when `free` frames are free. */
  ghost predicate CloneEnds(r: CopyResult, m: Memory, d: nat, free: nat)
    requires d < PHYS_FRAMES
  {
    match r
    case Copied => free >= |Needed(m, d)|
    case NoFrame => free == 0 || exists i: nat, j: nat :: StopsAtPage(m, d, free, i, j)
    case Halted => exists i: nat, j: nat :: StopsAtTable(m, d, free, i, j)
  }

  lemma SizeBelow(s: set<Part>, t: set<Part>)
    requires s <= t
    ensures |s| <= |t|
  {
    assert t == s + (t - s);
  }

  lemma NeededWidens(m: Memory, d: nat, i: nat, j: nat, i': nat, j': nat)
    requires d < PHYS_FRAMES && IDENTITY_TABLES <= i < ENTRIES && j < ENTRIES && IsMapped(m, d, i, j)
             && Before(i, j, i', j')
    ensures NeededBefore(m, d, i, j) <= NeededBefore(m, d, i', j')
    ensures Leaf(i, j) in NeededBefore(m, d, i', j') && Table(i) in NeededBefore(m, d, i', j')
    ensures Leaf(i, j) !in NeededBefore(m, d, i, j)
  {
    hide IsMapped;
    assert forall a: nat, b: nat :: Before(a, b, i, j) ==> Before(a, b, i', j');
  }

  /** Past page (i, j) its page frame and its table are among the parts. */
  lemma NeededGrows(m: Memory, d: nat, i: nat, j: nat, i': nat, j': nat)
    requires d < PHYS_FRAMES && IDENTITY_TABLES <= i < ENTRIES && j < ENTRIES && IsMapped(m, d, i, j)
             && Before(i, j, i', j')
    ensures |NeededBefore(m, d, i, j)| + 1 <= |NeededBefore(m, d, i', j')|
    ensures Table(i) !in NeededBefore(m, d, i, j) ==> |NeededBefore(m, d, i, j)| + 2 <= |NeededBefore(m, d, i', j')|
  {
    hide IsMapped; hide NeededBefore;
    var s, t := NeededBefore(m, d, i, j), NeededBefore(m, d, i', j');
    NeededWidens(m, d, i, j, i', j');
    SizeBelow(s + {Leaf(i, j)}, t);
    if Table(i) !in s { SizeBelow(s + {Leaf(i, j), Table(i)}, t); }
  }

  /** Stopping at a page or at a table means there were too few frames, and not both happen. */
  lemma StopsTooEarly(m: Memory, d: nat, free: nat, i: nat, j: nat)
    requires d < PHYS_FRAMES && (StopsAtPage(m, d, free, i, j) || StopsAtTable(m, d, free, i, j))
    ensures free > 0 && free < |Needed(m, d)|
  {
    hide IsMapped;
    NeededGrows(m, d, i, j, ENTRIES, 0);
    NeededAll(m, d);
    SizeBelow({Root}, NeededBefore(m, d, i, j));
  }

  lemma StopsOnce(m: Memory, d: nat, free: nat, i: nat, j: nat, i': nat, j': nat)
    requires d < PHYS_FRAMES && StopsAtPage(m, d, free, i, j)
    ensures !StopsAtTable(m, d, free, i', j')
  {
    hide IsMapped; hide NeededBefore;
    if IDENTITY_TABLES <= i' < ENTRIES && j' < ENTRIES && IsMapped(m, d, i', j') {
      if Before(i, j, i', j') {
        NeededGrows(m, d, i, j, i', j');
      } else if Before(i', j', i, j) {
        NeededGrows(m, d, i', j', i, j);
      }
    }
  }

  /** The number of free frames alone decides how a clone ends. */
  lemma CloneEndsOneWay(r: CopyResult, r': CopyResult, m: Memory, d: nat, free: nat)
    requires d < PHYS_FRAMES && CloneEnds(r, m, d, free) && CloneEnds(r', m, d, free)
    ensures r == r'
  {
    hide StopsAtPage; hide StopsAtTable;
    NeededSomething(m, d);
    forall i: nat, j: nat | StopsAtPage(m, d, free, i, j) ensures 0 < free < |Needed(m, d)| {
      StopsTooEarly(m, d, free, i, j);
    }
    forall i: nat, j: nat | StopsAtTable(m, d, free, i, j) ensures 0 < free < |Needed(m, d)| {
      StopsTooEarly(m, d, free, i, j);
    }
    forall i: nat, j: nat, i': nat, j': nat | StopsAtPage(m, d, free, i, j)
      && StopsAtTable(m, d, free, i', j') ensures false {
      StopsOnce(m, d, free, i, j, i', j');
    }
  }

  lemma NeededSomething(m: Memory, d: nat)
    requires d < PHYS_FRAMES
    ensures |Needed(m, d)| >= 1
  {
    SizeBelow({Root}, Needed(m, d));
  }

  /** Running out of frames at page (i, j): there was none for it, or none for its table. */
  lemma RunsOut(w0: World, w: World, parent: nat, child: nat, i: nat, j: nat)
    requires Cloning(w0, w, parent, child, i, j) && NoEmptyTable(w.mem, child)
    requires IDENTITY_TABLES <= i < ENTRIES && j < ENTRIES && Walk(w0.mem, parent, i, j).MapsTo?
    ensures parent < PHYS_FRAMES
    ensures w.clear == {} ==> CloneEnds(NoFrame, w0.mem, parent, |w0.clear|)
    ensures |w.clear| == 1 && !Present(w.mem[child][i]) ==> CloneEnds(Halted, w0.mem, parent, |w0.clear|)
  {
    hide Cloning; hide NoEmptyTable; hide Present; hide FrameOf;
    CloneFrames(w0, w, parent, child, i, j);
    TakenSoFar(w0, w, parent, child, i, j);
    assert IsMapped(w0.mem, parent, i, j);
    if !Present(w.mem[child][i]) { NoTablePart(w.mem, child, i); }
    hide NeededBefore; hide Needed; hide IsMapped;
    if w.clear == {} {
      assert StopsAtPage(w0.mem, parent, |w0.clear|, i, j);
    } else if |w.clear| == 1 && !Present(w.mem[child][i]) {
      assert StopsAtTable(w0.mem, parent, |w0.clear|, i, j);
    }
  }

  lemma NoTablePart(m: Memory, d: nat, i: nat)
    requires d < PHYS_FRAMES && i < ENTRIES && !Present(m[d][i])
    ensures Table(i) !in Needed(m, d)
  {
  }

  lemma CloneFrames(w0: World, w: World, parent: nat, child: nat, i: nat, j: nat)
    requires Cloning(w0, w, parent, child, i, j)
    ensures parent < PHYS_FRAMES && child < PHYS_FRAMES && child in w.dirs && WorldOk(w)
  {
  }

  /** A finished clone took exactly what it needs. */
  lemma FinishedClone(w0: World, w: World, parent: nat, child: nat)
    requires Cloning(w0, w, parent, child, ENTRIES, 0) && NoEmptyTable(w.mem, child)
    ensures parent < PHYS_FRAMES && |w0.clear| - |w.clear| == |Needed(w0.mem, parent)|
  {
    hide Cloning; hide NoEmptyTable; hide Needed; hide NeededBefore;
    TakenSoFar(w0, w, parent, child, ENTRIES, 0);
    NeededAll(w0.mem, parent);
  }

  /** Copying one page leaves no empty table: a new table is made for the page it maps. */
  lemma CopyFillsTable(w0: World, w: World, v: World, parent: nat, child: nat, i: nat, j: nat, f: nat, entry: Word,
                       spare: nat)
    requires CopiesPage(w0, w, parent, child, i, j, f, entry, spare) && NoEmptyTable(w.mem, child)
    requires v == CopyWorld(w0, w, parent, child, i, j, f, entry, spare)
    ensures NoEmptyTable(v.mem, child)
  {
    hide Cloning; hide CopiesPage; hide IsMapped; hide Present; hide CopyWorld;
    CopyCopies(w0, w, parent, child, i, j, f, entry, spare);
    CloneFrames(w0, v, parent, child, i, j + 1);
    forall a: nat | IDENTITY_TABLES <= a < ENTRIES && Present(v.mem[child][a])
      ensures exists b: nat :: b < ENTRIES && IsMapped(v.mem, child, a, b)
    {
      CopySlots(w0, w, v, parent, child, i, j, f, entry, spare, a);
      var b: nat;
      if a == i { b := j; } else { b :| b < ENTRIES && IsMapped(w.mem, child, a, b); }
      MappedSoFar(w0, v, parent, child, i, j + 1, a, b);
      MappedSoFar(w0, w, parent, child, i, j, a, b);
    }
  }

  lemma CopySlots(w0: World, w: World, v: World, parent: nat, child: nat, i: nat, j: nat, f: nat, entry: Word,
                  spare: nat, a: nat)
    requires CopiesPage(w0, w, parent, child, i, j, f, entry, spare) && a < ENTRIES
    requires v == CopyWorld(w0, w, parent, child, i, j, f, entry, spare)
    ensures Cloning(w0, w, parent, child, i, j) && j < ENTRIES && IsMapped(w0.mem, parent, i, j)
    ensures Present(v.mem[child][a]) ==> a == i || Present(w.mem[child][a])
  {
    hide Present; hide MapMem; hide FrameOf; hide FlagsOf; hide OnlyFreshTouched;
    var u := TakeFrame(w, f, w0.mem[Walk(w0.mem, parent, i, j).frame]);
    SlotAfterMap(u, child, i, j, entry, spare, a);
    assert DirectoryOk(w, child);
  }

  /** A new directory has no tables of its own. */
  lemma NewHasNoTables(w: World, kernelPd: nat, d: nat)
    requires WorldOk(w) && kernelPd in w.dirs && kernelPd < PHYS_FRAMES && d in w.clear && d < PHYS_FRAMES
    ensures NoEmptyTable(CreateWorld(w, kernelPd, d).mem, d)
  {
    hide FrameOf;
  }
}
