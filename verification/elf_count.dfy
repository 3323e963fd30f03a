/**
 How many frames loading a program takes, and so exactly how a load ends: one
 for every page of every loadable segment, and one for each table that was
 missing.
 */
module ElfCount {
  import opened Machine
  import opened FrameAllocator
  import opened AddressSpace
  import opened CloneSpec
  import opened Growth
  import opened ElfSpec

  /** `LoadFailed` is the loader's 0 return, `LoadHalted` a kernel panic for want of a page table. */
  datatype LoadResult = LoadOk | LoadFailed | LoadHalted

  /** What a frame is taken for: page `vp` of segment `k`, or the table of slot `i`. */
  datatype Piece = PageOf(k: nat, vp: nat) | TableFor(i: nat)

  /** Slots of directory `pd` that have a table. */
  ghost function Slots(m: Memory, pd: nat): set<nat>
    requires pd < PHYS_FRAMES
  {
    set i: nat | i < ENTRIES && Present(m[pd][i])
  }

  /** Page `vp` of header `k` comes before page `q` of header `n`. */
  predicate Reached(hs: seq<Phdr>, n: nat, q: nat, k: nat, vp: nat) {
    k < |hs| && Covers(hs[k], vp) && Before(k, vp, n, q)
  }

  /** The pieces that have frames once page `q` of header `n` is reached, if the slots of `has` had tables. */
  ghost function Demand(has: set<nat>, hs: seq<Phdr>, n: nat, q: nat): set<Piece> {
    (set k: nat, vp: nat | k < |hs| && vp < PAGES && Reached(hs, n, q, k, vp) :: PageOf(k, vp))
    + (set k: nat, vp: nat | k < |hs| && vp < PAGES && Reached(hs, n, q, k, vp)
      && vp / 1024 !in has :: TableFor(vp / 1024))
  }

  /** Everything a load has to be given frames for. */
  ghost function FullDemand(has: set<nat>, hs: seq<Phdr>): set<Piece> { Demand(has, hs, |hs|, 0) }

  /** A frame for every page every segment meets, and one for every slot among them without a table. */
  lemma DemandLaw(has: set<nat>, hs: seq<Phdr>, x: Piece)
    ensures x in FullDemand(has, hs) <==>
            match x
            case PageOf(k, vp) => k < |hs| && vp < PAGES && Meets(hs[k], vp)
            case TableFor(i) =>
              i !in has && exists k: nat, vp: nat :: k < |hs| && vp < PAGES && Meets(hs[k], vp) && vp / 1024 == i
  {
    hide Meets; hide Covers;
    forall k: nat, vp: nat | k < |hs|
      ensures Reached(hs, |hs|, 0, k, vp) <==> Meets(hs[k], vp) { CoversIffMeets(hs[k], vp); }
  }

  // ---------------------------------------------------------------- counting along the load

  /** Exactly the demanded frames are gone, and exactly the demanded tables are there. */
  ghost predicate Counted(w0: World, w: World, pd: nat, hs: seq<Phdr>, n: nat, q: nat) {
    && pd < PHYS_FRAMES && w.clear <= w0.clear
    && |w0.clear| - |w.clear| == |Demand(Slots(w0.mem, pd), hs, n, q)|
    && forall i: nat :: i < ENTRIES ==>
         (Present(w.mem[pd][i]) <==> Present(w0.mem[pd][i]) || TableFor(i) in Demand(Slots(w0.mem, pd), hs, n, q))
  }

  lemma CountStart(w: World, pd: nat, hs: seq<Phdr>)
    requires pd < PHYS_FRAMES
    ensures Counted(w, w, pd, hs, 0, 0)
  {
    assert Demand(Slots(w.mem, pd), hs, 0, 0) == {};
  }

  /** Where no page lies between two positions, the demand is the same. */
  lemma SameDemand(has: set<nat>, hs: seq<Phdr>, n: nat, q: nat, n': nat, q': nat)
    requires forall k: nat, vp: nat :: Reached(hs, n, q, k, vp) <==> Reached(hs, n', q', k, vp)
    ensures Demand(has, hs, n, q) == Demand(has, hs, n', q')
  {
    hide Reached;
  }

  lemma CountNextHeader(w0: World, w: World, pd: nat, hs: seq<Phdr>, n: nat, q: nat)
    requires Counted(w0, w, pd, hs, n, q) && n < |hs| && (!Loads(hs[n]) || EndPage(hs[n]) <= q)
    ensures Counted(w0, w, pd, hs, n + 1, 0)
  {
    SameDemand(Slots(w0.mem, pd), hs, n, q, n + 1, 0);
  }

  lemma CountEnterHeader(w0: World, w: World, pd: nat, hs: seq<Phdr>, n: nat)
    requires Counted(w0, w, pd, hs, n, 0) && n < |hs|
    ensures Counted(w0, w, pd, hs, n, FirstPage(hs[n]))
  {
    SameDemand(Slots(w0.mem, pd), hs, n, 0, n, FirstPage(hs[n]));
  }

  /** One more page adds itself, and its table if the slot had none. */
  lemma DemandStep(has: set<nat>, hs: seq<Phdr>, n: nat, q: nat)
    requires n < |hs| && Covers(hs[n], q) && q < PAGES
    ensures Demand(has, hs, n, q + 1)
            == Demand(has, hs, n, q) + {PageOf(n, q)} + (if q / 1024 in has then {} else {TableFor(q / 1024)})
    ensures PageOf(n, q) !in Demand(has, hs, n, q)
  {
    var q' := q + 1;
    forall k: nat, vp: nat
      ensures Reached(hs, n, q', k, vp) <==> Reached(hs, n, q, k, vp) || (k == n && vp == q)
    {
    }
    var s := Demand(has, hs, n, q) + {PageOf(n, q)} + (if q / 1024 in has then {} else {TableFor(q / 1024)});
    hide Reached;
    assert Reached(hs, n, q', n, q);
    assert Demand(has, hs, n, q') == s;
  }

  lemma DemandSize(has: set<nat>, hs: seq<Phdr>, n: nat, q: nat)
    requires n < |hs| && Covers(hs[n], q) && q < PAGES
    ensures |Demand(has, hs, n, q + 1)| == |Demand(has, hs, n, q)| + 1
            + (if q / 1024 in has || TableFor(q / 1024) in Demand(has, hs, n, q) then 0 else 1)
  {
    hide Demand;
    DemandStep(has, hs, n, q);
    var s := Demand(has, hs, n, q) + {PageOf(n, q)};
    assert |s| == |Demand(has, hs, n, q)| + 1;
    if q / 1024 in has || TableFor(q / 1024) in Demand(has, hs, n, q) {
      assert Demand(has, hs, n, q + 1) == s;
    } else {
      assert Demand(has, hs, n, q + 1) == s + {TableFor(q / 1024)};
    }
  }

  /** Growing by one page takes its frame, and a second one exactly when the slot has no table. */
  lemma GrowTakes(w: World, pd: nat, i: nat, j: nat, f: nat, page: Page, entry: Word, spare: nat)
    requires CanGrow(w, pd, i, j, f, page, entry, spare)
    ensures var v := GrowWorld(w, pd, i, j, f, page, entry, spare);
            && pd < PHYS_FRAMES && i < ENTRIES && v.clear <= w.clear
            && |w.clear| - |v.clear| == (if Present(w.mem[pd][i]) then 1 else 2)
            && forall a: nat :: a < ENTRIES ==> (Present(v.mem[pd][a]) <==> a == i || Present(w.mem[pd][a]))
  {
    hide Present; hide FrameOf; hide FlagsOf; hide MapMem; hide WithTable; hide LeavesOk; hide DirectoryOk;
    var u := TakeFrame(w, f, page);
    DirectoryIsUsed(w, pd);
    forall a: nat | a < ENTRIES
      ensures Present(GrowWorld(w, pd, i, j, f, page, entry, spare).mem[pd][a]) <==> a == i || Present(w.mem[pd][a])
    {
      SlotAfterMap(u, pd, i, j, entry, spare, a);
    }
    SizeWithout(w.clear, f);
    SizeWithout(u.clear, spare);
  }

  lemma CountPage(w0: World, w: World, v: World, pd: nat, hs: seq<Phdr>, n: nat, q: nat, f: nat, page: Page,
                  entry: Word, spare: nat)
    requires Counted(w0, w, pd, hs, n, q) && n < |hs| && Covers(hs[n], q) && q < PAGES
    requires CanGrow(w, pd, q / 1024, q % 1024, f, page, entry, spare)
    requires v == GrowWorld(w, pd, q / 1024, q % 1024, f, page, entry, spare)
    ensures Counted(w0, v, pd, hs, n, q + 1)
  {
    hide Demand; hide CanGrow; hide GrowWorld; hide Present; hide Covers;
    var has := Slots(w0.mem, pd);
    GrowTakes(w, pd, q / 1024, q % 1024, f, page, entry, spare);
    DemandSize(has, hs, n, q);
    DemandStep(has, hs, n, q);
  }

  // ---------------------------------------------------------------- how a load ends

  /** With `free` frames the load runs out just when it needs a frame for page `q` of header `n`. */
  ghost predicate StopsAtPage(has: set<nat>, hs: seq<Phdr>, free: nat, n: nat, q: nat) {
    n < |hs| && Covers(hs[n], q) && q < PAGES && |Demand(has, hs, n, q)| == free
  }

  /** With `free` frames the last one goes to page `q` of header `n`, whose table still has to be made. */
  ghost predicate StopsAtTable(has: set<nat>, hs: seq<Phdr>, free: nat, n: nat, q: nat) {
    && n < |hs| && Covers(hs[n], q) && q < PAGES
    && q / 1024 !in has && TableFor(q / 1024) !in Demand(has, hs, n, q)
    && |Demand(has, hs, n, q)| + 1 == free
  }

  /** How loading `hs` ends when `free` frames are free and the slots of `has` have tables. */
  ghost predicate LoadEnds(r: LoadResult, has: set<nat>, hs: seq<Phdr>, free: nat) {
    match r
    case LoadOk => free >= |FullDemand(has, hs)|
    case LoadFailed => exists n: nat, q: nat :: StopsAtPage(has, hs, free, n, q)
    case LoadHalted => exists n: nat, q: nat :: StopsAtTable(has, hs, free, n, q)
  }

  lemma PiecesBelow(s: set<Piece>, t: set<Piece>)
    requires s <= t
    ensures |s| <= |t|
  {
    assert t == s + (t - s);
  }

  lemma DemandWidens(has: set<nat>, hs: seq<Phdr>, n: nat, q: nat, n': nat, q': nat)
    requires n < |hs| && Covers(hs[n], q) && q < PAGES && Before(n, q, n', q')
    ensures Demand(has, hs, n, q + 1) <= Demand(has, hs, n', q')
  {
    hide Covers;
    assert forall k: nat, vp: nat :: Reached(hs, n, q + 1, k, vp) ==> Reached(hs, n', q', k, vp);
    hide Reached;
  }

  /** Past a page, its frame and its table are among the pieces. */
  lemma DemandGrows(has: set<nat>, hs: seq<Phdr>, n: nat, q: nat, n': nat, q': nat)
    requires n < |hs| && Covers(hs[n], q) && q < PAGES && Before(n, q, n', q')
    ensures |Demand(has, hs, n, q)| + 1
            + (if q / 1024 in has || TableFor(q / 1024) in Demand(has, hs, n, q) then 0 else 1)
            <= |Demand(has, hs, n', q')|
  {
    hide Demand; hide Covers;
    DemandSize(has, hs, n, q);
    DemandWidens(has, hs, n, q, n', q');
    PiecesBelow(Demand(has, hs, n, q + 1), Demand(has, hs, n', q'));
  }

  lemma StopsOnce(has: set<nat>, hs: seq<Phdr>, free: nat, n: nat, q: nat, n': nat, q': nat)
    requires StopsAtPage(has, hs, free, n, q)
    ensures !StopsAtTable(has, hs, free, n', q')
  {
    hide Demand; hide Covers;
    if n' < |hs| && Covers(hs[n'], q') && q' < PAGES {
      if Before(n, q, n', q') {
        DemandGrows(has, hs, n, q, n', q');
      } else if Before(n', q', n, q) {
        DemandGrows(has, hs, n', q', n, q);
      }
    }
  }

  /** The headers, the tables and the number of free frames decide how a load ends. */
  lemma LoadEndsOneWay(r: LoadResult, r': LoadResult, has: set<nat>, hs: seq<Phdr>, free: nat)
    requires LoadEnds(r, has, hs, free) && LoadEnds(r', has, hs, free)
    ensures r == r'
  {
    hide Demand; hide Covers;
    forall n: nat, q: nat | StopsAtPage(has, hs, free, n, q) || StopsAtTable(has, hs, free, n, q)
      ensures free < |FullDemand(has, hs)|
    {
      DemandGrows(has, hs, n, q, |hs|, 0);
    }
    hide StopsAtPage; hide StopsAtTable;
    forall n: nat, q: nat, n': nat, q': nat
      | StopsAtPage(has, hs, free, n, q) && StopsAtTable(has, hs, free, n', q')
      ensures false
    {
      StopsOnce(has, hs, free, n, q, n', q');
    }
  }

  lemma LoadRunsOut(w0: World, w: World, pd: nat, hs: seq<Phdr>, n: nat, q: nat)
    requires Counted(w0, w, pd, hs, n, q) && n < |hs| && Covers(hs[n], q) && q < PAGES
    ensures w.clear == {} ==> LoadEnds(LoadFailed, Slots(w0.mem, pd), hs, |w0.clear|)
    ensures |w.clear| == 1 && !Present(w.mem[pd][q / 1024]) ==> LoadEnds(LoadHalted, Slots(w0.mem, pd), hs, |w0.clear|)
  {
    hide Demand; hide Covers; hide Present;
    var has := Slots(w0.mem, pd);
    if w.clear == {} {
      assert StopsAtPage(has, hs, |w0.clear|, n, q);
    } else if |w.clear| == 1 && !Present(w.mem[pd][q / 1024]) {
      assert StopsAtTable(has, hs, |w0.clear|, n, q);
    }
  }

  lemma LoadRanThrough(w0: World, w: World, pd: nat, hs: seq<Phdr>)
    requires Counted(w0, w, pd, hs, |hs|, 0)
    ensures LoadEnds(LoadOk, Slots(w0.mem, pd), hs, |w0.clear|)
    ensures |w0.clear| - |w.clear| == |FullDemand(Slots(w0.mem, pd), hs)|
  {
    hide Demand; hide Present;
  }
}
