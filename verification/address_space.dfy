/**
 Address spaces as values: two-level page tables stored in physical frames,
 the translation they define, and who owns which frame.
 Page-directory slots below IDENTITY_TABLES name the same tables in every
 directory; everything about ownership is stated for the slots above.
 */
module AddressSpace {
  import opened Machine
  import opened FrameAllocator

  const IDENTITY_TABLES: nat := 8        // IDENTITY_PT_COUNT

  // ---------------------------------------------------------------- entries

  predicate Present(e: Word) { e % 2 == 1 }
  predicate Writable(e: Word) { e / 2 % 2 == 1 }
  predicate User(e: Word) { e / 4 % 2 == 1 }

  function FrameOf(e: Word): (f: nat)
    ensures f < PHYS_FRAMES
  {
    e / 4096
  }

  /** The low three bits of `8 * k + r`, and where its page-frame part comes from. */
  lemma LowBits(k: nat, r: nat)
    requires r < 8
    ensures (8 * k + r) % 2 == r % 2 && (8 * k + r) / 2 % 2 == r / 2 % 2 && (8 * k + r) / 4 % 2 == r / 4
    ensures (8 * k + r) / 4096 == k / 512
  {
    Half(4 * k, r);
    Half(2 * k, r / 2);
    Half(k, r / 2 / 2);
    assert (8 * k + r) / 4 == (8 * k + r) / 2 / 2;
    var q, t := k / 512, k % 512;
    assert 8 * k + r == 4096 * q + (8 * t + r);
  }

  /** Halving `2 * a + r`. */
  lemma Half(a: nat, r: nat)
    ensures (2 * a + r) / 2 == a + r / 2 && (2 * a + r) % 2 == r % 2
  {
  }

  lemma FlagBits(q: nat, g: nat)
    requires g < 4096
    ensures (4096 * q + g) % 2 == g % 2
    ensures (4096 * q + g) / 2 % 2 == g / 2 % 2 && (4096 * q + g) / 4 % 2 == g / 4 % 2
  {
    var k, r := g / 8, g % 8;
    assert g == 8 * k + r && 4096 * q + g == 8 * (512 * q + k) + r;
    LowBits(512 * q + k, r);
    LowBits(k, r);
  }

  function FlagsOf(e: Word): (g: nat)
    ensures g < 4096
    ensures Present(g) == Present(e) && Writable(g) == Writable(e) && User(g) == User(e)
  {
    FlagBits(e / 4096, e % 4096);
    e % 4096
  }

  /** `(phys & ~0xFFF) | flags` for a frame number and 12 flag bits. */
  function Entry(frame: nat, flags: nat): (e: Word)
    requires frame < PHYS_FRAMES && flags < 4096
    ensures FrameOf(e) == frame && FlagsOf(e) == flags
    ensures Present(e) == Present(flags) && Writable(e) == Writable(flags) && User(e) == User(flags)
  {
    frame * 4096 + flags
  }

  /** `e | PDE_USER` */
  function WithUser(e: Word): (r: Word)
    ensures FrameOf(r) == FrameOf(e) && User(r)
    ensures Present(r) == Present(e) && Writable(r) == Writable(e)
  {
    var k, r := e / 8, e % 8;
    assert e == 8 * k + r;
    LowBits(k, r);
    if r >= 4 then e
    else
      LowBits(k, r + 4);
      e + 4
  }

  /** Flags of a page-directory entry created for a mapping with `flags`. */
  function TableFlags(flags: nat): (g: nat)
    ensures g < 4096 && Present(g) && Writable(g) && (User(g) <==> User(flags % 4096))
    requires flags < 4096
  {
    if User(flags) then 7 else 3
  }

  // ---------------------------------------------------------------- translation

  function Pte(m: Memory, pd: nat, i: nat, j: nat): Word
    requires pd < PHYS_FRAMES && i < ENTRIES && j < ENTRIES
  {
    m[FrameOf(m[pd][i])][j]
  }

  predicate IsMapped(m: Memory, pd: nat, i: nat, j: nat)
    requires pd < PHYS_FRAMES && i < ENTRIES && j < ENTRIES
  {
    Present(m[pd][i]) && Present(Pte(m, pd, i, j))
  }

  datatype Translation = NotMapped | MapsTo(frame: nat, flags: nat)

  /** The walk of the page with directory index `i` and table index `j`. */
  function Walk(m: Memory, pd: nat, i: nat, j: nat): Translation
    requires pd < PHYS_FRAMES && i < ENTRIES && j < ENTRIES
  {
    if IsMapped(m, pd, i, j) then MapsTo(FrameOf(Pte(m, pd, i, j)), FlagsOf(Pte(m, pd, i, j)))
    else NotMapped
  }

  /** Ring 3 may access a page only when both levels carry the user bit. */
  predicate UserPage(m: Memory, pd: nat, i: nat, j: nat)
    requires pd < PHYS_FRAMES && i < ENTRIES && j < ENTRIES
  {
    IsMapped(m, pd, i, j) && User(m[pd][i]) && User(Pte(m, pd, i, j))
  }

  predicate WritablePage(m: Memory, pd: nat, i: nat, j: nat)
    requires pd < PHYS_FRAMES && i < ENTRIES && j < ENTRIES
  {
    IsMapped(m, pd, i, j) && Writable(m[pd][i]) && Writable(Pte(m, pd, i, j))
  }

  /** What a walk finds after `entry` has been stored in a table. */
  function Installed(entry: Word): Translation {
    if Present(entry) then MapsTo(FrameOf(entry), FlagsOf(entry)) else NotMapped
  }

  // ---------------------------------------------------------------- ownership

  datatype Role =
    | Directory
    | IdentityTable(t: nat)
    | TableOf(dir: nat, i: nat)
    | LeafOf(dir: nat, i: nat, j: nat)
    | Reserved(owner: nat, part: nat)
    | HeapFrame

  /**
   Physical memory, the free frames, the live directories and, for every frame
   with a purpose, what it is for. A frame has one role, so entries that name
   frames of different roles name different frames.
   */
  datatype World = World(mem: Memory, clear: set<nat>, role: map<nat, Role>, dirs: set<nat>, identity: nat)

  ghost predicate HasRole(w: World, f: nat, r: Role) { f in w.role && w.role[f] == r }

  ghost predicate FramesOk(w: World) {
    && Tracked(w.clear)
    && 0 !in w.clear
    && (forall f :: f in w.role ==> 0 < f < MAX_FRAMES && f !in w.clear)
    && w.identity + IDENTITY_TABLES <= PHYS_FRAMES
  }

  ghost predicate DirectoryOk(w: World, d: nat) {
    && d < PHYS_FRAMES
    && HasRole(w, d, Directory)
    && (forall t: nat :: t < IDENTITY_TABLES ==>
          Present(w.mem[d][t]) && Writable(w.mem[d][t]) && FrameOf(w.mem[d][t]) == w.identity + t
          && HasRole(w, FrameOf(w.mem[d][t]), IdentityTable(t)))
    && (forall i: nat :: IDENTITY_TABLES <= i < ENTRIES && Present(w.mem[d][i]) ==>
          Writable(w.mem[d][i]) && HasRole(w, FrameOf(w.mem[d][i]), TableOf(d, i)))
    && (forall i: nat, j: nat :: IDENTITY_TABLES <= i < ENTRIES && j < ENTRIES && IsMapped(w.mem, d, i, j) ==>
          (User(Pte(w.mem, d, i, j)) ==> User(w.mem[d][i])))
  }

  ghost predicate TablesOk(w: World) {
    FramesOk(w) && forall d :: d in w.dirs ==> DirectoryOk(w, d)
  }

  ghost predicate LeavesOk(w: World, d: nat)
    requires d < PHYS_FRAMES
  {
    forall i: nat, j: nat :: IDENTITY_TABLES <= i < ENTRIES && j < ENTRIES && IsMapped(w.mem, d, i, j) ==>
      HasRole(w, FrameOf(Pte(w.mem, d, i, j)), LeafOf(d, i, j))
  }

  ghost predicate WorldOk(w: World) {
    TablesOk(w) && forall d :: d in w.dirs ==> LeavesOk(w, d)
  }

  // ---------------------------------------------------------------- mapping one page

  /** `paging_map_into` on memory; `spare` is the frame used when slot `i` has no table yet. */
  function MapMem(m: Memory, pd: nat, i: nat, j: nat, entry: Word, spare: nat): Memory
    requires pd < PHYS_FRAMES && i < ENTRIES && j < ENTRIES && spare < PHYS_FRAMES
  {
    WithEntry(WithTable(m, pd, i, FlagsOf(entry), spare), pd, i, j, entry)
  }

  /** The first half of `paging_map_into`: makes sure slot `i` has a table with the needed user bit. */
  function WithTable(m: Memory, pd: nat, i: nat, flags: nat, spare: nat): Memory
    requires pd < PHYS_FRAMES && i < ENTRIES && flags < 4096 && spare < PHYS_FRAMES
  {
    if !Present(m[pd][i]) then
      var z: Memory := m[spare := ZeroPage()];
      z[pd := z[pd][i := Entry(spare, TableFlags(flags))]]
    else if User(flags) then m[pd := m[pd][i := WithUser(m[pd][i])]]
    else m
  }

  /** The world after the table half; the new table leaves the free set and gets its role. */
  ghost function TableWorld(w: World, pd: nat, i: nat, flags: nat, spare: nat): (v: World)
    requires pd < PHYS_FRAMES && i < ENTRIES && flags < 4096 && spare < PHYS_FRAMES
    ensures v.dirs == w.dirs && v.identity == w.identity
  {
    var m := WithTable(w.mem, pd, i, flags, spare);
    if Present(w.mem[pd][i]) then w.(mem := m)
    else w.(mem := m, clear := w.clear - {spare}, role := w.role[spare := TableOf(pd, i)])
  }

  ghost function MapWorld(w: World, pd: nat, i: nat, j: nat, entry: Word, spare: nat): World
    requires pd < PHYS_FRAMES && i < ENTRIES && j < ENTRIES && spare < PHYS_FRAMES
  {
    TableWorld(w, pd, i, FlagsOf(entry), spare).(mem := MapMem(w.mem, pd, i, j, entry, spare))
  }

  /** What the source needs to map a page: a live directory, and a free frame if a table is missing. */
  ghost predicate CanMap(w: World, pd: nat, i: nat, j: nat, spare: nat) {
    && TablesOk(w) && pd in w.dirs && pd < PHYS_FRAMES
    && i < ENTRIES && j < ENTRIES && spare < PHYS_FRAMES
    && (Present(w.mem[pd][i]) || (spare in w.clear && spare !in w.role))
  }

  lemma TableHalfKeepsPte(w: World, pd: nat, i: nat, flags: nat, spare: nat, d: nat, a: nat, b: nat)
    requires CanMap(w, pd, i, 0, spare) && flags < 4096
    requires d in w.dirs && a < ENTRIES && b < ENTRIES
    ensures d < PHYS_FRAMES
    ensures var m := WithTable(w.mem, pd, i, flags, spare);
            && (d != pd || a != i ==> m[d][a] == w.mem[d][a])
            && (Present(w.mem[d][a]) ==>
                  FrameOf(m[d][a]) == FrameOf(w.mem[d][a]) && Pte(m, d, a, b) == Pte(w.mem, d, a, b))
            && Walk(m, d, a, b) == Walk(w.mem, d, a, b)
  {
    assert !Present(0);
    hide Present; hide Writable; hide User; hide FrameOf; hide FlagsOf; hide Entry; hide WithUser; hide TableFlags;
    assert DirectoryOk(w, d) && DirectoryOk(w, pd);
    var m := WithTable(w.mem, pd, i, flags, spare);
    if Present(w.mem[d][a]) {
      var t := FrameOf(w.mem[d][a]);
      assert HasRole(w, t, if a < IDENTITY_TABLES then IdentityTable(a) else TableOf(d, a));
      assert t != pd && m[t] == w.mem[t];
    }
  }

  /** The table half changes no translation and keeps every directory in order. */
  lemma TableHalf(w: World, pd: nat, i: nat, j: nat, flags: nat, spare: nat)
    requires CanMap(w, pd, i, j, spare) && flags < 4096
    ensures var v := TableWorld(w, pd, i, flags, spare);
            && TablesOk(v)
            && Present(v.mem[pd][i]) && (User(flags) ==> User(v.mem[pd][i]))
            && forall d, a: nat, b: nat :: d in w.dirs && a < ENTRIES && b < ENTRIES ==>
                 Walk(v.mem, d, a, b) == Walk(w.mem, d, a, b)
  {
    hide Present; hide Writable; hide User; hide FrameOf; hide FlagsOf; hide Entry; hide WithUser; hide TableFlags;
    var v := TableWorld(w, pd, i, flags, spare);
    forall d, a: nat, b: nat | d in w.dirs && a < ENTRIES && b < ENTRIES
      ensures Walk(v.mem, d, a, b) == Walk(w.mem, d, a, b)
    {
      TableHalfKeepsPte(w, pd, i, flags, spare, d, a, b);
    }
    forall d | d in w.dirs ensures DirectoryOk(v, d) {
      forall a: nat | a < ENTRIES ensures d != pd || a != i ==> v.mem[d][a] == w.mem[d][a] {
        TableHalfKeepsPte(w, pd, i, flags, spare, d, a, 0);
      }
      assert DirectoryOk(w, d);
      forall a: nat, b: nat | IDENTITY_TABLES <= a < ENTRIES && b < ENTRIES && IsMapped(v.mem, d, a, b)
        ensures User(Pte(v.mem, d, a, b)) ==> User(v.mem[d][a])
      {
        TableHalfKeepsPte(w, pd, i, flags, spare, d, a, b);
        assert IsMapped(w.mem, d, a, b);
      }
    }
  }

  /** Does writing slot (i, j) of directory `pd` show up as slot (a, b) of directory `d`? */
  predicate SameSlot(pd: nat, i: nat, j: nat, d: nat, a: nat, b: nat) {
    a == i && b == j && (d == pd || i < IDENTITY_TABLES)
  }

  /** The second half of `paging_map_into`, once slot `i` has a table. */
  function WithEntry(m: Memory, pd: nat, i: nat, j: nat, entry: Word): Memory
    requires pd < PHYS_FRAMES && i < ENTRIES && j < ENTRIES
  {
    var t := FrameOf(m[pd][i]);
    m[t := m[t][j := entry]]
  }

  lemma EntryHalfPte(w: World, pd: nat, i: nat, j: nat, entry: Word, d: nat, a: nat, b: nat)
    requires TablesOk(w) && pd in w.dirs && pd < PHYS_FRAMES && i < ENTRIES && j < ENTRIES
    requires Present(w.mem[pd][i])
    requires d in w.dirs && a < ENTRIES && b < ENTRIES
    ensures d < PHYS_FRAMES
    ensures var m := WithEntry(w.mem, pd, i, j, entry);
            && m[d] == w.mem[d]
            && (Present(m[d][a]) ==>
                  Pte(m, d, a, b) == if SameSlot(pd, i, j, d, a, b) then entry else Pte(w.mem, d, a, b))
  {
    hide Present; hide Writable; hide User; hide FrameOf; hide FlagsOf; hide Entry; hide WithUser; hide TableFlags;
    assert DirectoryOk(w, d) && DirectoryOk(w, pd);
    var m := WithEntry(w.mem, pd, i, j, entry);
    var t := FrameOf(w.mem[pd][i]);
    assert HasRole(w, t, if i < IDENTITY_TABLES then IdentityTable(i) else TableOf(pd, i));
    assert HasRole(w, d, Directory);
    if Present(w.mem[d][a]) {
      assert HasRole(w, FrameOf(w.mem[d][a]), if a < IDENTITY_TABLES then IdentityTable(a) else TableOf(d, a));
    }
  }

  lemma EntryHalf(w: World, pd: nat, i: nat, j: nat, entry: Word)
    requires TablesOk(w) && pd in w.dirs && pd < PHYS_FRAMES && i < ENTRIES && j < ENTRIES
    requires Present(w.mem[pd][i]) && (User(entry) ==> User(w.mem[pd][i]))
    ensures var m := WithEntry(w.mem, pd, i, j, entry);
            && TablesOk(w.(mem := m))
            && forall d, a: nat, b: nat :: d in w.dirs && a < ENTRIES && b < ENTRIES ==>
                 Walk(m, d, a, b) == if SameSlot(pd, i, j, d, a, b) then Installed(entry) else Walk(w.mem, d, a, b)
  {
    hide Writable; hide User; hide FrameOf; hide FlagsOf; hide Entry; hide WithUser; hide TableFlags; hide Present;
    var v := w.(mem := WithEntry(w.mem, pd, i, j, entry));
    forall d, a: nat, b: nat | d in w.dirs && a < ENTRIES && b < ENTRIES
      ensures Walk(v.mem, d, a, b) == if SameSlot(pd, i, j, d, a, b) then Installed(entry) else Walk(w.mem, d, a, b)
    {
      EntryHalfPte(w, pd, i, j, entry, d, a, b);
      assert DirectoryOk(w, d);
    }
    forall d | d in w.dirs ensures DirectoryOk(v, d) {
      assert DirectoryOk(w, d);
      EntryHalfPte(w, pd, i, j, entry, d, 0, 0);
      forall a: nat, b: nat | IDENTITY_TABLES <= a < ENTRIES && b < ENTRIES && IsMapped(v.mem, d, a, b)
        ensures User(Pte(v.mem, d, a, b)) ==> User(v.mem[d][a])
      {
        EntryHalfPte(w, pd, i, j, entry, d, a, b);
        if !SameSlot(pd, i, j, d, a, b) {
          assert IsMapped(w.mem, d, a, b);
        }
      }
    }
  }

  /**
   `paging_map_into` refines a single-point update of the translation: within
   its directory only the walk of the mapped page changes, and another
   directory sees the new entry exactly when the page lies in the shared window.
   */
  lemma MapRefinesUpdate(w: World, pd: nat, i: nat, j: nat, entry: Word, spare: nat)
    requires CanMap(w, pd, i, j, spare)
    ensures var v := MapWorld(w, pd, i, j, entry, spare);
            && TablesOk(v)
            && forall d, a: nat, b: nat :: d in w.dirs && a < ENTRIES && b < ENTRIES ==>
                 Walk(v.mem, d, a, b) == if SameSlot(pd, i, j, d, a, b) then Installed(entry) else Walk(w.mem, d, a, b)
  {
    var v := TableWorld(w, pd, i, FlagsOf(entry), spare);
    TableHalf(w, pd, i, j, FlagsOf(entry), spare);
    EntryHalf(v, pd, i, j, entry);
  }

  // ---------------------------------------------------------------- mapping a frame taken from the allocator

  /** Isolation holds exactly above the shared window: another directory sees a new page iff its slot is shared. */
  lemma SeenElsewhereIffShared(w: World, pd: nat, i: nat, j: nat, entry: Word, spare: nat, d: nat)
    requires CanMap(w, pd, i, j, spare) && d in w.dirs && d != pd && d < PHYS_FRAMES
    requires Present(entry) && Walk(w.mem, d, i, j) != Installed(entry)
    ensures Walk(MapWorld(w, pd, i, j, entry, spare).mem, d, i, j) == Installed(entry) <==> i < 8
  {
    hide Present; hide FrameOf; hide FlagsOf; hide Walk; hide MapMem; hide TablesOk;
    MapRefinesUpdate(w, pd, i, j, entry, spare);
  }

  /** Through directory `d`, every address of the first 32 MB still means the same physical address. */
  ghost predicate WindowIntact(m: Memory, d: nat)
    requires d < PHYS_FRAMES
  {
    forall i: nat, j: nat :: i < IDENTITY_TABLES && j < ENTRIES ==>
      Walk(m, d, i, j).MapsTo? && Walk(m, d, i, j).frame == i * 1024 + j
  }

  /** A mapping keeps the identity window exactly when it lies above it or maps a page to itself. */
  lemma WindowKeptIff(w: World, pd: nat, i: nat, j: nat, entry: Word, spare: nat, d: nat)
    requires CanMap(w, pd, i, j, spare) && d in w.dirs && d < PHYS_FRAMES
    requires Present(entry) && WindowIntact(w.mem, d)
    ensures WindowIntact(MapWorld(w, pd, i, j, entry, spare).mem, d)
            <==> i >= IDENTITY_TABLES || FrameOf(entry) == i * 1024 + j
  {
    hide Present; hide FrameOf; hide FlagsOf; hide Walk; hide MapMem; hide TablesOk;
    var v := MapWorld(w, pd, i, j, entry, spare);
    MapRefinesUpdate(w, pd, i, j, entry, spare);
    if i < IDENTITY_TABLES {
      assert Walk(v.mem, d, i, j) == MapsTo(FrameOf(entry), FlagsOf(entry));
    }
  }


  /** The world after mapping a frame that had no role; the frame becomes a leaf of the directory. */
  ghost function LeafWorld(w: World, pd: nat, i: nat, j: nat, entry: Word, spare: nat): World
    requires pd < PHYS_FRAMES && i < ENTRIES && j < ENTRIES && spare < PHYS_FRAMES
  {
    var v := MapWorld(w, pd, i, j, entry, spare);
    v.(role := v.role[FrameOf(entry) := LeafOf(pd, i, j)])
  }

  /** A frame in the caller's hands: taken from the allocator, not yet used for anything. */
  ghost predicate InHand(w: World, f: nat) {
    0 < f < MAX_FRAMES && f !in w.clear && f !in w.role
  }

  lemma LeafMapKeepsWorld(w: World, pd: nat, i: nat, j: nat, entry: Word, spare: nat)
    requires CanMap(w, pd, i, j, spare) && WorldOk(w)
    requires InHand(w, FrameOf(entry))
    ensures WorldOk(LeafWorld(w, pd, i, j, entry, spare))
  {
    hide Writable; hide User; hide FrameOf; hide FlagsOf; hide Entry; hide WithUser; hide TableFlags; hide Present;
    MapRefinesUpdate(w, pd, i, j, entry, spare);
    var u := MapWorld(w, pd, i, j, entry, spare);
    var v := LeafWorld(w, pd, i, j, entry, spare);
    assert forall f, r :: HasRole(u, f, r) ==> HasRole(v, f, r);
    assert forall f, r :: HasRole(w, f, r) ==> HasRole(v, f, r);
    forall d | d in v.dirs ensures DirectoryOk(v, d) && LeavesOk(v, d) {
      assert DirectoryOk(u, d) && DirectoryOk(w, d) && LeavesOk(w, d);
      forall a: nat, b: nat | IDENTITY_TABLES <= a < ENTRIES && b < ENTRIES && IsMapped(v.mem, d, a, b)
        ensures HasRole(v, FrameOf(Pte(v.mem, d, a, b)), LeafOf(d, a, b))
      {
        assert Walk(v.mem, d, a, b) == if SameSlot(pd, i, j, d, a, b) then Installed(entry) else Walk(w.mem, d, a, b);
        if !SameSlot(pd, i, j, d, a, b) {
          assert IsMapped(w.mem, d, a, b);
        }
      }
    }
  }

  // ---------------------------------------------------------------- what a directory owns

  ghost function Tables(m: Memory, d: nat): set<nat>
    requires d < PHYS_FRAMES
  {
    set i: nat | IDENTITY_TABLES <= i < ENTRIES && Present(m[d][i]) :: FrameOf(m[d][i])
  }

  ghost function Leaves(m: Memory, d: nat): set<nat>
    requires d < PHYS_FRAMES
  {
    set i: nat, j: nat | IDENTITY_TABLES <= i < ENTRIES && j < ENTRIES
      && IsMapped(m, d, i, j) :: FrameOf(Pte(m, d, i, j))
  }

  /** The directory frame, its own page tables and the pages they map. */
  ghost function Owned(m: Memory, d: nat): set<nat>
    requires d < PHYS_FRAMES
  {
    {d} + Tables(m, d) + Leaves(m, d)
  }

  /** The pages slot `i` maps through its first `k` entries. */
  ghost function SlotLeaves(m: Memory, d: nat, i: nat, k: nat): set<nat>
    requires d < PHYS_FRAMES && i < ENTRIES && k <= ENTRIES
  {
    set j: nat | j < k && IsMapped(m, d, i, j) :: FrameOf(Pte(m, d, i, j))
  }

  lemma SlotLeavesStep(m: Memory, d: nat, i: nat, k: nat)
    requires d < PHYS_FRAMES && i < ENTRIES && k < ENTRIES
    ensures SlotLeaves(m, d, i, k + 1)
            == SlotLeaves(m, d, i, k) + if IsMapped(m, d, i, k) then {FrameOf(Pte(m, d, i, k))} else {}
  {
    hide FrameOf; hide Present; hide Pte;
  }

  /** Everything `paging_free_pd` has returned once it reaches slot `n`. */
  ghost function OwnedBelow(m: Memory, d: nat, n: nat): (s: set<nat>)
    requires d < PHYS_FRAMES && IDENTITY_TABLES <= n <= ENTRIES
  {
    if n == IDENTITY_TABLES then {}
    else if Present(m[d][n - 1]) then
      OwnedBelow(m, d, n - 1) + SlotLeaves(m, d, n - 1, ENTRIES) + {FrameOf(m[d][n - 1])}
    else OwnedBelow(m, d, n - 1)
  }

  lemma {:induction false} OwnedBelowMember(m: Memory, d: nat, n: nat, f: nat)
    requires d < PHYS_FRAMES && IDENTITY_TABLES <= n <= ENTRIES
    ensures f in OwnedBelow(m, d, n) <==>
            || (exists i: nat :: IDENTITY_TABLES <= i < n && Present(m[d][i]) && FrameOf(m[d][i]) == f)
            || (exists i: nat, j: nat :: IDENTITY_TABLES <= i < n && j < ENTRIES && IsMapped(m, d, i, j)
                                         && FrameOf(Pte(m, d, i, j)) == f)
  {
    hide Present; hide FrameOf; hide Pte;
    if n > IDENTITY_TABLES {
      OwnedBelowMember(m, d, n - 1, f);
    }
  }

  lemma OwnedBelowAll(m: Memory, d: nat)
    requires d < PHYS_FRAMES
    ensures Owned(m, d) == OwnedBelow(m, d, ENTRIES) + {d}
  {
    hide Present; hide FrameOf; hide Pte;
    forall f ensures f in Owned(m, d) <==> f in OwnedBelow(m, d, ENTRIES) + {d} {
      OwnedBelowMember(m, d, ENTRIES, f);
    }
  }

  /** Membership in `Owned`, read off the frame's role without searching the tables. */
  ghost predicate OwnedBy(w: World, d: nat, f: nat)
    requires d < PHYS_FRAMES
  {
    || f == d
    || (f in w.role && match w.role[f]
        case TableOf(e, i) =>
          e == d && IDENTITY_TABLES <= i < ENTRIES && Present(w.mem[d][i]) && FrameOf(w.mem[d][i]) == f
        case LeafOf(e, i, j) =>
          e == d && IDENTITY_TABLES <= i < ENTRIES && j < ENTRIES
          && Walk(w.mem, d, i, j).MapsTo? && Walk(w.mem, d, i, j).frame == f
        case _ => false)
  }

  lemma OwnedByRole(w: World, d: nat, f: nat)
    requires WorldOk(w) && d in w.dirs && d < PHYS_FRAMES
    ensures f in Owned(w.mem, d) <==> OwnedBy(w, d, f)
  {
    hide Writable; hide User; hide FrameOf; hide FlagsOf; hide Present;
    assert DirectoryOk(w, d) && LeavesOk(w, d);
    if f in Tables(w.mem, d) {
      var i: nat :| IDENTITY_TABLES <= i < ENTRIES && Present(w.mem[d][i]) && FrameOf(w.mem[d][i]) == f;
      assert HasRole(w, f, TableOf(d, i));
    }
    if f in Leaves(w.mem, d) {
      var i: nat, j: nat :| IDENTITY_TABLES <= i < ENTRIES && j < ENTRIES && IsMapped(w.mem, d, i, j)
                            && FrameOf(Pte(w.mem, d, i, j)) == f;
      assert HasRole(w, f, LeafOf(d, i, j));
    }
  }

  /** Two directories never own the same frame: above the shared window address spaces are isolated. */
  lemma OwnershipIsDisjoint(w: World, d: nat, e: nat)
    requires WorldOk(w) && d in w.dirs && e in w.dirs && d != e && d < PHYS_FRAMES && e < PHYS_FRAMES
    ensures Owned(w.mem, d) !! Owned(w.mem, e)
    ensures Owned(w.mem, d) !! w.clear
  {
    assert DirectoryOk(w, d) && DirectoryOk(w, e);
    forall f | f in Owned(w.mem, d) ensures f !in Owned(w.mem, e) && f !in w.clear {
      OwnedByRole(w, d, f);
      OwnedByRole(w, e, f);
    }
  }

  /** The frame a second mapping of the same page pushes out of the tables. */
  ghost function Displaced(m: Memory, d: nat, i: nat, j: nat): set<nat>
    requires d < PHYS_FRAMES && i < ENTRIES && j < ENTRIES
  {
    if i >= IDENTITY_TABLES && IsMapped(m, d, i, j) then {FrameOf(Pte(m, d, i, j))} else {}
  }

  /** The frames no directory owns once page (i, j) maps `f`: those that `paging_free_pd` will not return. */
  ghost function LostBy(m: Memory, d: nat, i: nat, j: nat, f: nat): set<nat>
    requires d < PHYS_FRAMES && i < ENTRIES && j < ENTRIES
  {
    if i < IDENTITY_TABLES then {f} else Displaced(m, d, i, j)
  }

  /** Conservation: mapping a fresh frame loses exactly a low page's frame or the displaced one. */
  lemma MapConservesFrames(w: World, pd: nat, i: nat, j: nat, entry: Word, spare: nat)
    requires CanMap(w, pd, i, j, spare) && WorldOk(w)
    requires InHand(w, FrameOf(entry)) && Present(entry)
    ensures var v := LeafWorld(w, pd, i, j, entry, spare);
            var lost := LostBy(w.mem, pd, i, j, FrameOf(entry));
            && Owned(v.mem, pd) == Owned(w.mem, pd) + (w.clear - v.clear) + {FrameOf(entry)} - lost
            && lost !! v.clear
  {
    var f0 := FrameOf(entry);
    var v := LeafWorld(w, pd, i, j, entry, spare);
    var lost := LostBy(w.mem, pd, i, j, f0);
    LeafMapKeepsWorld(w, pd, i, j, entry, spare);
    forall f ensures f in Owned(v.mem, pd) <==> f in Owned(w.mem, pd) + (w.clear - v.clear) + {f0} - lost {
      MapConservesFrame(w, pd, i, j, entry, spare, f);
    }
    assert DirectoryOk(w, pd) && LeavesOk(w, pd);
  }

  lemma MapConservesFrame(w: World, pd: nat, i: nat, j: nat, entry: Word, spare: nat, f: nat)
    requires CanMap(w, pd, i, j, spare) && WorldOk(w)
    requires InHand(w, FrameOf(entry)) && Present(entry)
    ensures var v := LeafWorld(w, pd, i, j, entry, spare);
            f in Owned(v.mem, pd) <==>
            f in Owned(w.mem, pd) + (w.clear - v.clear) + {FrameOf(entry)} - LostBy(w.mem, pd, i, j, FrameOf(entry))
  {
    hide Writable; hide User; hide FrameOf; hide FlagsOf; hide Entry; hide WithUser; hide TableFlags; hide Present;
    hide Owned;
    var v := LeafWorld(w, pd, i, j, entry, spare);
    LeafMapKeepsWorld(w, pd, i, j, entry, spare);
    OwnedByRole(w, pd, f);
    OwnedByRole(v, pd, f);
    MapRefinesUpdate(w, pd, i, j, entry, spare);
    assert DirectoryOk(w, pd) && LeavesOk(w, pd);
    if f in v.role && v.role[f].TableOf? && v.role[f].i < ENTRIES {
      SlotAfterMap(w, pd, i, j, entry, spare, v.role[f].i);
    } else if f in v.role && v.role[f].LeafOf? && v.role[f].i < ENTRIES && v.role[f].j < ENTRIES {
      var a, b := v.role[f].i, v.role[f].j;
      assert Walk(v.mem, pd, a, b) == if SameSlot(pd, i, j, pd, a, b) then Installed(entry) else Walk(w.mem, pd, a, b);
    }
    if i >= IDENTITY_TABLES {
      SlotAfterMap(w, pd, i, j, entry, spare, i);
    }
  }

  /** Mapping a page writes the directory and the slot's table, no other frame. */
  lemma MapTouches(w: World, pd: nat, i: nat, j: nat, entry: Word, spare: nat, f: nat)
    requires CanMap(w, pd, i, j, spare) && f < PHYS_FRAMES && f != pd
    requires f != if Present(w.mem[pd][i]) then FrameOf(w.mem[pd][i]) else spare
    ensures MapMem(w.mem, pd, i, j, entry, spare)[f] == w.mem[f]
  {
    hide Present; hide Writable; hide User; hide FrameOf; hide FlagsOf; hide Entry; hide WithUser; hide TableFlags;
  }

  /** The directory itself changes in slot `i` only, where it may gain a table. */
  lemma SlotAfterMap(w: World, pd: nat, i: nat, j: nat, entry: Word, spare: nat, a: nat)
    requires CanMap(w, pd, i, j, spare) && a < ENTRIES
    ensures var m := MapMem(w.mem, pd, i, j, entry, spare);
            && (Present(m[pd][a]) <==> a == i || Present(w.mem[pd][a]))
            && (Present(w.mem[pd][a]) ==> FrameOf(m[pd][a]) == FrameOf(w.mem[pd][a]))
            && (!Present(w.mem[pd][i]) ==> FrameOf(m[pd][i]) == spare)
            && (Present(w.mem[pd][a]) && User(w.mem[pd][a]) ==> User(m[pd][a]))
            && (User(FlagsOf(entry)) ==> User(m[pd][i]))
  {
    TableHalf(w, pd, i, j, FlagsOf(entry), spare);
    TableHalfKeepsPte(w, pd, i, FlagsOf(entry), spare, pd, a, 0);
    EntryHalfPte(TableWorld(w, pd, i, FlagsOf(entry), spare), pd, i, j, entry, pd, a, 0);
    assert DirectoryOk(w, pd);
    TableRights(w.mem, pd, i, FlagsOf(entry), spare, a);
  }

  /** A directory entry never loses the user bit, and gets it for a user page. */
  lemma TableRights(m: Memory, pd: nat, i: nat, flags: nat, spare: nat, a: nat)
    requires pd < PHYS_FRAMES && i < ENTRIES && flags < 4096 && spare < PHYS_FRAMES && a < ENTRIES
    requires Present(m[pd][i]) || spare != pd
    ensures var n := WithTable(m, pd, i, flags, spare);
            && (Present(m[pd][a]) && User(m[pd][a]) ==> User(n[pd][a]))
            && (User(flags) ==> User(n[pd][i]))
  {
    hide Present; hide Writable; hide User; hide FrameOf; hide FlagsOf; hide Entry; hide WithUser; hide TableFlags;
  }

  // ---------------------------------------------------------------- creating and freeing a directory

  /** A new directory: the kernel's shared slots, nothing above them. */
  function NewDirectory(kernel: Page): Page {
    seq<Word>(ENTRIES, i requires 0 <= i < ENTRIES => if i < IDENTITY_TABLES then kernel[i] else 0)
  }

  ghost function CreateWorld(w: World, kernelPd: nat, d: nat): World
    requires kernelPd < PHYS_FRAMES && d < PHYS_FRAMES
  {
    w.(mem := w.mem[d := NewDirectory(w.mem[kernelPd])], clear := w.clear - {d},
       role := w.role[d := Directory], dirs := w.dirs + {d})
  }

  lemma CreateKeepsWorld(w: World, kernelPd: nat, d: nat)
    requires WorldOk(w) && kernelPd in w.dirs && kernelPd < PHYS_FRAMES && d in w.clear && d < PHYS_FRAMES
    ensures var v := CreateWorld(w, kernelPd, d);
            && WorldOk(v) && d !in w.dirs
            && Owned(v.mem, d) == {d}
            && (forall i: nat, j: nat :: IDENTITY_TABLES <= i < ENTRIES && j < ENTRIES ==>
                  Walk(v.mem, d, i, j) == NotMapped)
            && forall i: nat :: i < 8 ==> v.mem[d][i] == w.mem[kernelPd][i]
  {
    assert !Present(0);
    hide Writable; hide User; hide FrameOf; hide FlagsOf; hide Present;
    var v := CreateWorld(w, kernelPd, d);
    assert DirectoryOk(w, kernelPd);
    assert d in w.dirs ==> DirectoryOk(w, d);
    assert forall i: nat :: IDENTITY_TABLES <= i < ENTRIES ==> !Present(v.mem[d][i]);
    forall e | e in w.dirs ensures DirectoryOk(v, e) && LeavesOk(v, e) {
      assert DirectoryOk(w, e) && LeavesOk(w, e);
      OtherFramesKeepDirectory(w, v, e, {});
    }
  }

  /** A frame directory `e` does not rely on. */
  ghost predicate ForeignTo(w: World, e: nat, f: nat) {
    f in w.role ==> match w.role[f]
      case Directory => f != e
      case IdentityTable(_) => false
      case TableOf(d, _) => d != e
      case LeafOf(d, _, _) => d != e
      case Reserved(_, _) => true
      case HeapFrame => true
  }

  /** A directory stays in order when the frames it uses keep contents and role. */
  lemma OtherFramesKeepDirectory(w: World, v: World, e: nat, gone: set<nat>)
    requires WorldOk(w) && e in w.dirs && w.identity == v.identity
    requires forall f :: f in gone ==> ForeignTo(w, e, f)
    requires forall f :: f in w.role && f !in gone ==> f in v.role && v.role[f] == w.role[f] && v.mem[f] == w.mem[f]
    ensures DirectoryOk(v, e) && LeavesOk(v, e) && Owned(v.mem, e) == Owned(w.mem, e)
    ensures forall i: nat, j: nat :: i < ENTRIES && j < ENTRIES ==> Walk(v.mem, e, i, j) == Walk(w.mem, e, i, j)
  {
    hide Writable; hide User; hide FrameOf; hide FlagsOf; hide Present;
    assert DirectoryOk(w, e) && LeavesOk(w, e);
    forall i: nat, j: nat | i < ENTRIES && j < ENTRIES
      ensures IsMapped(v.mem, e, i, j) == IsMapped(w.mem, e, i, j)
      ensures IsMapped(w.mem, e, i, j) ==> Pte(v.mem, e, i, j) == Pte(w.mem, e, i, j)
    {
      if Present(w.mem[e][i]) {
        assert HasRole(w, FrameOf(w.mem[e][i]), if i < IDENTITY_TABLES then IdentityTable(i) else TableOf(e, i));
      }
    }
    assert Leaves(v.mem, e) == Leaves(w.mem, e);
  }

  ghost function FreeWorld(w: World, d: nat): World
    requires d < PHYS_FRAMES
  {
    w.(clear := w.clear + Owned(w.mem, d), role := w.role - Owned(w.mem, d), dirs := w.dirs - {d})
  }

  /** `paging_free_pd` returns exactly what the directory owns; every other address space is untouched. */
  lemma FreeKeepsWorld(w: World, d: nat)
    requires WorldOk(w) && d in w.dirs && d < PHYS_FRAMES
    ensures var v := FreeWorld(w, d);
            && WorldOk(v)
            && Owned(w.mem, d) !! w.clear
            && forall e :: e in v.dirs ==> e < PHYS_FRAMES && Owned(v.mem, e) == Owned(w.mem, e)
  {
    var v := FreeWorld(w, d);
    assert DirectoryOk(w, d);
    var gone := Owned(w.mem, d);
    forall f | f in gone ensures f in w.role && f !in w.clear && (w.role[f].IdentityTable? ==> false) {
      OwnedByRole(w, d, f);
    }
    forall e | e in v.dirs ensures DirectoryOk(v, e) && LeavesOk(v, e) && Owned(v.mem, e) == Owned(w.mem, e) {
      assert DirectoryOk(w, e);
      forall f | f in gone ensures ForeignTo(w, e, f) {
        OwnedByRole(w, d, f);
      }
      OtherFramesKeepDirectory(w, v, e, gone);
    }
  }

  lemma FrameFacts(w: World, d: nat)
    requires TablesOk(w) && d in w.dirs
    ensures 0 !in w.clear && d < PHYS_FRAMES && d in w.role
    ensures forall f :: f in w.clear ==> 0 < f < MAX_FRAMES && f !in w.role && f !in w.dirs
  {
    assert DirectoryOk(w, d);
    forall f | f in w.clear ensures f !in w.dirs {
      assert f in w.dirs ==> DirectoryOk(w, f);
    }
  }

  lemma WorldHasTables(w: World)
    requires WorldOk(w)
    ensures TablesOk(w)
  {
  }

  // ---------------------------------------------------------------- the world at boot

  ghost function IdentityFrames(identity: nat): set<nat> { Span(identity, identity + IDENTITY_TABLES) }

  function IdentityEntry(t: nat, k: nat): Word
    requires t < IDENTITY_TABLES && k < ENTRIES
  {
    Entry(t * 1024 + k, 3)
  }

  /** The table that maps window `t` of the first 32 MB to itself. */
  function IdentityPage(t: nat): Page
    requires t < IDENTITY_TABLES
  {
    seq<Word>(ENTRIES, k requires 0 <= k < ENTRIES => IdentityEntry(t, k))
  }

  ghost predicate Booted(m: Memory, kernelPd: nat, identity: nat, t: nat)
    requires kernelPd < PHYS_FRAMES && t < IDENTITY_TABLES && identity + t < PHYS_FRAMES
  {
    m[kernelPd][t] == Entry(identity + t, 3) && m[identity + t] == IdentityPage(t)
  }

  ghost function IdentityRoles(identity: nat, n: nat): (r: map<nat, Role>)
    ensures forall f :: f in r <==> identity <= f < identity + n
    ensures forall f :: f in r ==> r[f] == IdentityTable(f - identity)
  {
    if n == 0 then map[] else IdentityRoles(identity, n - 1)[identity + n - 1 := IdentityTable(n - 1)]
  }

  ghost function BootWorld(m: Memory, clear: set<nat>, kernelPd: nat, identity: nat): World {
    World(m, clear, IdentityRoles(identity, IDENTITY_TABLES)[kernelPd := Directory], {kernelPd}, identity)
  }

  /** The shape `paging_init` leaves the static tables in. */
  ghost predicate BootTables(m: Memory, kernelPd: nat, identity: nat) {
    && 0 < kernelPd < MAX_FRAMES
    && 0 < identity && identity + IDENTITY_TABLES <= MAX_FRAMES
    && (forall t: nat :: t < IDENTITY_TABLES ==> Booted(m, kernelPd, identity, t))
    && (forall u: nat :: IDENTITY_TABLES <= u < ENTRIES ==> m[kernelPd][u] == 0)
  }

  lemma BootedWalk(m: Memory, kernelPd: nat, identity: nat, i: nat, j: nat)
    requires BootTables(m, kernelPd, identity) && i < ENTRIES && j < ENTRIES
    ensures Walk(m, kernelPd, i, j) == if i < 8 then MapsTo(i * 1024 + j, 3) else NotMapped
  {
    hide BootTables; hide Walk;
    BootedSlots(m, kernelPd, identity, i, j);
  }

  lemma BootedSlots(m: Memory, kernelPd: nat, identity: nat, i: nat, j: nat)
    requires BootTables(m, kernelPd, identity) && i < ENTRIES && j < ENTRIES
    ensures Walk(m, kernelPd, i, j) == if i < IDENTITY_TABLES then MapsTo(i * 1024 + j, 3) else NotMapped
  {
    assert !Present(0) && Present(3);
    hide Present; hide Writable; hide User; hide FrameOf; hide FlagsOf; hide Entry;
    if i < IDENTITY_TABLES {
      assert Booted(m, kernelPd, identity, i);
    }
  }

  lemma BootFramesOk(m: Memory, clear: set<nat>, kernelPd: nat, identity: nat)
    requires Tracked(clear) && 0 !in clear && kernelPd !in clear
    requires 0 < kernelPd < MAX_FRAMES && 0 < identity && identity + IDENTITY_TABLES <= MAX_FRAMES
    requires forall f :: f in IdentityFrames(identity) ==> f !in clear && f != kernelPd
    ensures FramesOk(BootWorld(m, clear, kernelPd, identity))
  {
    hide IdentityRoles; hide Span;
    var w := BootWorld(m, clear, kernelPd, identity);
    forall f | f in w.role ensures 0 < f < MAX_FRAMES && f !in w.clear {
      assert f == kernelPd || f in IdentityFrames(identity);
    }
  }

  lemma BootDirectoryOk(m: Memory, clear: set<nat>, kernelPd: nat, identity: nat)
    requires BootTables(m, kernelPd, identity)
    requires kernelPd !in IdentityFrames(identity)
    ensures DirectoryOk(BootWorld(m, clear, kernelPd, identity), kernelPd)
    ensures LeavesOk(BootWorld(m, clear, kernelPd, identity), kernelPd)
  {
    hide Present; hide Writable; hide User; hide FrameOf; hide FlagsOf; hide Entry; hide IdentityPage;
    hide IdentityRoles;
    hide Booted;
    BootSlots(m, kernelPd, identity);
  }

  lemma BootSlots(m: Memory, kernelPd: nat, identity: nat)
    requires BootTables(m, kernelPd, identity)
    ensures forall t: nat :: t < IDENTITY_TABLES ==>
              Present(m[kernelPd][t]) && Writable(m[kernelPd][t]) && FrameOf(m[kernelPd][t]) == identity + t
    ensures forall u: nat :: IDENTITY_TABLES <= u < ENTRIES ==> !Present(m[kernelPd][u])
  {
    assert !Present(0) && Present(3) && Writable(3);
    hide Present; hide Writable; hide User; hide FrameOf; hide FlagsOf; hide Entry; hide IdentityPage;
    forall t: nat | t < IDENTITY_TABLES
      ensures Present(m[kernelPd][t]) && Writable(m[kernelPd][t]) && FrameOf(m[kernelPd][t]) == identity + t
    {
      assert Booted(m, kernelPd, identity, t);
    }
  }

  lemma BootedWorldOk(m: Memory, clear: set<nat>, kernelPd: nat, identity: nat)
    requires Tracked(clear) && 0 !in clear && kernelPd !in clear
    requires forall f :: f in IdentityFrames(identity) ==> f !in clear && f != kernelPd
    requires BootTables(m, kernelPd, identity)
    ensures WorldOk(BootWorld(m, clear, kernelPd, identity))
  {
    BootFramesOk(m, clear, kernelPd, identity);
    BootDirectoryOk(m, clear, kernelPd, identity);
    hide DirectoryOk; hide LeavesOk; hide FramesOk; hide IdentityRoles; hide BootTables; hide IdentityFrames;
    hide Tracked;
  }

  /** Tables and pages above the shared window are frames the allocator tracks. */
  lemma SlotTracked(w: World, d: nat, i: nat)
    requires WorldOk(w) && d in w.dirs && IDENTITY_TABLES <= i < ENTRIES
    ensures d < MAX_FRAMES
    ensures Present(w.mem[d][i]) ==> FrameOf(w.mem[d][i]) < MAX_FRAMES
    ensures forall j: nat :: j < ENTRIES && IsMapped(w.mem, d, i, j) ==> FrameOf(Pte(w.mem, d, i, j)) < MAX_FRAMES
  {
    assert DirectoryOk(w, d) && LeavesOk(w, d);
  }

  /** Above the shared window the page's own flags decide the effective rights. */
  lemma RightsByFlags(w: World, d: nat, i: nat, j: nat)
    requires WorldOk(w) && d in w.dirs && d < PHYS_FRAMES && IDENTITY_TABLES <= i < ENTRIES && j < ENTRIES
    ensures UserPage(w.mem, d, i, j) <==> Walk(w.mem, d, i, j).MapsTo? && User(Walk(w.mem, d, i, j).flags % 4096)
    ensures WritablePage(w.mem, d, i, j) <==>
            Walk(w.mem, d, i, j).MapsTo? && Writable(Walk(w.mem, d, i, j).flags % 4096)
  {
    assert DirectoryOk(w, d);
    if IsMapped(w.mem, d, i, j) {
      var e := Pte(w.mem, d, i, j);
      assert FlagsOf(e) % 4096 == FlagsOf(e);
    }
  }

  // ---------------------------------------------------------------- frames kept for other purposes

  /** Moving a frame out of the free set, or back, disturbs no address space. */
  lemma TakeFromFree(w: World, f: nat)
    requires WorldOk(w) && f in w.clear
    ensures WorldOk(w.(clear := w.clear - {f})) && InHand(w.(clear := w.clear - {f}), f)
  {
    var v := w.(clear := w.clear - {f});
    forall d | d in w.dirs ensures DirectoryOk(v, d) && LeavesOk(v, d) {
      assert DirectoryOk(w, d);
      OtherFramesKeepDirectory(w, v, d, {});
    }
  }

  lemma GiveBack(w: World, f: nat)
    requires WorldOk(w) && InHand(w, f)
    ensures WorldOk(w.(clear := w.clear + {f}))
  {
    var v := w.(clear := w.clear + {f});
    forall d | d in w.dirs ensures DirectoryOk(v, d) && LeavesOk(v, d) {
      assert DirectoryOk(w, d);
      OtherFramesKeepDirectory(w, v, d, {});
    }
  }

  lemma ReserveFrame(w: World, f: nat, owner: nat, part: nat)
    requires WorldOk(w) && InHand(w, f)
    ensures WorldOk(w.(role := w.role[f := Reserved(owner, part)]))
  {
    var v := w.(role := w.role[f := Reserved(owner, part)]);
    forall d | d in w.dirs ensures DirectoryOk(v, d) && LeavesOk(v, d) {
      assert DirectoryOk(w, d);
      OtherFramesKeepDirectory(w, v, d, {});
    }
  }

  lemma UnreserveFrame(w: World, f: nat, owner: nat, part: nat)
    requires WorldOk(w) && HasRole(w, f, Reserved(owner, part))
    ensures WorldOk(w.(role := w.role - {f})) && InHand(w.(role := w.role - {f}), f)
  {
    var v := w.(role := w.role - {f});
    forall d | d in w.dirs ensures DirectoryOk(v, d) && LeavesOk(v, d) {
      assert DirectoryOk(w, d);
      OtherFramesKeepDirectory(w, v, d, {f});
    }
  }
}
