/**
 Saving and restoring a process (boot/context_switch.asm, and the first stack
 built in kernel/process.c). A process that is not running lives in a nine-word
 frame on its own kernel stack and in two words of its control block. The main
 results: over every run of computing, switching, spawning and reaping, a
 process that is resumed finds exactly what it had when it gave the processor
 away, and a new process starts exactly as its first stack says.

 Addresses are byte addresses of aligned words.
 */
module ContextSwitch {

  /** Memory word by word; an address never written holds zero. */
  type Ram = imap<int, int>

  /** The eight registers the switch saves. */
  datatype Regs = Regs(eax: int, ecx: int, edx: int, ebx: int,
                       ebp: int, esi: int, edi: int, eflags: int)

  datatype State = State(regs: Regs, esp: int, eip: int, cr3: int, ram: Ram)

  const FRAME: int := 32        // bytes the eight pushes take
  const ESP_FIELD: int := 40    // offset of `esp` in the control block
  const CR3_FIELD: int := 44    // offset of `cr3` in the control block
  const PCB_HEAD: int := 48     // the control block up to and including `cr3`
  const START_FLAGS: int := 0x202

  function Rd(m: Ram, a: int): int { if a in m then m[a] else 0 }

  // ---------------------------------------------------------------- one switch

  /** Four words pushed below `sp`, `a` first. */
  function Push4(m: Ram, sp: int, a: int, b: int, c: int, d: int): Ram {
    m[sp - 4 := a][sp - 8 := b][sp - 12 := c][sp - 16 := d]
  }

  /** The frame of `r` pushed below `sp`, in the order of the eight push instructions. */
  function PushedFrame(m: Ram, sp: int, r: Regs): Ram {
    Push4(Push4(m, sp, r.eflags, r.eax, r.ecx, r.edx), sp - 16, r.ebx, r.ebp, r.esi, r.edi)
  }

  /** Memory once the outgoing control block points at the frame. */
  function Suspended(s: State): Ram {
    var m := PushedFrame(s.ram, s.esp, s.regs);
    m[Rd(m, s.esp + 4) + ESP_FIELD := s.esp - FRAME]
  }

  function PoppedRegs(m: Ram, sp: int): Regs {
    Regs(Rd(m, sp + 24), Rd(m, sp + 20), Rd(m, sp + 16), Rd(m, sp + 12),
         Rd(m, sp + 8), Rd(m, sp + 4), Rd(m, sp), Rd(m, sp + 28))
  }

  /** The whole switch, as one change of state. */
  function Switched(s: State): State {
    var m := Suspended(s);
    var to := Rd(m, s.esp + 8);
    var sp := Rd(m, to + ESP_FIELD);
    State(PoppedRegs(m, sp), sp + 36, Rd(m, sp + 32), Rd(m, to + CR3_FIELD), m)
  }

  class Cpu {
    var eax: int
    var ecx: int
    var edx: int
    var ebx: int
    var ebp: int
    var esi: int
    var edi: int
    var eflags: int
    var esp: int
    var eip: int
    var cr3: int
    var ram: Ram

    ghost function S(): State
      reads this
    {
      State(Regs(eax, ecx, edx, ebx, ebp, esi, edi, eflags), esp, eip, cr3, ram)
    }

    method PushScratch()
      modifies this`esp, this`ram
      ensures esp == old(esp) - 16
      ensures ram == Push4(old(ram), old(esp), eflags, eax, ecx, edx)
    {
      esp := esp - 4;
      ram := ram[esp := eflags];
      esp := esp - 4;
      ram := ram[esp := eax];
      esp := esp - 4;
      ram := ram[esp := ecx];
      esp := esp - 4;
      ram := ram[esp := edx];
    }

    method PushPreserved()
      modifies this`esp, this`ram
      ensures esp == old(esp) - 16
      ensures ram == Push4(old(ram), old(esp), ebx, ebp, esi, edi)
    {
      esp := esp - 4;
      ram := ram[esp := ebx];
      esp := esp - 4;
      ram := ram[esp := ebp];
      esp := esp - 4;
      ram := ram[esp := esi];
      esp := esp - 4;
      ram := ram[esp := edi];
    }

    method PopPreserved()
      modifies this`edi, this`esi, this`ebp, this`ebx, this`esp
      ensures edi == Rd(ram, old(esp)) && esi == Rd(ram, old(esp) + 4)
      ensures ebp == Rd(ram, old(esp) + 8) && ebx == Rd(ram, old(esp) + 12)
      ensures esp == old(esp) + 16
    {
      hide Rd;
      edi := Rd(ram, esp);
      esp := esp + 4;
      esi := Rd(ram, esp);
      esp := esp + 4;
      ebp := Rd(ram, esp);
      esp := esp + 4;
      ebx := Rd(ram, esp);
      esp := esp + 4;
    }

    method PopScratch()
      modifies this`edx, this`ecx, this`eax, this`eflags, this`eip, this`esp
      ensures edx == Rd(ram, old(esp)) && ecx == Rd(ram, old(esp) + 4) && eax == Rd(ram, old(esp) + 8)
      ensures eflags == Rd(ram, old(esp) + 12) && eip == Rd(ram, old(esp) + 16)
      ensures esp == old(esp) + 20
    {
      hide Rd;
      edx := Rd(ram, esp);
      esp := esp + 4;
      ecx := Rd(ram, esp);
      esp := esp + 4;
      eax := Rd(ram, esp);
      esp := esp + 4;
      eflags := Rd(ram, esp);
      esp := esp + 4;
      eip := Rd(ram, esp);
      esp := esp + 4;
    }

    /** Stores the stack pointer in the old control block; takes directory and stack from the new one. */
    method ChangeStacks()
      modifies this`eax, this`ecx, this`edx, this`eflags, this`cr3, this`esp, this`ram
      ensures ram == old(ram)[Rd(old(ram), old(esp) + 36) + ESP_FIELD := old(esp)]
      ensures cr3 == Rd(ram, Rd(ram, old(esp) + 40) + CR3_FIELD)
      ensures esp == Rd(ram, Rd(ram, old(esp) + 40) + ESP_FIELD)
    {
      hide Rd;
      eax := Rd(ram, esp + 36);
      ram := ram[eax + ESP_FIELD := esp];

      eax := Rd(ram, esp + 40);
      ecx := Rd(ram, eax + CR3_FIELD);
      edx := cr3;
      eflags := *;               // the comparison sets the flags
      if ecx != edx {
        cr3 := ecx;
      }
      esp := Rd(ram, eax + ESP_FIELD);
    }

    /** Entered with the return address and the two control blocks on the stack. */
    method Switch()
      modifies this
      ensures S() == Switched(old(S()))
    {
      hide Rd; hide Push4;
      PushScratch();
      PushPreserved();
      ChangeStacks();
      PopPreserved();
      PopScratch();
    }

    /**
     The stack a new process wakes up to: ten words under `top`, and the control
     block pointing at the lowest. `Resumes` says what a later switch makes of it.
     */
    method BuildStack(pcb: int, top: int, guard: int, entry: int, dir: int)
      modifies this`ram
      ensures ram == NewRam(old(ram), pcb, top, guard, entry, dir)
    {
      ram := ram[pcb + CR3_FIELD := dir];
      var stack := top - 4;
      ram := ram[stack := guard];
      stack := stack - 4;
      ram := ram[stack := entry];
      ram := Push4(ram, stack, START_FLAGS, 0, 0, 0);
      stack := stack - 16;
      ram := Push4(ram, stack, 0, 0, 0, 0);
      stack := stack - 16;
      ram := ram[pcb + ESP_FIELD := stack];
    }
  }

  // ---------------------------------------------------------------- a new process

  const START_REGS: Regs := Regs(0, 0, 0, 0, 0, 0, 0, START_FLAGS)

  /** A frame of the starting registers, under the entry point and the guard. */
  function NewRam(m: Ram, pcb: int, top: int, guard: int, entry: int, dir: int): Ram {
    PushedFrame(m[pcb + CR3_FIELD := dir][top - 4 := guard][top - 8 := entry], top - 8, START_REGS)
      [pcb + ESP_FIELD := top - 40]
  }

  /** The state the first stack stands for: about to return into `entry`. */
  function Unborn(m: Ram, top: int, dir: int): State {
    State(START_REGS, top - 8, 0, dir, m)
  }

  // ---------------------------------------------------------------- the system

  /** Where a process keeps itself: its control block and its kernel stack `[lo, hi)`. */
  datatype Place = Place(pcb: int, lo: int, hi: int)

  /**
   The machine, with what each waiting process had when it last ran. `saved` is
   what the run remembers, not something the kernel stores.
   */
  datatype System = System(cpu: State, running: nat, places: map<nat, Place>, saved: map<nat, State>)

  /** Control blocks and stacks do not overlap one another. */
  ghost predicate Apart(places: map<nat, Place>) {
    && (forall p, q :: p in places && q in places && p != q ==> StacksApart(places[p], places[q]))
    && (forall p, q :: p in places && q in places && p != q ==> BlocksApart(places[p], places[q]))
    && (forall p, q :: p in places && q in places ==> BlockOffStack(places[p], places[q]))
  }

  lemma TwoApart(places: map<nat, Place>, p: nat, q: nat)
    requires Apart(places) && p in places && q in places
    ensures p != q ==> StacksApart(places[p], places[q]) && BlocksApart(places[p], places[q])
    ensures BlockOffStack(places[p], places[q]) && BlockOffStack(places[q], places[p])
  {
  }

  predicate StacksApart(x: Place, y: Place) { x.hi <= y.lo || y.hi <= x.lo }
  predicate BlocksApart(x: Place, y: Place) { x.pcb + PCB_HEAD <= y.pcb || y.pcb + PCB_HEAD <= x.pcb }
  predicate BlockOffStack(x: Place, y: Place) { x.pcb + PCB_HEAD <= y.lo || y.hi <= x.pcb }

  /** The words a waiting process depends on. */
  predicate Needs(pl: Place, c: State, a: int) {
    c.esp - FRAME <= a < pl.hi || a == pl.pcb + ESP_FIELD || a == pl.pcb + CR3_FIELD
  }

  ghost predicate KeepsNeeds(m: Ram, m': Ram, pl: Place, c: State) {
    forall a :: Needs(pl, c, a) ==> Rd(m', a) == Rd(m, a)
  }

  /** Memory still holds everything `c` had: registers, return address, stack, directory. */
  ghost predicate Intact(m: Ram, pl: Place, c: State) {
    && pl.lo <= c.esp - FRAME && c.esp < pl.hi
    && Rd(m, pl.pcb + ESP_FIELD) == c.esp - FRAME
    && Rd(m, pl.pcb + CR3_FIELD) == c.cr3
    && PoppedRegs(m, c.esp - FRAME) == c.regs
    && forall a :: c.esp <= a < pl.hi ==> Rd(m, a) == Rd(c.ram, a)
  }

  ghost predicate Inv(s: System) {
    && s.running in s.places && s.running !in s.saved
    && s.saved.Keys + {s.running} == s.places.Keys
    && Apart(s.places)
    && Rd(s.cpu.ram, s.places[s.running].pcb + CR3_FIELD) == s.cpu.cr3
    && (forall q :: q in s.saved ==> Intact(s.cpu.ram, s.places[q], s.saved[q]))
  }

  /**
   What can happen: the running process computes (any change of registers and of
   memory nobody else needs), calls the switch, builds a new process, or frees
   one that is not running.
   */
  datatype Step =
    | Compute(next: State)
    | SwitchTo(to: nat)
    | Spawn(pid: nat, place: Place, guard: int, entry: int, dir: int)
    | Reap(dead: nat)

  ghost predicate Enabled(s: System, st: Step)
    requires s.running in s.places && s.saved.Keys <= s.places.Keys
  {
    match st
    case Compute(n) =>
      && n.cr3 == s.cpu.cr3
      && Rd(n.ram, s.places[s.running].pcb + CR3_FIELD) == Rd(s.cpu.ram, s.places[s.running].pcb + CR3_FIELD)
      && forall q :: q in s.saved ==> KeepsNeeds(s.cpu.ram, n.ram, s.places[q], s.saved[q])
    case SwitchTo(q) =>
      && q in s.saved && Calls(s.cpu, s.places[s.running], s.places[q])
    case Spawn(q, pl, guard, entry, dir) =>
      && q !in s.places && pl.lo + 40 <= pl.hi && Apart(s.places[q := pl])
    case Reap(q) => q in s.saved
  }

  /** A call of the switch from a stack with room for the frame. */
  predicate Calls(c: State, from: Place, to: Place) {
    && from.lo <= c.esp - FRAME && c.esp + 12 <= from.hi
    && Rd(c.ram, c.esp + 4) == from.pcb
    && Rd(c.ram, c.esp + 8) == to.pcb
  }

  function Apply(s: System, st: Step): System
    requires s.running in s.places
  {
    match st
    case Compute(n) => s.(cpu := n)
    case SwitchTo(q) =>
      System(Switched(s.cpu), q, s.places, s.saved[s.running := s.cpu] - {q})
    case Spawn(q, pl, guard, entry, dir) =>
      var m := NewRam(s.cpu.ram, pl.pcb, pl.hi, guard, entry, dir);
      System(s.cpu.(ram := m), s.running, s.places[q := pl], s.saved[q := Unborn(m, pl.hi, dir)])
    case Reap(q) =>
      s.(places := s.places - {q}, saved := s.saved - {q})
  }

  // ---------------------------------------------------------------- each step

  lemma Push4Words(m: Ram, sp: int, a: int, b: int, c: int, d: int)
    ensures var n := Push4(m, sp, a, b, c, d);
            Rd(n, sp - 4) == a && Rd(n, sp - 8) == b && Rd(n, sp - 12) == c && Rd(n, sp - 16) == d
    ensures forall x :: !(sp - 16 <= x < sp) ==> Rd(Push4(m, sp, a, b, c, d), x) == Rd(m, x)
  {
  }

  /** The pops read the registers in the order the pushes left them; no word outside the frame changes. */
  lemma FrameRoundTrip(m: Ram, sp: int, r: Regs)
    ensures PoppedRegs(PushedFrame(m, sp, r), sp - FRAME) == r
    ensures forall x :: !(sp - FRAME <= x < sp) ==> Rd(PushedFrame(m, sp, r), x) == Rd(m, x)
  {
    hide Push4; hide Rd;
    Push4Words(m, sp, r.eflags, r.eax, r.ecx, r.edx);
    Push4Words(Push4(m, sp, r.eflags, r.eax, r.ecx, r.edx), sp - 16, r.ebx, r.ebp, r.esi, r.edi);
  }

  lemma SuspendedWords(s: State, from: Place)
    requires from.lo <= s.esp - FRAME && s.esp + 12 <= from.hi
    requires Rd(s.ram, s.esp + 4) == from.pcb && BlockOffStack(from, from)
    ensures PoppedRegs(Suspended(s), s.esp - FRAME) == s.regs
    ensures Rd(Suspended(s), from.pcb + ESP_FIELD) == s.esp - FRAME
    ensures forall a :: !(s.esp - FRAME <= a < s.esp) && a != from.pcb + ESP_FIELD ==>
              Rd(Suspended(s), a) == Rd(s.ram, a)
  {
    hide PushedFrame;
    FrameRoundTrip(s.ram, s.esp, s.regs);
  }

  lemma IntactKept(m: Ram, m': Ram, pl: Place, c: State)
    requires Intact(m, pl, c) && KeepsNeeds(m, m', pl, c)
    ensures Intact(m', pl, c)
  {
    hide Rd;
    assert forall a :: c.esp - FRAME <= a < pl.hi ==> Needs(pl, c, a);
    assert Needs(pl, c, pl.pcb + ESP_FIELD) && Needs(pl, c, pl.pcb + CR3_FIELD);
  }

  /** Suspending one process takes no word another waiting process needs. */
  lemma SuspendKeepsOthers(s: State, from: Place, pl: Place, c: State)
    requires from.lo <= s.esp - FRAME && s.esp + 12 <= from.hi
    requires Rd(s.ram, s.esp + 4) == from.pcb && BlockOffStack(from, from)
    requires StacksApart(from, pl) && BlocksApart(from, pl) && BlockOffStack(from, pl) && BlockOffStack(pl, from)
    requires pl.lo <= c.esp - FRAME
    ensures KeepsNeeds(s.ram, Suspended(s), pl, c)
  {
    hide Suspended; hide Rd;
    SuspendedWords(s, from);
  }

  /** A process that has just been suspended is intact. */
  lemma SelfIntact(s: State, from: Place)
    requires from.lo <= s.esp - FRAME && s.esp + 12 <= from.hi
    requires Rd(s.ram, s.esp + 4) == from.pcb && BlockOffStack(from, from)
    requires Rd(s.ram, from.pcb + CR3_FIELD) == s.cr3
    ensures Intact(Suspended(s), from, s)
  {
    hide Suspended; hide Rd; hide PoppedRegs;
    SuspendedWords(s, from);
  }

  /** A first stack is an intact saved state under its return address. */
  lemma NewStackIntact(m: Ram, pl: Place, guard: int, entry: int, dir: int)
    requires pl.lo + 40 <= pl.hi && BlockOffStack(pl, pl)
    ensures var m' := NewRam(m, pl.pcb, pl.hi, guard, entry, dir);
            && Intact(m', pl, Unborn(m', pl.hi, dir))
            && Rd(m', pl.hi - 4) == guard && Rd(m', pl.hi - 8) == entry
            && forall a :: !(pl.hi - 40 <= a < pl.hi) && !(pl.pcb <= a < pl.pcb + PCB_HEAD) ==> Rd(m', a) == Rd(m, a)
  {
    hide PushedFrame;
    var base := m[pl.pcb + CR3_FIELD := dir][pl.hi - 4 := guard][pl.hi - 8 := entry];
    FrameRoundTrip(base, pl.hi - 8, START_REGS);
    var framed := PushedFrame(base, pl.hi - 8, START_REGS);
    var m' := NewRam(m, pl.pcb, pl.hi, guard, entry, dir);
    assert forall a :: a != pl.pcb + ESP_FIELD ==> Rd(m', a) == Rd(framed, a);
  }

  lemma SpawnKeepsOthers(m: Ram, born: Place, guard: int, entry: int, dir: int, pl: Place, c: State)
    requires born.lo + 40 <= born.hi && BlockOffStack(born, born)
    requires StacksApart(born, pl) && BlocksApart(born, pl) && BlockOffStack(born, pl) && BlockOffStack(pl, born)
    requires pl.lo <= c.esp - FRAME
    ensures KeepsNeeds(m, NewRam(m, born.pcb, born.hi, guard, entry, dir), pl, c)
  {
    hide NewRam; hide Rd; hide Intact;
    NewStackIntact(m, born, guard, entry, dir);
  }

  /** `r` is `c` just after the return from its call of the switch. */
  ghost predicate Resumes(r: State, pl: Place, c: State) {
    && r.regs == c.regs
    && r.esp == c.esp + 4
    && r.eip == Rd(c.ram, c.esp)
    && r.cr3 == c.cr3
    && forall a :: c.esp <= a < pl.hi ==> Rd(r.ram, a) == Rd(c.ram, a)
  }

  lemma SwitchedResumes(s: State, from: Place, to: Place, c: State)
    requires Calls(s, from, to) && Intact(s.ram, to, c) && BlockOffStack(from, from)
    requires StacksApart(from, to) && BlocksApart(from, to) && BlockOffStack(from, to) && BlockOffStack(to, from)
    ensures Resumes(Switched(s), to, c)
  {
    hide Suspended; hide Rd; hide StacksApart; hide BlocksApart;
    SuspendKeepsOthers(s, from, to, c);
    IntactKept(s.ram, Suspended(s), to, c);
    assert Rd(Suspended(s), s.esp + 8) == to.pcb by { SuspendedWords(s, from); }
  }

  /**
   The switch hands over exactly: the incoming process gets the registers it
   had, returns to its own caller on its own stack, in its own directory.
   */
  lemma ResumesExactly(s: System, q: nat)
    requires Inv(s) && Enabled(s, SwitchTo(q))
    ensures Resumes(Apply(s, SwitchTo(q)).cpu, s.places[q], s.saved[q])
  {
    hide Switched; hide Rd; hide Apart; hide StacksApart; hide BlocksApart; hide BlockOffStack; hide Calls;
    hide Intact; hide Resumes;
    TwoApart(s.places, s.running, q);
    TwoApart(s.places, s.running, s.running);
    SwitchedResumes(s.cpu, s.places[s.running], s.places[q], s.saved[q]);
  }

  lemma SwitchKeepsIntact(s: System, q: nat, r: nat)
    requires Inv(s) && Enabled(s, SwitchTo(q)) && r in s.places
    ensures Intact(Suspended(s.cpu), s.places[r], if r == s.running then s.cpu else s.saved[r])
  {
    hide Suspended; hide Rd; hide Apart; hide StacksApart; hide BlocksApart; hide BlockOffStack; hide PoppedRegs;
    var from := s.places[s.running];
    TwoApart(s.places, s.running, s.running);
    if r == s.running {
      SelfIntact(s.cpu, from);
    } else {
      assert r in s.saved;
      TwoApart(s.places, s.running, r);
      SuspendKeepsOthers(s.cpu, from, s.places[r], s.saved[r]);
      IntactKept(s.cpu.ram, Suspended(s.cpu), s.places[r], s.saved[r]);
    }
  }

  lemma SwitchKeepsInv(s: System, q: nat)
    requires Inv(s) && Enabled(s, SwitchTo(q))
    ensures Inv(Apply(s, SwitchTo(q)))
  {
    hide Suspended; hide Rd; hide Apart; hide PoppedRegs; hide Intact; hide Calls; hide Resumes;
    forall r | r in s.places
      ensures Intact(Suspended(s.cpu), s.places[r], if r == s.running then s.cpu else s.saved[r])
    {
      SwitchKeepsIntact(s, q, r);
    }
    ResumesExactly(s, q);
    SwitchKeepsIntact(s, q, q);
    SameDirectory(Apply(s, SwitchTo(q)).cpu, s.places[q], s.saved[q]);
  }

  /** A resumed process runs in the directory its control block names. */
  lemma SameDirectory(r: State, pl: Place, c: State)
    requires Resumes(r, pl, c) && Intact(r.ram, pl, c)
    ensures Rd(r.ram, pl.pcb + CR3_FIELD) == r.cr3
  {
  }

  lemma SpawnKeepsIntact(s: System, st: Step, r: nat)
    requires Inv(s) && st.Spawn? && Enabled(s, st) && r in s.saved
    ensures Intact(Apply(s, st).cpu.ram, s.places[r], s.saved[r])
  {
    hide NewRam; hide Rd; hide Apart; hide StacksApart; hide BlocksApart; hide BlockOffStack; hide PoppedRegs;
    var places := Apply(s, st).places;
    TwoApart(places, st.pid, st.pid);
    TwoApart(places, st.pid, r);
    assert places[r] == s.places[r] && places[st.pid] == st.place;
    SpawnKeepsOthers(s.cpu.ram, st.place, st.guard, st.entry, st.dir, s.places[r], s.saved[r]);
    IntactKept(s.cpu.ram, Apply(s, st).cpu.ram, s.places[r], s.saved[r]);
  }

  lemma SpawnKeepsInv(s: System, st: Step)
    requires Inv(s) && st.Spawn? && Enabled(s, st)
    ensures Inv(Apply(s, st))
  {
    hide NewRam; hide Rd; hide Apart; hide PoppedRegs; hide StacksApart; hide Intact;
    var t := Apply(s, st);
    TwoApart(t.places, st.pid, st.pid);
    TwoApart(t.places, st.pid, s.running);
    NewStackIntact(s.cpu.ram, st.place, st.guard, st.entry, st.dir);
    forall r | r in s.saved
      ensures Intact(t.cpu.ram, t.places[r], t.saved[r])
    {
      SpawnKeepsIntact(s, st, r);
    }
  }

  lemma ComputeKeepsInv(s: System, n: State)
    requires Inv(s) && Enabled(s, Compute(n))
    ensures Inv(Apply(s, Compute(n)))
  {
    hide Rd; hide Intact; hide KeepsNeeds; hide Apart;
    forall r | r in s.saved
      ensures Intact(n.ram, s.places[r], s.saved[r])
    {
      IntactKept(s.cpu.ram, n.ram, s.places[r], s.saved[r]);
    }
  }

  lemma ReapKeepsInv(s: System, q: nat)
    requires Inv(s) && Enabled(s, Reap(q))
    ensures Inv(Apply(s, Reap(q)))
  {
    hide Rd; hide Intact; hide StacksApart; hide BlocksApart; hide BlockOffStack;
  }

  /** Every step keeps every waiting process resumable. */
  lemma StepKeepsInv(s: System, st: Step)
    requires Inv(s) && Enabled(s, st)
    ensures Inv(Apply(s, st))
  {
    hide Inv;
    match st
    case Compute(n) => ComputeKeepsInv(s, n);
    case SwitchTo(q) => SwitchKeepsInv(s, q);
    case Spawn(_, _, _, _, _) => SpawnKeepsInv(s, st);
    case Reap(q) => ReapKeepsInv(s, q);
  }

  // ---------------------------------------------------------------- whole runs

  /** The steps can be taken one after another. */
  ghost predicate Possible(s: System, run: seq<Step>)
    requires Inv(s)
    decreases |run|
  {
    run == [] || (Enabled(s, run[0]) && (StepKeepsInv(s, run[0]); Possible(Apply(s, run[0]), run[1..])))
  }

  ghost function After(s: System, run: seq<Step>): (t: System)
    requires Inv(s) && Possible(s, run)
    ensures Inv(t)
    decreases |run|
  {
    if run == [] then s else StepKeepsInv(s, run[0]); After(Apply(s, run[0]), run[1..])
  }

  /** The run neither resumes nor frees `p`. */
  predicate LeavesAlone(run: seq<Step>, p: nat) {
    forall i :: 0 <= i < |run| ==> run[i] != SwitchTo(p) && run[i] != Reap(p)
  }

  lemma {:induction false} StillSaved(s: System, run: seq<Step>, p: nat)
    requires Inv(s) && Possible(s, run) && LeavesAlone(run, p) && p in s.saved
    ensures var t := After(s, run); p in t.saved && t.saved[p] == s.saved[p] && t.places[p] == s.places[p]
    decreases |run|
  {
    hide Intact; hide Switched; hide NewRam; hide Apart; hide Calls; hide Rd; hide KeepsNeeds;
    if run != [] {
      StepKeepsInv(s, run[0]);
      var t := Apply(s, run[0]);
      assert p in t.saved && t.saved[p] == s.saved[p] && t.places[p] == s.places[p];
      StillSaved(t, run[1..], p);
    }
  }

  /**
   The round trip: a process gives the processor away, anything at all happens
   to the others, and when it is next resumed it is as it was when it called.
   */
  lemma SwitchRoundTrip(s: System, q: nat, run: seq<Step>)
    requires Inv(s) && Enabled(s, SwitchTo(q))
    requires (StepKeepsInv(s, SwitchTo(q)); Possible(Apply(s, SwitchTo(q)), run))
    requires LeavesAlone(run, s.running)
    requires Enabled(After(Apply(s, SwitchTo(q)), run), SwitchTo(s.running))
    ensures var t := After(Apply(s, SwitchTo(q)), run);
            Resumes(Apply(t, SwitchTo(s.running)).cpu, s.places[s.running], s.cpu)
  {
    hide Intact; hide Switched; hide Resumes;
    StepKeepsInv(s, SwitchTo(q));
    StillSaved(Apply(s, SwitchTo(q)), run, s.running);
    ResumesExactly(After(Apply(s, SwitchTo(q)), run), s.running);
  }

  /**
   A new process, whenever it is first resumed, starts at its entry point with
   interrupts on, every register zero, in its own directory, and with the exit
   routine as the address it would return to.
   */
  lemma FirstResume(s: System, st: Step, run: seq<Step>)
    requires Inv(s) && st.Spawn? && Enabled(s, st)
    requires (StepKeepsInv(s, st); Possible(Apply(s, st), run)) && LeavesAlone(run, st.pid)
    requires Enabled(After(Apply(s, st), run), SwitchTo(st.pid))
    ensures var r := Apply(After(Apply(s, st), run), SwitchTo(st.pid)).cpu;
            && r.eip == st.entry
            && r.regs == Regs(0, 0, 0, 0, 0, 0, 0, 0x202)
            && r.esp == st.place.hi - 4 && Rd(r.ram, r.esp) == st.guard
            && r.cr3 == st.dir
  {
    hide Intact; hide Switched; hide NewRam; hide Rd; hide Calls; hide Possible; hide Apart; hide BlockOffStack;
    StepKeepsInv(s, st);
    TwoApart(Apply(s, st).places, st.pid, st.pid);
    NewStackIntact(s.cpu.ram, st.place, st.guard, st.entry, st.dir);
    StillSaved(Apply(s, st), run, st.pid);
    ResumesExactly(After(Apply(s, st), run), st.pid);
  }
}
