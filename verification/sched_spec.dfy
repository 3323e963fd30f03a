/**
 The scheduler and process life cycle as a state machine over values: the
 ready queue, the zombie list, the process table and the running process.
 */
module SchedSpec {
  import opened Machine

  const MAX_PROCESSES: nat := 16

  type Ptr = nat                         // address of a process control block; 0 is NULL

  datatype State = Ready | Running | Blocked | Zombie | Dead

  datatype Pcb = Pcb(pid: nat, state: State, parent: nat, priority: nat, ticks: nat, sleep: nat, exitCode: int,
                     cr3: Word, stackLo: Word, stackHi: Word, esp: Word, userEntry: Word, userStackTop: Word)

  datatype Sched = Sched(pcb: map<Ptr, Pcb>, queue: seq<Ptr>, zombies: seq<Ptr>, table: seq<Ptr>,
                         current: Ptr, nextPid: nat, idle: Ptr)

  // ---------------------------------------------------------------- sequences of processes

  ghost predicate NoDup(q: seq<Ptr>) { forall i, j :: 0 <= i < j < |q| ==> q[i] != q[j] }

  /** The position of `p`, or |q|. */
  function Pos(q: seq<Ptr>, p: Ptr): (k: nat)
    ensures k <= |q|
    ensures k < |q| ==> q[k] == p
    ensures forall i :: 0 <= i < k ==> q[i] != p
    ensures p in q <==> k < |q|
  {
    if q == [] then 0 else if q[0] == p then 0
    else
      assert forall i :: 1 <= i < |q| ==> q[i] == q[1..][i - 1];
      1 + Pos(q[1..], p)
  }

  function Remove(q: seq<Ptr>, p: Ptr): seq<Ptr> {
    var k := Pos(q, p);
    if k < |q| then q[..k] + q[k + 1..] else q
  }

  function Rotate(q: seq<Ptr>, k: nat): seq<Ptr>
    requires k < |q|
  {
    q[k + 1..] + q[..k + 1]
  }

  lemma RemoveFacts(q: seq<Ptr>, p: Ptr)
    requires NoDup(q)
    ensures NoDup(Remove(q, p)) && p !in Remove(q, p)
    ensures forall x :: x in Remove(q, p) <==> x in q && x != p
    ensures |Remove(q, p)| == if p in q then |q| - 1 else |q|
  {
    var k := Pos(q, p);
    var r := Remove(q, p);
    if k < |q| {
      assert forall i :: 0 <= i < |r| ==> r[i] == q[if i < k then i else i + 1];
      forall x | x in q && x != p ensures x in r {
        var i :| 0 <= i < |q| && q[i] == x;
        assert r[if i < k then i else i - 1] == x;
      }
    }
  }

  lemma RemoveLast(q: seq<Ptr>, p: Ptr)
    requires p !in q
    ensures Remove(q + [p], p) == q
  {
    var r := q + [p];
    assert r[|q|] == p;
    assert Pos(r, p) == |q| by {
      assert forall i :: 0 <= i < |q| ==> r[i] == q[i] && q[i] in q;
    }
  }

  lemma RotateFacts(q: seq<Ptr>, k: nat)
    requires NoDup(q) && k < |q|
    ensures NoDup(Rotate(q, k)) && |Rotate(q, k)| == |q|
    ensures forall x :: x in Rotate(q, k) <==> x in q
  {
    var r := Rotate(q, k);
    assert forall i :: 0 <= i < |r| ==> r[i] == q[if i < |q| - k - 1 then i + k + 1 else i - (|q| - k - 1)];
    forall x | x in q ensures x in r {
      var i :| 0 <= i < |q| && q[i] == x;
      assert r[if i <= k then i + (|q| - k - 1) else i - k - 1] == x;
    }
  }

  lemma PosIs(q: seq<Ptr>, k: nat)
    requires NoDup(q) && k < |q|
    ensures Pos(q, q[k]) == k
  {
  }

  // ---------------------------------------------------------------- picking and switching

  /** The first READY process of the queue, or |q|. */
  function FirstReady(pcb: map<Ptr, Pcb>, q: seq<Ptr>): (k: nat)
    requires forall p :: p in q ==> p in pcb
    ensures k <= |q|
    ensures k < |q| ==> pcb[q[k]].state == Ready
    ensures forall i :: 0 <= i < k ==> pcb[q[i]].state != Ready
  {
    if q == [] then 0
    else if pcb[q[0]].state == Ready then 0
    else
      assert forall i :: 1 <= i < |q| ==> q[i] == q[1..][i - 1];
      1 + FirstReady(pcb, q[1..])
  }

  /** `do_switch` to `next`: states, quantum and the current process. */
  function SwitchTo(s: Sched, next: Ptr): Sched
    requires s.current in s.pcb && next in s.pcb
  {
    if next == s.current then s
    else
      var prev := s.pcb[s.current];
      var pcb := s.pcb[s.current := if prev.state == Running then prev.(state := Ready) else prev];
      s.(pcb := pcb[next := pcb[next].(state := Running, ticks := pcb[next].priority)], current := next)
  }

  /** `pick_next` followed by the switch, if it found a process other than the current one. */
  function PickAndSwitch(s: Sched): Sched
    requires s.current in s.pcb && forall p :: p in s.queue ==> p in s.pcb
  {
    var k := FirstReady(s.pcb, s.queue);
    if k == |s.queue| then s
    else SwitchTo(s.(queue := Rotate(s.queue, k)), s.queue[k])
  }

  // ---------------------------------------------------------------- the steps

  function Lookup(s: Sched, pid: nat): Ptr {
    LookupFrom(s.pcb, s.table, pid)
  }

  /** `process_lookup`: the first table entry with that pid. */
  function LookupFrom(pcb: map<Ptr, Pcb>, table: seq<Ptr>, pid: nat): (p: Ptr)
    ensures p != 0 ==> p in table && p in pcb && pcb[p].pid == pid
    ensures p == 0 ==> forall q :: q in table && q != 0 && q in pcb ==> pcb[q].pid != pid
  {
    if table == [] then 0
    else if table[0] != 0 && table[0] in pcb && pcb[table[0]].pid == pid then table[0]
    else
      assert forall q :: q in table ==> q == table[0] || q in table[1..];
      LookupFrom(pcb, table[1..], pid)
  }

  /** `is_pid_alive`: pid 0 never counts. */
  predicate Alive(s: Sched, pid: nat) {
    pid != 0 && Lookup(s, pid) != 0 && s.pcb[Lookup(s, pid)].state != Zombie && s.pcb[Lookup(s, pid)].state != Dead
  }

  predicate Kept(s: Sched, z: Ptr)
    requires z in s.pcb
  {
    Alive(s, s.pcb[z].parent)
  }

  /** The zombies whose parent is alive, in list order. */
  function Filter(s: Sched, zs: seq<Ptr>): (r: seq<Ptr>)
    requires forall z :: z in zs ==> z in s.pcb
    ensures forall z :: z in r <==> z in zs && Kept(s, z)
  {
    if zs == [] then []
    else
      assert forall z :: z in zs <==> z == zs[0] || z in zs[1..];
      (if Kept(s, zs[0]) then [zs[0]] else []) + Filter(s, zs[1..])
  }

  ghost function Reaped(s: Sched): set<Ptr>
    requires forall z :: z in s.zombies ==> z in s.pcb
  {
    set z | z in s.zombies && !Kept(s, z)
  }

  /** Empties the table slots of the processes in `gone`. */
  ghost function Cleared(table: seq<Ptr>, gone: set<Ptr>): (t: seq<Ptr>)
    ensures |t| == |table|
    ensures forall i :: 0 <= i < |table| ==> t[i] == if table[i] in gone then 0 else table[i]
  {
    seq(|table|, i requires 0 <= i < |table| => if table[i] in gone then 0 else table[i])
  }

  /** Reaping as a filter: liveness judged once, in the state before anything is freed. */
  ghost function Reap(s: Sched): Sched
    requires forall z :: z in s.zombies ==> z in s.pcb
  {
    s.(zombies := Filter(s, s.zombies), pcb := s.pcb - Reaped(s), table := Cleared(s.table, Reaped(s)))
  }

  function Woken(b: Pcb): Pcb {
    if b.state == Blocked && b.sleep > 0 then
      b.(sleep := b.sleep - 1, state := if b.sleep == 1 then Ready else Blocked)
    else b
  }

  /** Wakes the sleepers of the queue. */
  function Wake(s: Sched): Sched {
    s.(pcb := map p | p in s.pcb :: if p in s.queue then Woken(s.pcb[p]) else s.pcb[p])
  }

  /** The quantum part of a tick. */
  function Quantum(s: Sched): Sched
    requires s.current in s.pcb && forall p :: p in s.queue ==> p in s.pcb
  {
    var s1 := Ticked(s);
    if s1.pcb[s1.current].ticks > 0 || s1.queue == [] then s1 else Expired(s1)
  }

  /** One tick less for the running process. */
  function Ticked(s: Sched): (t: Sched)
    requires s.current in s.pcb
    ensures t.current in t.pcb && t.pcb.Keys == s.pcb.Keys && t.queue == s.queue && t.current == s.current
  {
    var b := s.pcb[s.current];
    s.(pcb := s.pcb[s.current := b.(ticks := if b.ticks > 0 then b.ticks - 1 else 0)])
  }

  /** The end of a quantum: the first READY process other than the running one takes over, or it starts again. */
  function Expired(s: Sched): Sched
    requires s.current in s.pcb && forall p :: p in s.queue ==> p in s.pcb
  {
    var k := FirstReady(s.pcb, s.queue);
    if k < |s.queue| && s.queue[k] != s.current then PickAndSwitch(s)
    else
      var s2 := if k < |s.queue| then s.(queue := Rotate(s.queue, k)) else s;
      var b := s.pcb[s.current];
      s2.(pcb := s2.pcb[s.current := b.(ticks := b.priority)])
  }

  /** `process_exit` up to the switch: the current process leaves the queue for the zombie list. */
  function Retire(s: Sched, p: Ptr, code: int): Sched
    requires p in s.pcb
  {
    s.(pcb := s.pcb[p := s.pcb[p].(state := Zombie, exitCode := code)],
       queue := Remove(s.queue, p), zombies := [p] + s.zombies)
  }

  /** The first empty slot of the process table, or |table|. */
  function FreeSlot(table: seq<Ptr>): nat { Pos(table, 0) }

  /** `process_create` once everything is allocated: `b` is the new control block at `p`. */
  function Admit(s: Sched, p: Ptr, b: Pcb): Sched
    requires FreeSlot(s.table) < |s.table|
  {
    s.(pcb := s.pcb[p := b], queue := s.queue + [p], table := s.table[FreeSlot(s.table) := p], nextPid := s.nextPid + 1)
  }

  /**
   Create admits a process, CreateFailed is a creation that gave up (having
   used up a pid or not), CreateDoomed admits a process whose image could not
   be loaded and sends it straight to the zombie list.
   */
  datatype Step =
    | Create(p: Ptr, b: Pcb)
    | CreateFailed(pids: nat)
    | CreateDoomed(p: Ptr, b: Pcb)
    | Tick
    | Yield
    | Exit(code: int)

  /** What a creation provides: a fresh control block, READY, with the next pid. */
  ghost predicate NewProcess(s: Sched, p: Ptr, b: Pcb) {
    && p != 0 && p !in s.pcb && FreeSlot(s.table) < |s.table|
    && b.pid == s.nextPid && b.state == Ready && b.priority >= 1 && b.ticks == b.priority && b.sleep == 0
  }

  ghost predicate Enabled(s: Sched, step: Step) {
    match step
    case Create(p, b) => NewProcess(s, p, b)
    case CreateFailed(pids) => true
    case CreateDoomed(p, b) => NewProcess(s, p, b)
    case Tick => true
    case Yield => true
    case Exit(_) => s.current != s.idle
  }

  ghost function Apply(s: Sched, step: Step): Sched
    requires Inv(s) && Enabled(s, step)
  {
    match step
    case Create(p, b) => Admit(s, p, b)
    case CreateFailed(pids) => s.(nextPid := s.nextPid + pids)
    case CreateDoomed(p, b) => Retire(Admit(s, p, b), p, b.exitCode)
    case Tick => TickOf(s)
    case Yield => PickAndSwitch(s)
    case Exit(code) => ExitOf(s, code)
  }

  /** `scheduler_tick` */
  ghost function TickOf(s: Sched): Sched
    requires Inv(s)
  {
    ReapKeepsInv(s);
    WakeKeepsInv(Reap(s));
    Quantum(Wake(Reap(s)))
  }

  /** `process_exit` */
  ghost function ExitOf(s: Sched, code: int): Sched
    requires Inv(s) && s.current != s.idle
  {
    RetireFacts(s, s.current, code);
    PickAndSwitch(Retire(s, s.current, code))
  }

  // ---------------------------------------------------------------- the invariant

  ghost predicate TableOk(pcb: map<Ptr, Pcb>, table: seq<Ptr>, nextPid: nat) {
    && |table| == MAX_PROCESSES
    && (forall p :: p in pcb <==> p != 0 && p in table)
    && (forall i, j :: 0 <= i < j < |table| && table[i] != 0 ==> table[i] != table[j])
    && (forall p :: p in pcb ==> pcb[p].pid < nextPid)
    && (forall p, q :: p in pcb && q in pcb && pcb[p].pid == pcb[q].pid ==> p == q)
  }

  /** Queue and zombie list are duplicate-free, disjoint and together exactly the process table. */
  ghost predicate ListsOk(pcb: map<Ptr, Pcb>, queue: seq<Ptr>, zombies: seq<Ptr>) {
    && NoDup(queue) && NoDup(zombies)
    && (forall p :: p in queue ==> p !in zombies)
    && (forall p :: p in pcb <==> p in queue || p in zombies)
    && (forall p :: p in zombies ==> pcb[p].state == Zombie)
  }

  ghost predicate Waiting(b: Pcb) { b.state == Ready || b.state == Blocked }

  /** Idle is always queued and never blocked. */
  ghost predicate IdleOk(pcb: map<Ptr, Pcb>, queue: seq<Ptr>, idle: Ptr) {
    idle in queue && idle in pcb && pcb[idle].state != Blocked && pcb[idle].pid == 0
  }

  ghost predicate OthersWait(pcb: map<Ptr, Pcb>, queue: seq<Ptr>, current: Ptr) {
    forall p :: p in queue && p != current ==> p in pcb && Waiting(pcb[p])
  }

  /**
   The global invariant. Exactly one process is RUNNING: `current`, which is in the queue.
   */
  ghost predicate Inv(s: Sched) {
    && Picking(s)
    && s.current in s.queue
  }

  /** A state about to pick: like the invariant, except that the current process may just have retired. */
  ghost predicate Picking(s: Sched) {
    && TableOk(s.pcb, s.table, s.nextPid) && ListsOk(s.pcb, s.queue, s.zombies)
    && IdleOk(s.pcb, s.queue, s.idle) && OthersWait(s.pcb, s.queue, s.current)
    && s.current in s.pcb
    && s.pcb[s.current].state == (if s.current in s.queue then Running else Zombie)
  }

  /** A retired process always finds a successor: idle is READY. */
  lemma SuccessorExists(s: Sched)
    requires Picking(s) && s.current !in s.queue
    ensures FirstReady(s.pcb, s.queue) < |s.queue|
  {
    assert s.pcb[s.idle].state == Ready;
  }

  /** Picking and switching restores the invariant. */
  lemma PickKeepsInv(s: Sched)
    requires Picking(s)
    ensures Inv(PickAndSwitch(s))
    ensures s.current !in s.queue ==> PickAndSwitch(s).current != s.current
  {
    var k := FirstReady(s.pcb, s.queue);
    if s.current !in s.queue { SuccessorExists(s); }
    if k < |s.queue| {
      RotateKeepsLists(s, k);
      SwitchKeepsInv(s.(queue := Rotate(s.queue, k)), s.queue[k]);
    }
  }

  lemma RotateKeepsLists(s: Sched, k: nat)
    requires Picking(s) && k < |s.queue|
    ensures Picking(s.(queue := Rotate(s.queue, k))) && s.queue[k] in Rotate(s.queue, k)
  {
    RotateFacts(s.queue, k);
    hide TableOk; hide NoDup; hide Rotate; hide Waiting;
  }

  /** Changing fields other than pids, lists and table keeps their part of the invariant. */
  lemma SameShape(s: Sched, pcb: map<Ptr, Pcb>)
    requires TableOk(s.pcb, s.table, s.nextPid) && ListsOk(s.pcb, s.queue, s.zombies)
    requires pcb.Keys == s.pcb.Keys
    requires forall p :: p in pcb ==> pcb[p].pid == s.pcb[p].pid
    requires forall p :: p in s.zombies && p in pcb ==> pcb[p].state == Zombie
    ensures TableOk(pcb, s.table, s.nextPid) && ListsOk(pcb, s.queue, s.zombies)
  {
    hide NoDup;
  }

  lemma SwitchKeepsInv(s: Sched, next: Ptr)
    requires Picking(s) && next in s.queue && s.pcb[next].state == Ready
    ensures Inv(SwitchTo(s, next)) && SwitchTo(s, next).current == next && next != s.current
  {
    hide TableOk; hide NoDup;
    var t := SwitchTo(s, next);
    assert t.pcb.Keys == s.pcb.Keys;
    assert forall p :: p in s.zombies && p in t.pcb ==> p != next && t.pcb[p].state == Zombie;
    SameShape(s, t.pcb);
  }

  lemma RetireFacts(s: Sched, p: Ptr, code: int)
    requires Inv(s) && p in s.queue && p != s.idle
    ensures Picking(Retire(s, p, code))
    ensures p != s.current ==> Inv(Retire(s, p, code))
  {
    hide TableOk; hide ListsOk; hide NoDup; hide Remove;
    RetireTable(s, p, code);
    RetireLists(s, p, code);
    RetireQueue(s, p);
  }

  lemma RetireQueue(s: Sched, p: Ptr)
    requires Inv(s) && p in s.queue
    ensures forall x :: x in Remove(s.queue, p) <==> x in s.queue && x != p
  {
    RemoveFacts(s.queue, p);
  }

  lemma RetireTable(s: Sched, p: Ptr, code: int)
    requires Inv(s) && p in s.queue
    ensures var t := Retire(s, p, code); TableOk(t.pcb, t.table, t.nextPid)
  {
    hide OthersWait; hide IdleOk; hide Remove; hide NoDup;
    SameShape(s, Retire(s, p, code).pcb);
  }

  lemma RetireLists(s: Sched, p: Ptr, code: int)
    requires Inv(s) && p in s.queue
    ensures var t := Retire(s, p, code); ListsOk(t.pcb, t.queue, t.zombies)
  {
    hide TableOk; hide OthersWait; hide IdleOk; hide Remove; hide NoDup;
    RemoveFacts(s.queue, p);
    PushFront(s.zombies, p);
  }

  lemma PushFront(zs: seq<Ptr>, p: Ptr)
    requires NoDup(zs) && p !in zs
    ensures NoDup([p] + zs) && forall q :: q in [p] + zs <==> q == p || q in zs
  {
    var t := [p] + zs;
    assert t[0] == p && forall i :: 1 <= i < |t| ==> t[i] == zs[i - 1];
  }

  lemma AdmitKeepsInv(s: Sched, p: Ptr, b: Pcb)
    requires Inv(s) && NewProcess(s, p, b)
    ensures Inv(Admit(s, p, b))
  {
    hide TableOk; hide NoDup; hide FreeSlot;
    AdmitTable(s, p, b);
    PushBack(s.queue, p);
  }

  lemma PushBack(q: seq<Ptr>, p: Ptr)
    requires NoDup(q) && p !in q
    ensures NoDup(q + [p]) && forall x :: x in q + [p] <==> x in q || x == p
  {
  }

  lemma AdmitTable(s: Sched, p: Ptr, b: Pcb)
    requires Inv(s) && NewProcess(s, p, b)
    ensures var t := Admit(s, p, b); TableOk(t.pcb, t.table, t.nextPid)
  {
    var t := Admit(s, p, b);
    var k := FreeSlot(s.table);
    hide ListsOk; hide OthersWait; hide IdleOk;
    assert t.table[k] == p;
    forall q | q != 0 && q in s.table ensures q in t.table {
      var i :| 0 <= i < |s.table| && s.table[i] == q;
      assert t.table[i] == q;
    }
  }

  lemma WakeKeepsInv(s: Sched)
    requires Inv(s)
    ensures Inv(Wake(s))
  {
    var t := Wake(s);
    assert t.pcb.Keys == s.pcb.Keys;
    SameShape(s, t.pcb);
    hide TableOk; hide NoDup;
  }

  lemma {:induction false} FilterNoDup(s: Sched, zs: seq<Ptr>)
    requires NoDup(zs) && forall z :: z in zs ==> z in s.pcb
    ensures NoDup(Filter(s, zs))
  {
    hide Kept;
    if zs != [] {
      assert forall i :: 0 <= i < |zs| - 1 ==> zs[1..][i] == zs[i + 1];
      FilterNoDup(s, zs[1..]);
      var r := Filter(s, zs[1..]);
      assert zs[0] !in zs[1..];
      if Kept(s, zs[0]) {
        assert Filter(s, zs) == [zs[0]] + r;
      }
    }
  }

  lemma ReapedFacts(s: Sched)
    requires Inv(s)
    ensures forall z :: z in s.zombies ==> z in s.pcb
    ensures forall p :: p in Reap(s).pcb <==> p in s.pcb && p !in Reaped(s)
  {
    hide TableOk; hide NoDup; hide Kept; hide Filter; hide OthersWait; hide IdleOk; hide Cleared;
  }

  lemma ReapKeepsTable(s: Sched)
    requires Inv(s)
    ensures var t := Reap(s); TableOk(t.pcb, t.table, t.nextPid)
    ensures forall p :: p in Reap(s).pcb <==> p in s.pcb && p !in Reaped(s)
  {
    ReapedFacts(s);
    ClearedTable(s.pcb, s.table, s.nextPid, Reaped(s));
  }

  /** Removing processes from control blocks and table together keeps the table in order. */
  lemma ClearedTable(pcb: map<Ptr, Pcb>, table: seq<Ptr>, nextPid: nat, gone: set<Ptr>)
    requires TableOk(pcb, table, nextPid)
    ensures TableOk(pcb - gone, Cleared(table, gone), nextPid)
  {
    var t := Cleared(table, gone);
    forall p ensures p in pcb - gone <==> p != 0 && p in t {
      if p in pcb - gone {
        var i :| 0 <= i < |table| && table[i] == p;
        assert t[i] == p;
      }
      if p != 0 && p in t {
        var i :| 0 <= i < |t| && t[i] == p;
        assert table[i] == p;
      }
    }
  }

  lemma ReapKeepsInv(s: Sched)
    requires Inv(s)
    ensures Inv(Reap(s))
  {
    hide TableOk; hide ListsOk; hide NoDup; hide Kept; hide Filter; hide Cleared;
    ReapKeepsTable(s);
    ReapKeepsLists(s);
  }

  lemma ReapKeepsLists(s: Sched)
    requires Inv(s)
    ensures var t := Reap(s); ListsOk(t.pcb, t.queue, t.zombies)
    ensures forall p :: p in s.queue ==> p in s.pcb && p !in Reaped(s)
    ensures forall z :: z in s.zombies ==> z in s.pcb
  {
    hide TableOk; hide NoDup; hide Kept; hide Cleared; hide OthersWait; hide IdleOk;
    FilterNoDup(s, s.zombies);
  }

  lemma QuantumKeepsInv(s: Sched)
    requires Inv(s)
    ensures Inv(Quantum(s))
  {
    hide TableOk; hide ListsOk; hide NoDup; hide FirstReady; hide PickAndSwitch; hide Waiting;
    var b := s.pcb[s.current];
    var t := if b.ticks > 0 then b.ticks - 1 else 0;
    var s1 := s.(pcb := s.pcb[s.current := b.(ticks := t)]);
    TicksKeepInv(s, t);
    TicksKeepInv(s, b.priority);
    PickKeepsInv(s1);
    assert s1.pcb[s.current := b.(ticks := b.priority)] == s.pcb[s.current := b.(ticks := b.priority)];
    NextIsNotCurrent(s1);
  }

  lemma TicksKeepInv(s: Sched, t: nat)
    requires Inv(s)
    ensures Inv(s.(pcb := s.pcb[s.current := s.pcb[s.current].(ticks := t)]))
  {
    SameShape(s, s.pcb[s.current := s.pcb[s.current].(ticks := t)]);
    hide TableOk; hide ListsOk;
  }

  lemma NextIsNotCurrent(s: Sched)
    requires Inv(s)
    ensures var k := FirstReady(s.pcb, s.queue); k < |s.queue| ==> s.queue[k] != s.current
  {
  }

  /** Every step of every run keeps the global process invariant. */
  lemma ApplyKeepsInv(s: Sched, step: Step)
    requires Inv(s) && Enabled(s, step)
    ensures Inv(Apply(s, step))
  {
    match step
    case Create(p, b) => AdmitKeepsInv(s, p, b);
    case CreateFailed(pids) =>
    case CreateDoomed(p, b) =>
      AdmitKeepsInv(s, p, b);
      RetireFacts(Admit(s, p, b), p, b.exitCode);
    case Tick =>
      ReapKeepsInv(s);
      WakeKeepsInv(Reap(s));
      QuantumKeepsInv(Wake(Reap(s)));
    case Yield => PickKeepsInv(s);
    case Exit(code) =>
      RetireFacts(s, s.current, code);
      PickKeepsInv(Retire(s, s.current, code));
  }

  // ---------------------------------------------------------------- reaping step by step

  ghost function ReapedIn(s: Sched, n: nat): set<Ptr>
    requires n <= |s.zombies| && forall z :: z in s.zombies ==> z in s.pcb
  {
    set z | z in s.zombies[..n] && !Kept(s, z)
  }

  /** The state when the reaper's walk has passed the first `n` zombies. */
  ghost function PartReap(s: Sched, n: nat): Sched
    requires n <= |s.zombies| && forall z :: z in s.zombies ==> z in s.pcb
  {
    assert forall z :: z in s.zombies[..n] ==> z in s.zombies;
    s.(zombies := Filter(s, s.zombies[..n]) + s.zombies[n..], pcb := s.pcb - ReapedIn(s, n),
      table := Cleared(s.table, ReapedIn(s, n)))
  }

  lemma {:induction false} FilterAppend(s: Sched, zs: seq<Ptr>, z: Ptr, ys: seq<Ptr>)
    requires ys == zs + [z] && (forall x :: x in ys ==> x in s.pcb) && (forall x :: x in zs ==> x in s.pcb)
             && z in s.pcb
    ensures Filter(s, ys) == Filter(s, zs) + (if Kept(s, z) then [z] else [])
  {
    hide Kept;
    if zs == [] {
      assert ys == [z] && ys[1..] == [];
    } else {
      assert ys[1..] == zs[1..] + [z] && ys[0] == zs[0];
      assert forall x :: x in zs[1..] ==> x in zs;
      assert forall x :: x in ys[1..] ==> x in ys;
      FilterAppend(s, zs[1..], z, ys[1..]);
      FilterUnfold(s, ys);
      FilterUnfold(s, zs);
      hide Filter;
    }
  }

  lemma FilterUnfold(s: Sched, zs: seq<Ptr>)
    requires zs != [] && forall x :: x in zs ==> x in s.pcb
    ensures zs[0] in s.pcb && (forall x :: x in zs[1..] ==> x in s.pcb)
    ensures Filter(s, zs) == (if Kept(s, zs[0]) then [zs[0]] else []) + Filter(s, zs[1..])
  {
    hide Kept;
  }

  /** Freeing zombies does not change who counts as alive, though the table the test reads is edited. */
  lemma AliveStable(s: Sched, gone: set<Ptr>, t: Sched, pid: nat)
    requires TableOk(s.pcb, s.table, s.nextPid)
    requires forall z :: z in gone ==> z in s.pcb && s.pcb[z].state == Zombie
    requires t.pcb == s.pcb - gone && t.table == Cleared(s.table, gone)
    ensures Alive(t, pid) == Alive(s, pid)
  {
    var p, q := Lookup(s, pid), Lookup(t, pid);
    if p != 0 && p !in gone {
      var i :| 0 <= i < |s.table| && s.table[i] == p;
      assert t.table[i] == p;
      assert p in t.table && p in t.pcb && t.pcb[p].pid == pid;
      assert q != 0;
    }
    if q != 0 {
      var i :| 0 <= i < |t.table| && t.table[i] == q;
      assert s.table[i] == q;
      assert q in s.table && q in s.pcb && s.pcb[q].pid == pid;
      assert p != 0 && p == q;
    }
  }

  lemma PartReapStart(s: Sched)
    requires forall z :: z in s.zombies ==> z in s.pcb
    ensures PartReap(s, 0) == s
  {
    assert s.zombies[..0] == [];
    assert ReapedIn(s, 0) == {};
    assert s.pcb - {} == s.pcb;
    assert Cleared(s.table, {}) == s.table;
    assert [] + s.zombies[0..] == s.zombies;
  }

  lemma PartReapDone(s: Sched)
    requires forall z :: z in s.zombies ==> z in s.pcb
    ensures PartReap(s, |s.zombies|) == Reap(s)
  {
    assert s.zombies[..|s.zombies|] == s.zombies;
    assert ReapedIn(s, |s.zombies|) == Reaped(s);
  }

  /** The next zombie is kept exactly if its parent was alive at the start. */
  lemma PartReapJudges(s: Sched, n: nat, t: Sched, z: Ptr)
    requires Inv(s) && n < |s.zombies| && (forall x :: x in s.zombies ==> x in s.pcb) && t == PartReap(s, n)
             && z == s.zombies[n]
    ensures z in t.pcb && t.pcb[z] == s.pcb[z] && z in s.pcb && Alive(t, s.pcb[z].parent) == Kept(s, z)
    ensures z in t.zombies && z !in t.queue && s.pcb[z].state == Zombie
    ensures |Filter(s, s.zombies[..n])| < |t.zombies| && t.zombies[|Filter(s, s.zombies[..n])|] == z
  {
    hide Kept; hide Filter; hide TableOk; hide Cleared; hide IdleOk; hide OthersWait;
    assert z in s.zombies;
    assert z !in s.zombies[..n];
    AliveStable(s, ReapedIn(s, n), t, s.pcb[z].parent);
    KeptIsAlive(s, z);
    var k := |Filter(s, s.zombies[..n])|;
    assert t.zombies[k] == s.zombies[n..][0];
  }

  lemma KeptIsAlive(s: Sched, z: Ptr)
    requires z in s.pcb
    ensures Kept(s, z) == Alive(s, s.pcb[z].parent)
  {
  }

  lemma PartReapStep(s: Sched, n: nat, t: Sched, u: Sched, z: Ptr)
    requires Inv(s) && n < |s.zombies| && (forall x :: x in s.zombies ==> x in s.pcb)
    requires t == PartReap(s, n) && u == PartReap(s, n + 1) && z == s.zombies[n]
    ensures z in s.pcb
    ensures Kept(s, z) ==> u == t
    ensures !Kept(s, z) ==>
              && ReapedIn(s, n + 1) == ReapedIn(s, n) + {z}
              && u.zombies == Filter(s, s.zombies[..n]) + s.zombies[n + 1..]
              && u.pcb == t.pcb - {z} && u.table == Cleared(t.table, {z})
              && u.queue == t.queue && u.current == t.current && u.nextPid == t.nextPid && u.idle == t.idle
  {
    hide Kept; hide Filter; hide Inv;
    ReapedStep(s, n, z);
    FilterStep(s, n, z);
    if Kept(s, z) {
      var a, b := Filter(s, s.zombies[..n]), s.zombies[n + 1..];
      assert a + [z] + b == a + ([z] + b);
    }
  }

  lemma ReapedStep(s: Sched, n: nat, z: Ptr)
    requires n < |s.zombies| && (forall x :: x in s.zombies ==> x in s.pcb) && z == s.zombies[n]
    ensures z in s.pcb && ReapedIn(s, n + 1) == ReapedIn(s, n) + (if Kept(s, z) then {} else {z})
  {
    hide Kept;
    assert z in s.zombies;
    assert s.zombies[..n + 1] == s.zombies[..n] + [z];
  }

  lemma FilterStep(s: Sched, n: nat, z: Ptr)
    requires n < |s.zombies| && (forall x :: x in s.zombies ==> x in s.pcb) && z == s.zombies[n]
    ensures z in s.pcb && (forall x :: x in s.zombies[..n + 1] ==> x in s.pcb)
            && (forall x :: x in s.zombies[..n] ==> x in s.pcb)
    ensures Filter(s, s.zombies[..n + 1]) == Filter(s, s.zombies[..n]) + (if Kept(s, z) then [z] else [])
    ensures s.zombies[n..] == [z] + s.zombies[n + 1..]
  {
    hide Kept; hide Filter;
    assert z in s.zombies;
    assert s.zombies[..n + 1] == s.zombies[..n] + [z];
    assert forall x :: x in s.zombies[..n] ==> x in s.zombies;
    FilterAppend(s, s.zombies[..n], z, s.zombies[..n + 1]);
  }

  /** Throughout the walk the table names exactly the remaining control blocks, each once. */
  lemma PartReapTable(s: Sched, n: nat, t: Sched)
    requires Inv(s) && n <= |s.zombies| && (forall x :: x in s.zombies ==> x in s.pcb) && t == PartReap(s, n)
    ensures forall q :: q in t.table && q != 0 ==> q in t.pcb
    ensures forall i, j :: 0 <= i < j < |t.table| && t.table[i] != 0 ==> t.table[i] != t.table[j]
    ensures s.current in t.pcb && s.idle in t.pcb && s.idle !in t.zombies
    ensures forall z :: z in ReapedIn(s, n) ==> z in s.pcb && z != s.idle && z != s.current
  {
    hide Kept; hide NoDup;
    assert forall z :: z in s.zombies[..n] ==> z in s.zombies;
    forall q | q in t.table && q != 0 ensures q in t.pcb {
      var i :| 0 <= i < |t.table| && t.table[i] == q;
      assert s.table[i] == q;
    }
  }

  // ---------------------------------------------------------------- what scheduling leaves alone

  /** The same page directory and stacks. */
  predicate SameHoldings(b: Pcb, c: Pcb) {
    b.cr3 == c.cr3 && b.stackLo == c.stackLo && b.stackHi == c.stackHi
  }

  ghost predicate KeepsHoldings(pcb: map<Ptr, Pcb>, pcb': map<Ptr, Pcb>) {
    pcb'.Keys == pcb.Keys && forall p :: p in pcb && p in pcb' ==> SameHoldings(pcb[p], pcb'[p])
  }

  /** Picking depends on neither table nor pids, and changes neither. */
  lemma PickFrame(s: Sched, t: seq<Ptr>, n: nat)
    requires s.current in s.pcb && forall p :: p in s.queue ==> p in s.pcb
    ensures PickAndSwitch(s.(table := t, nextPid := n)) == PickAndSwitch(s).(table := t, nextPid := n)
    ensures KeepsHoldings(s.pcb, PickAndSwitch(s).pcb)
  {
    hide FirstReady;
  }

  lemma WakeFrame(s: Sched, t: seq<Ptr>, n: nat)
    ensures Wake(s.(table := t, nextPid := n)) == Wake(s).(table := t, nextPid := n)
    ensures KeepsHoldings(s.pcb, Wake(s).pcb)
  {
  }

  lemma QuantumFrame(s: Sched, t: seq<Ptr>, n: nat)
    requires s.current in s.pcb && forall p :: p in s.queue ==> p in s.pcb
    ensures Quantum(s.(table := t, nextPid := n)) == Quantum(s).(table := t, nextPid := n)
    ensures KeepsHoldings(s.pcb, Quantum(s).pcb)
  {
    hide FirstReady; hide PickAndSwitch;
    var b := s.pcb[s.current];
    var s1 := s.(pcb := s.pcb[s.current := b.(ticks := if b.ticks > 0 then b.ticks - 1 else 0)]);
    PickFrame(s1, t, n);
  }

  /** The parts of a tick. */
  lemma TickParts(s: Sched, u: Sched, v: Sched)
    requires Inv(s) && (forall z :: z in s.zombies ==> z in s.pcb) && u == Reap(s) && v == Wake(u)
    ensures Inv(u) && Inv(v) && v.current in v.pcb && (forall p :: p in v.queue ==> p in v.pcb)
    ensures TickOf(s) == Quantum(v)
  {
    hide Inv; hide Picking; hide Quantum; hide Reap; hide Wake;
    ReapKeepsInv(s);
    WakeKeepsInv(u);
    CurrentKnown(v);
  }

  lemma CurrentKnown(s: Sched)
    requires Inv(s)
    ensures s.current in s.queue && s.current in s.pcb && s.current != 0 && s.current !in s.zombies
    ensures forall p :: p in s.queue ==> p in s.pcb
  {
  }

  /** The parts of an exit: whoever takes over is another process, and the zombie stays one. */
  lemma ExitParts(s: Sched, u: Sched, t: Sched, code: int)
    requires Inv(s) && s.current != s.idle && s.current in s.pcb && u == Retire(s, s.current, code)
    requires Picking(u) && u.current !in u.queue && t == PickAndSwitch(u)
    ensures t == ExitOf(s, code) && t.current != s.current
    ensures s.current in t.pcb && t.pcb[s.current].state == Zombie && t.pcb[s.current].exitCode == code
  {
    hide TableOk; hide ListsOk; hide IdleOk; hide OthersWait; hide Remove; hide FirstReady;
    PickKeepsInv(u);
    SuccessorExists(u);
  }

  lemma RetireHoldings(s: Sched, p: Ptr, code: int)
    requires p in s.pcb
    ensures KeepsHoldings(s.pcb, Retire(s, p, code).pcb)
  {
  }

  lemma PickingKnown(s: Sched)
    requires Picking(s)
    ensures s.current in s.pcb && forall p :: p in s.queue ==> p in s.pcb
  {
  }

  lemma ZombiesNonNull(s: Sched)
    requires Inv(s)
    ensures forall i :: 0 <= i < |s.zombies| ==> s.zombies[i] != 0
  {
    forall i | 0 <= i < |s.zombies| ensures s.zombies[i] != 0 {
      assert s.zombies[i] in s.zombies;
      assert s.zombies[i] in s.pcb;
    }
  }

  lemma RetiredCurrent(s: Sched, u: Sched, code: int)
    requires Inv(s) && s.current in s.pcb && u == Retire(s, s.current, code)
    ensures u.current == s.current && u.current !in u.queue
  {
    RetireQueue(s, s.current);
  }
}
