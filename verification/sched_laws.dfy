/**
 What the steps of the scheduler do, said of the states before and after and
 not of the functions that compute them: who runs next and for how long, when a
 sleeper wakes, which zombies go, and what stays as it was. Over runs: a
 process switched to has the processor for exactly its quantum, and a sleeper
 sleeps exactly its ticks.
 */
module SchedLaws {
  import opened SchedSpec
  import opened SchedRuns

  /** READY when a tick picks: READY already, or a sleeper on its last tick. */
  predicate Runnable(b: Pcb) { b.state == Ready || (b.state == Blocked && b.sleep == 1) }

  predicate Sleeps(b: Pcb) { b.state == Blocked && b.sleep > 0 }

  /** Some process that has not ended has the pid of the parent of `z`; pid 0 does not count. */
  ghost predicate Claimed(s: Sched, z: Ptr)
    requires z in s.pcb
  {
    exists p :: p in s.pcb && s.pcb[p].pid == s.pcb[z].parent != 0 && s.pcb[p].state != Zombie && s.pcb[p].state != Dead
  }

  /**
   Process `k` of the queue, with control block `b`, takes over: with a full
   quantum, everyone up to it now behind the others.
   */
  ghost predicate TakesOver(s: Sched, t: Sched, k: nat, b: Pcb)
    requires k < |s.queue|
  {
    && t.current == s.queue[k] && t.current in t.pcb
    && t.pcb[t.current] == b.(state := Running, ticks := b.priority)
    && t.queue == s.queue[k + 1..] + s.queue[..k + 1]
  }

  /** `k` is the place in the queue of the first READY process, or the length of the queue. */
  ghost predicate NextReady(s: Sched, k: nat) {
    && k <= |s.queue| && (forall p :: p in s.queue ==> p in s.pcb)
    && (k < |s.queue| ==> s.pcb[s.queue[k]].state == Ready)
    && forall i :: 0 <= i < k ==> s.pcb[s.queue[i]].state != Ready
  }

  ghost predicate NextRunnable(s: Sched, k: nat) {
    && k <= |s.queue| && (forall p :: p in s.queue ==> p in s.pcb)
    && (k < |s.queue| ==> Runnable(s.pcb[s.queue[k]]))
    && forall i :: 0 <= i < k ==> !Runnable(s.pcb[s.queue[i]])
  }

  /** Nobody's control block but those of the processes switched from and to is different. */
  ghost predicate OthersSame(s: Sched, t: Sched) {
    && t.pcb.Keys == s.pcb.Keys && t.zombies == s.zombies && t.table == s.table && t.idle == s.idle
    && t.nextPid == s.nextPid
    && forall p :: p in s.pcb && p != s.current && p != t.current ==> t.pcb[p] == s.pcb[p]
  }

  // ---------------------------------------------------------------- picking

  /** The first READY process takes over from the running one, or from one that has ended; with none nothing changes. */
  lemma PickLaw(s: Sched, t: Sched, k: nat)
    requires Picking(s) && t == PickAndSwitch(s) && NextReady(s, k)
    ensures s.current in s.pcb && OthersSame(s, t)
    ensures if k == |s.queue| then t == s
            else
              && TakesOver(s, t, k, s.pcb[s.queue[k]]) && t.current != s.current
              && t.pcb[s.current] == s.pcb[s.current].(state := if s.current in s.queue then Ready else Zombie)
  {
    hide TableOk; hide ListsOk; hide NoDup; hide OthersWait; hide IdleOk;
    QueueFacts(s);
    assert FirstReady(s.pcb, s.queue) == k;
    if k < |s.queue| { assert s.queue[k] in s.queue; }
  }

  // ---------------------------------------------------------------- reaping and waking

  lemma KeptIffClaimed(s: Sched, z: Ptr)
    requires Inv(s) && z in s.pcb
    ensures Kept(s, z) <==> Claimed(s, z)
  {
    hide ListsOk; hide OthersWait; hide IdleOk;
  }

  /** A control block once its process has slept one more tick. */
  function Slept(b: Pcb): Pcb {
    if !Sleeps(b) then b else if b.sleep == 1 then b.(sleep := 0, state := Ready) else b.(sleep := b.sleep - 1)
  }

  /** What reaping and waking leave alone. */
  ghost predicate SameLists(s: Sched, t: Sched) {
    t.queue == s.queue && t.current == s.current && t.idle == s.idle && t.nextPid == s.nextPid
  }

  lemma ReapPart(s: Sched, u: Sched)
    requires Inv(s) && (forall z :: z in s.zombies ==> z in s.pcb) && u == Reap(s)
    ensures Inv(u) && SameLists(s, u) && u.zombies == Filter(s, s.zombies)
    ensures forall p :: p in u.pcb <==> p in s.pcb && (p in s.zombies ==> Claimed(s, p))
    ensures forall p :: p in u.pcb ==> u.pcb[p] == s.pcb[p]
    ensures forall p :: p in s.queue ==> p in s.pcb && p in u.pcb && p !in s.zombies
  {
    hide TableOk; hide NoDup; hide Kept; hide Filter; hide Cleared; hide Claimed; hide OthersWait; hide IdleOk;
    ReapKeepsInv(s);
    ReapKeepsTable(s);
    ReapKeepsLists(s);
    hide Inv;
    forall z | z in s.pcb ensures Kept(s, z) <==> Claimed(s, z) { KeptIffClaimed(s, z); }
  }

  lemma WakePart(u: Sched, v: Sched)
    requires Inv(u) && v == Wake(u)
    ensures Inv(v) && SameLists(u, v) && v.zombies == u.zombies && v.pcb.Keys == u.pcb.Keys
    ensures forall p :: p in v.pcb ==> v.pcb[p] == if p in u.queue then Slept(u.pcb[p]) else u.pcb[p]
  {
    hide Picking;
    WakeKeepsInv(u);
  }

  /** Reaping and waking, before the quantum is looked at. */
  lemma ReapAndWake(s: Sched, v: Sched)
    requires Inv(s) && (forall z :: z in s.zombies ==> z in s.pcb) && v == Wake(Reap(s))
    ensures Inv(v) && SameLists(s, v) && v.zombies == Filter(s, s.zombies)
    ensures forall p :: p in v.pcb <==> p in s.pcb && (p in s.zombies ==> Claimed(s, p))
    ensures forall p :: p in v.pcb ==> v.pcb[p] == if p in s.queue then Slept(s.pcb[p]) else s.pcb[p]
    ensures forall p :: p in s.queue ==> p in s.pcb && p in v.pcb && p !in s.zombies
  {
    hide Inv; hide Reap; hide Wake; hide Filter; hide Claimed; hide Slept;
    ReapPart(s, Reap(s));
    WakePart(Reap(s), v);
  }

  /** Who a tick can pick is READY once the sleepers have been looked at. */
  lemma RunnableIsReady(s: Sched, v: Sched, k: nat)
    requires Inv(s) && v.queue == s.queue && forall p :: p in s.queue ==> p in s.pcb && p in v.pcb
    requires forall p :: p in v.pcb && p in s.queue ==> v.pcb[p] == Slept(s.pcb[p])
    ensures s.current in s.queue && v.pcb[s.current] == s.pcb[s.current]
    ensures NextRunnable(s, k) <==> NextReady(v, k)
  {
    hide TableOk; hide ListsOk; hide NoDup;
    assert forall i :: 0 <= i < |s.queue| ==> s.queue[i] in s.queue;
  }

  // ---------------------------------------------------------------- a tick

  /** The end of a quantum. */
  lemma ExpiredLaw(u: Sched, t: Sched, k: nat)
    requires Inv(u) && NextReady(u, k) && t == Expired(u)
    ensures u.current in u.pcb && OthersSame(u, t)
    ensures var b := u.pcb[u.current];
            if k < |u.queue| then
              && TakesOver(u, t, k, u.pcb[u.queue[k]]) && t.current != u.current
              && t.pcb[u.current] == b.(state := Ready)
            else t.current == u.current && t.queue == u.queue && t.pcb[u.current] == b.(ticks := b.priority)
  {
    hide TableOk; hide ListsOk; hide NoDup; hide IdleOk; hide OthersWait; hide PickAndSwitch; hide Rotate;
    assert FirstReady(u.pcb, u.queue) == k;
    hide FirstReady;
    NextIsNotCurrent(u);
    PickLaw(u, PickAndSwitch(u), k);
  }

  lemma QuantumLaw(v: Sched, t: Sched, k: nat)
    requires Inv(v) && NextReady(v, k) && t == Quantum(v)
    ensures v.current in v.pcb && OthersSame(v, t)
    ensures var b := v.pcb[v.current];
            if b.ticks <= 1 && k < |v.queue| then
              && TakesOver(v, t, k, v.pcb[v.queue[k]]) && t.current != v.current
              && t.pcb[v.current] == b.(ticks := 0, state := Ready)
            else
              && t.current == v.current && t.queue == v.queue
              && t.pcb[v.current] == b.(ticks := if b.ticks > 1 then b.ticks - 1 else b.priority)
  {
    hide Inv; hide Expired; hide Ticked; hide NextReady; hide TakesOver; hide OthersSame;
    CurrentQueued(v);
    QueueIsKnown(v);
    var u := Ticked(v);
    TickedPart(v, u, k);
    if u.pcb[u.current].ticks == 0 {
      ExpiredLaw(u, t, k);
      if k < |v.queue| { SameTakeOver(v, u, t, k); }
      OthersAreSame(v, u, t);
    } else {
      OthersAreSame(v, u, u);
    }
  }

  /** One tick off the running process changes nothing else. */
  lemma TickedPart(v: Sched, u: Sched, k: nat)
    requires Inv(v) && NextReady(v, k) && v.current in v.pcb && u == Ticked(v)
    ensures Inv(u) && NextReady(u, k) && SameLists(v, u) && OthersSame(v, u)
    ensures var b := v.pcb[v.current]; u.pcb[u.current] == b.(ticks := if b.ticks > 1 then b.ticks - 1 else 0)
  {
    hide Picking;
    TicksKeepInv(v, u.pcb[u.current].ticks);
  }

  lemma SameTakeOver(v: Sched, u: Sched, t: Sched, k: nat)
    requires SameLists(v, u) && OthersSame(v, u) && k < |v.queue| && v.queue[k] in v.pcb
    requires TakesOver(u, t, k, u.pcb[u.queue[k]]) && t.current != u.current
    ensures TakesOver(v, t, k, v.pcb[v.queue[k]])
  {
  }

  lemma OthersAreSame(v: Sched, u: Sched, t: Sched)
    requires SameLists(v, u) && OthersSame(v, u) && OthersSame(u, t)
    ensures OthersSame(v, t)
  {
  }

  lemma QueueIsKnown(s: Sched)
    requires Inv(s)
    ensures forall i :: 0 <= i < |s.queue| ==> s.queue[i] in s.pcb
  {
    QueueFacts(s);
  }

  lemma CurrentQueued(s: Sched)
    requires Inv(s)
    ensures s.current in s.pcb && s.current in s.queue && s.queue != [] && s.pcb[s.current].state == Running
  {
  }

  /**
   A tick. With more than one tick left the running process goes on with one
   less. On its last tick the first process of the queue that is READY, or wakes
   now, takes over; with none it starts a new quantum.
   */
  lemma TickLaw(s: Sched, t: Sched, k: nat)
    requires Inv(s) && t == Apply(s, Tick) && NextRunnable(s, k)
    ensures s.current in s.pcb && s.current in t.pcb
    ensures var b := s.pcb[s.current];
            if b.ticks <= 1 && k < |s.queue| then
              && TakesOver(s, t, k, Slept(s.pcb[s.queue[k]])) && t.current != s.current
              && t.pcb[s.current] == b.(ticks := 0, state := Ready)
            else
              && t.current == s.current && t.queue == s.queue
              && t.pcb[s.current] == b.(ticks := if b.ticks > 1 then b.ticks - 1 else b.priority)
  {
    hide Picking; hide Reap; hide Wake; hide Quantum; hide Claimed; hide Filter;
    ReapKeepsLists(s);
    var v := Wake(Reap(s));
    ReapAndWake(s, v);
    RunnableIsReady(s, v, k);
    QuantumLaw(v, t, k);
    if k < |s.queue| { assert s.queue[k] in s.queue; }
  }

  /** Everyone else sleeps one tick more or is as before, and exactly the unclaimed zombies are gone. */
  lemma TickFrame(s: Sched, t: Sched, p: Ptr)
    requires Inv(s) && t == Apply(s, Tick)
    ensures p in t.pcb <==> p in s.pcb && (p in s.zombies ==> Claimed(s, p))
    ensures p in t.zombies <==> p in s.zombies && p in s.pcb && Claimed(s, p)
    ensures p in t.pcb && p != s.current && p != t.current ==>
              t.pcb[p] == if p in s.queue then Slept(s.pcb[p]) else s.pcb[p]
    ensures p in t.queue <==> p in s.queue
    ensures p in t.pcb && p == t.current && p != s.current ==> t.pcb[p].sleep == Slept(s.pcb[p]).sleep
  {
    hide Inv; hide Reap; hide Wake; hide Quantum; hide Claimed; hide Slept;
    ReapKeepsLists(s);
    var v := Wake(Reap(s));
    BeforeQuantum(s, v, p);
    AfterQuantum(v, t, p);
  }

  lemma BeforeQuantum(s: Sched, v: Sched, p: Ptr)
    requires Inv(s) && (forall z :: z in s.zombies ==> z in s.pcb) && v == Wake(Reap(s))
    ensures Inv(v) && v.queue == s.queue && v.current == s.current && forall x :: x in v.queue ==> x in v.pcb
    ensures p in v.pcb <==> p in s.pcb && (p in s.zombies ==> Claimed(s, p))
    ensures p in v.pcb ==> v.pcb[p] == if p in s.queue then Slept(s.pcb[p]) else s.pcb[p]
    ensures p in v.zombies <==> p in s.zombies && p in s.pcb && Claimed(s, p)
    ensures s.current in s.queue && s.current in s.pcb && Slept(s.pcb[s.current]) == s.pcb[s.current]
  {
    hide Inv; hide Reap; hide Wake; hide Claimed;
    ReapAndWake(s, v);
    CurrentQueued(s);
    if p in s.pcb { KeptIffClaimed(s, p); }
  }

  lemma AfterQuantum(v: Sched, t: Sched, p: Ptr)
    requires Inv(v) && (forall x :: x in v.queue ==> x in v.pcb) && v.current in v.pcb && t == Quantum(v)
    ensures p in t.pcb <==> p in v.pcb
    ensures p in t.zombies <==> p in v.zombies
    ensures p in t.queue <==> p in v.queue
    ensures p in t.pcb && p != v.current && p != t.current ==> t.pcb[p] == v.pcb[p]
    ensures p in t.pcb ==> t.pcb[p].sleep == v.pcb[p].sleep
    ensures t.current in v.queue
  {
    hide Inv; hide Quantum;
    var k := NextExists(v);
    CurrentQueued(v);
    QuantumLaw(v, t, k);
    RotateMember(v, t, k, p);
  }

  lemma RotateMember(s: Sched, t: Sched, k: nat, p: Ptr)
    requires if k < |s.queue| && t.queue != s.queue then t.queue == s.queue[k + 1..] + s.queue[..k + 1]
             else t.queue == s.queue
    ensures p in t.queue <==> p in s.queue
  {
    if k < |s.queue| { assert s.queue == s.queue[..k + 1] + s.queue[k + 1..]; }
  }

  lemma NextExists(s: Sched) returns (k: nat)
    requires Inv(s)
    ensures NextReady(s, k)
  {
    QueueFacts(s);
    k := FirstReady(s.pcb, s.queue);
  }

  ghost predicate Before(q: seq<Ptr>, x: Ptr, y: Ptr) {
    exists i, j :: 0 <= i < j < |q| && q[i] == x && q[j] == y
  }

  /** The zombies that stay keep their order. */
  lemma TickKeepsOrder(s: Sched, t: Sched, i: nat, j: nat)
    requires Inv(s) && t == Apply(s, Tick) && i < j < |t.zombies|
    ensures Before(s.zombies, t.zombies[i], t.zombies[j])
  {
    hide Inv; hide Reap; hide Wake; hide Quantum; hide Claimed; hide Filter;
    ReapKeepsLists(s);
    var v := Wake(Reap(s));
    ReapAndWake(s, v);
    var k := NextExists(v);
    QuantumLaw(v, t, k);
    FilterOrder(s, s.zombies, i, j);
  }

  lemma {:induction false} FilterOrder(s: Sched, zs: seq<Ptr>, i: nat, j: nat)
    requires (forall z :: z in zs ==> z in s.pcb) && i < j < |Filter(s, zs)|
    ensures Before(zs, Filter(s, zs)[i], Filter(s, zs)[j])
  {
    assert zs != [];
    hide Kept; hide Filter; hide Before;
    FilterUnfold(s, zs);
    var tail, fs := zs[1..], Filter(s, zs[1..]);
    var d := if Kept(s, zs[0]) then 1 else 0;
    var y := Filter(s, zs)[j];
    assert y == fs[j - d] && y in fs;
    if i >= d {
      FilterOrder(s, tail, i - d, j - d);
      BeforeInTail(zs, fs[i - d], y);
    } else {
      HeadIsBefore(zs, y);
    }
  }

  lemma HeadIsBefore(zs: seq<Ptr>, y: Ptr)
    requires zs != [] && y in zs[1..]
    ensures Before(zs, zs[0], y)
  {
    var b :| 0 <= b < |zs[1..]| && zs[1..][b] == y;
    assert zs[b + 1] == y;
  }

  lemma BeforeInTail(zs: seq<Ptr>, x: Ptr, y: Ptr)
    requires zs != [] && Before(zs[1..], x, y)
    ensures Before(zs, x, y)
  {
    var a, b :| 0 <= a < b < |zs[1..]| && zs[1..][a] == x && zs[1..][b] == y;
    assert zs[a + 1] == x && zs[b + 1] == y;
  }

  // ---------------------------------------------------------------- the other steps

  /** A yield: the first READY process takes over. */
  lemma YieldLaw(s: Sched, t: Sched, k: nat)
    requires Inv(s) && t == Apply(s, Yield) && NextReady(s, k)
    ensures s.current in s.pcb && OthersSame(s, t)
    ensures if k == |s.queue| then t == s
            else
              && TakesOver(s, t, k, s.pcb[s.queue[k]]) && t.current != s.current
              && t.pcb[s.current] == s.pcb[s.current].(state := Ready)
  {
    hide PickAndSwitch; hide TakesOver; hide OthersSame; hide NextReady;
    PickLaw(s, t, k);
    CurrentQueued(s);
  }

  lemma RemoveLength(q: seq<Ptr>, p: Ptr)
    requires p in q
    ensures |Remove(q, p)| == |q| - 1
  {
  }

  lemma RemoveIndex(q: seq<Ptr>, p: Ptr, i: nat)
    requires p in q && i < |q| && i != Pos(q, p)
    ensures var n := if i < Pos(q, p) then i else i - 1;
            n < |Remove(q, p)| && Remove(q, p)[n] == q[i]
  {
    hide Pos;
  }

  /** Taking the running process out of the queue leaves the first READY one. */
  lemma RemoveKeepsNext(s: Sched, r: Sched, k: nat, m: nat)
    requires s.current in s.queue && s.current in s.pcb && s.pcb[s.current].state == Running
    requires NextReady(s, k) && NextReady(r, m) && m < |r.queue| && r.queue == Remove(s.queue, s.current)
    requires forall p :: p in s.pcb && p in r.pcb && p != s.current ==> r.pcb[p] == s.pcb[p]
    requires s.current !in r.queue
    ensures k < |s.queue| && r.queue[m] == s.queue[k]
  {
    hide Remove; hide Pos;
    var q, c := s.queue, Pos(s.queue, s.current);
    RemoveLength(q, s.current);
    var n := if m < c then m else m + 1;
    RemoveIndex(q, s.current, n);
    assert r.queue[m] in r.queue && q[n] in q;
    forall i | 0 <= i < n ensures q[i] in s.pcb && s.pcb[q[i]].state != Ready {
      assert q[i] in q;
      if i != c { RemoveIndex(q, s.current, i); }
    }
  }

  /** An exit: the process becomes the first zombie, with its code, and the first READY process takes over. */
  lemma ExitLaw(s: Sched, code: int, t: Sched, k: nat)
    requires Inv(s) && s.current != s.idle && t == Apply(s, Exit(code)) && NextReady(s, k)
    ensures k < |s.queue| && s.current in s.pcb && s.current in t.pcb
    ensures t.pcb[s.current] == s.pcb[s.current].(state := Zombie, exitCode := code)
    ensures t.zombies == [s.current] + s.zombies && t.table == s.table && t.idle == s.idle && t.nextPid == s.nextPid
    ensures t.current == s.queue[k] != s.current && t.current in s.pcb && t.current in t.pcb
    ensures t.pcb[t.current] == s.pcb[t.current].(state := Running, ticks := s.pcb[t.current].priority)
    ensures t.pcb.Keys == s.pcb.Keys
    ensures forall p :: p in s.pcb && p != s.current && p != t.current ==> t.pcb[p] == s.pcb[p]
    ensures forall p :: p in t.queue <==> p in s.queue && p != s.current
  {
    hide Inv; hide Picking; hide PickAndSwitch; hide Remove; hide FirstReady;
    CurrentQueued(s);
    RetireFacts(s, s.current, code);
    var r := Retire(s, s.current, code);
    var m := RetiredNext(s, r, code);
    RemoveKeepsNext(s, r, k, m);
    PickLaw(r, t, m);
    forall p ensures p in t.queue <==> p in r.queue { RotateMember(r, t, m, p); }
  }

  lemma RetiredNext(s: Sched, r: Sched, code: int) returns (m: nat)
    requires Inv(s) && s.current in s.pcb && s.current != s.idle && r == Retire(s, s.current, code) && Picking(r)
    ensures m < |r.queue| && NextReady(r, m)
    ensures s.current !in r.queue && forall p :: p in r.queue <==> p in s.queue && p != s.current
  {
    RemoveFacts(s.queue, s.current);
    QueueFacts(r);
    hide ListsOk; hide TableOk; hide NoDup; hide Remove;
    SuccessorExists(r);
    m := FirstReady(r.pcb, r.queue);
  }

  /** A creation: the process waits at the end of the queue, or, doomed, is the first zombie; nobody else notices. */
  lemma CreateLaw(s: Sched, step: Step, t: Sched)
    requires Inv(s) && Enabled(s, step) && (step.Create? || step.CreateDoomed?) && t == Apply(s, step)
    ensures step.p !in s.pcb && t.pcb.Keys == s.pcb.Keys + {step.p} && t.current == s.current && t.idle == s.idle
    ensures forall q :: q in s.pcb ==> t.pcb[q] == s.pcb[q]
    ensures step.Create? ==> t.pcb[step.p] == step.b && t.queue == s.queue + [step.p] && t.zombies == s.zombies
    ensures step.CreateDoomed? ==>
              && t.pcb[step.p] == step.b.(state := Zombie)
              && t.queue == s.queue && t.zombies == [step.p] + s.zombies
  {
    hide TableOk; hide NoDup; hide FreeSlot; hide Remove;
    if step.CreateDoomed? { RemoveLast(s.queue, step.p); }
  }

  ghost function Filled(table: seq<Ptr>, n: nat): set<Ptr>
    requires n <= |table|
  {
    set i | 0 <= i < n && table[i] != 0 :: table[i]
  }

  ghost predicate SlotsDiffer(table: seq<Ptr>) {
    forall i, j :: 0 <= i < j < |table| && table[i] != 0 ==> table[i] != table[j]
  }

  ghost predicate NoneEmpty(table: seq<Ptr>, n: nat)
    requires n <= |table|
  {
    forall i :: 0 <= i < n ==> table[i] != 0
  }

  lemma FilledStep(table: seq<Ptr>, n: nat)
    requires n < |table| && SlotsDiffer(table)
    ensures Filled(table, n + 1) == Filled(table, n) + if table[n] != 0 then {table[n]} else {}
    ensures table[n] !in Filled(table, n)
    ensures NoneEmpty(table, n + 1) <==> NoneEmpty(table, n) && table[n] != 0
  {
  }

  lemma {:induction false} FilledSize(table: seq<Ptr>, n: nat)
    requires n <= |table| && SlotsDiffer(table)
    ensures |Filled(table, n)| <= n
    ensures |Filled(table, n)| == n <==> NoneEmpty(table, n)
  {
    if n == 0 {
      assert Filled(table, 0) == {};
    } else {
      hide Filled; hide SlotsDiffer; hide NoneEmpty;
      FilledSize(table, n - 1);
      FilledStep(table, n - 1);
      if table[n - 1] != 0 {
        assert |Filled(table, n)| == |Filled(table, n - 1)| + 1;
      } else {
        assert Filled(table, n) == Filled(table, n - 1);
      }
    }
  }

  /** There are at most sixteen processes, and the table is full exactly when there are sixteen. */
  lemma TableLaw(s: Sched)
    requires Inv(s)
    ensures |s.pcb.Keys| <= 16 && (FreeSlot(s.table) == |s.table| <==> |s.pcb.Keys| == 16)
  {
    hide ListsOk; hide OthersWait; hide IdleOk;
    FilledSize(s.table, |s.table|);
    assert s.pcb.Keys == Filled(s.table, |s.table|);
    assert FreeSlot(s.table) == |s.table| <==> forall i :: 0 <= i < |s.table| ==> s.table[i] != 0;
  }

  // ---------------------------------------------------------------- what no step changes

  /** No step changes who a process is, its parent, priority, memory or entry point; only its own exit sets its code. */
  lemma IdentityLaw(s: Sched, step: Step, t: Sched, p: Ptr)
    requires Inv(s) && Enabled(s, step) && t == Apply(s, step) && p in s.pcb && p in t.pcb
    ensures var b, c := s.pcb[p], t.pcb[p];
            && c == b.(state := c.state, ticks := c.ticks, sleep := c.sleep, exitCode := c.exitCode)
            && (c.exitCode != b.exitCode ==> step == Exit(c.exitCode) && p == s.current)
  {
    hide Inv; hide Apply; hide Claimed;
    match step
    case Create(_, _) => CreateLaw(s, step, t);
    case CreateDoomed(_, _) => CreateLaw(s, step, t);
    case CreateFailed(_) => OnlyPid(s, step, t);
    case Tick =>
      var k := RunnableExists(s);
      TickLaw(s, t, k);
      TickFrame(s, t, p);
    case Yield =>
      var k := NextExists(s);
      YieldLaw(s, t, k);
    case Exit(code) =>
      var k := NextExists(s);
      ExitLaw(s, code, t, k);
  }

  lemma OnlyPid(s: Sched, step: Step, t: Sched)
    requires Inv(s) && step.CreateFailed? && t == Apply(s, step)
    ensures t == s.(nextPid := t.nextPid) && t.nextPid >= s.nextPid
  {
  }

  lemma RunnableExists(s: Sched) returns (k: nat)
    requires Inv(s)
    ensures NextRunnable(s, k)
  {
    QueueFacts(s);
    hide Inv;
    k := 0;
    while k < |s.queue| && !Runnable(s.pcb[s.queue[k]])
      invariant k <= |s.queue| && forall i :: 0 <= i < k ==> !Runnable(s.pcb[s.queue[i]])
    {
      k := k + 1;
    }
  }

  // ---------------------------------------------------------------- the quantum, over runs

  /** A process that is switched to starts with a whole quantum. */
  lemma SwitchGivesQuantum(s: Sched, step: Step, t: Sched)
    requires Inv(s) && Enabled(s, step) && t == Apply(s, step) && t.current != s.current
    ensures t.current in s.pcb && t.current in t.pcb
    ensures t.pcb[t.current].ticks == t.pcb[t.current].priority == s.pcb[t.current].priority
  {
    hide Inv; hide Apply; hide Claimed;
    match step
    case Create(_, _) => CreateLaw(s, step, t);
    case CreateDoomed(_, _) => CreateLaw(s, step, t);
    case CreateFailed(_) => OnlyPid(s, step, t);
    case Tick =>
      var k := RunnableExists(s);
      TickLaw(s, t, k);
      if k < |s.queue| { assert s.queue[k] in s.queue; }
    case Yield =>
      var k := NextExists(s);
      YieldLaw(s, t, k);
      if k < |s.queue| { assert s.queue[k] in s.queue; }
    case Exit(code) =>
      var k := NextExists(s);
      ExitLaw(s, code, t, k);
  }

  /** The running process neither yields nor exits. */
  predicate Stays(steps: seq<Step>) {
    forall i :: 0 <= i < |steps| ==> !steps[i].Yield? && !steps[i].Exit?
  }

  /** While the running process has ticks left it goes on, each tick taking one. */
  lemma {:induction false} KeepsRunning(s: Sched, steps: seq<Step>)
    requires Inv(s) && RunEnabled(s, steps) && Stays(steps)
    requires s.current in s.pcb && Ticks(steps) < Max1(s.pcb[s.current].ticks)
    ensures var u := Run(s, steps);
            && u.current == s.current && u.current in u.pcb
            && u.pcb[u.current].ticks == s.pcb[s.current].ticks - Ticks(steps)
            && u.pcb[u.current].priority == s.pcb[s.current].priority
    decreases |steps|
  {
    hide Inv; hide Apply; hide Enabled;
    if steps != [] {
      var t := Apply(s, steps[0]);
      ApplyKeepsInv(s, steps[0]);
      StayStep(s, steps[0], t);
      KeepsRunning(t, steps[1..]);
    }
  }

  lemma StayStep(s: Sched, step: Step, t: Sched)
    requires Inv(s) && Enabled(s, step) && t == Apply(s, step) && !step.Yield? && !step.Exit?
    requires s.current in s.pcb && (step.Tick? ==> s.pcb[s.current].ticks > 1)
    ensures t.current == s.current && t.current in t.pcb && t.pcb[t.current].priority == s.pcb[s.current].priority
    ensures t.pcb[t.current].ticks == s.pcb[s.current].ticks - if step.Tick? then 1 else 0
  {
    hide Inv; hide Apply; hide Claimed;
    match step
    case Create(_, _) => CreateLaw(s, step, t);
    case CreateDoomed(_, _) => CreateLaw(s, step, t);
    case CreateFailed(_) => OnlyPid(s, step, t);
    case Tick =>
      var k := RunnableExists(s);
      TickLaw(s, t, k);
  }

  /**
   A process that was just switched to has the processor for exactly its
   quantum, max(1, priority) ticks, unless it yields or exits. Before that many
   ticks nobody takes over; at the last of them somebody does if anyone can.
   */
  lemma FullQuantum(s: Sched, step: Step, t: Sched, steps: seq<Step>, u: Sched)
    requires Inv(s) && Enabled(s, step) && t == Apply(s, step) && t.current != s.current
    requires (ApplyKeepsInv(s, step); RunEnabled(t, steps)) && Stays(steps) && u == Run(t, steps)
    requires t.current in t.pcb && Ticks(steps) < Max1(t.pcb[t.current].priority)
    ensures Inv(u) && u.current == t.current
    ensures var goesOn := Apply(u, Tick).current == u.current;
            if Ticks(steps) + 1 < Max1(t.pcb[t.current].priority) then goesOn
            else goesOn <==> forall p :: p in u.queue && p in u.pcb ==> !Runnable(u.pcb[p])
  {
    hide Inv; hide Apply; hide NewProcess;
    ApplyKeepsInv(s, step);
    SwitchGivesQuantum(s, step, t);
    KeepsRunning(t, steps);
    RunKeepsInv(t, steps);
    var k := RunnableExists(u);
    TickLaw(u, Apply(u, Tick), k);
  }

  // ---------------------------------------------------------------- sleeping, over runs

  /** Only a tick moves a sleeper, by one; on its last tick it is READY, or picked at once. */
  lemma SleepStep(s: Sched, step: Step, t: Sched, p: Ptr)
    requires Inv(s) && Enabled(s, step) && t == Apply(s, step)
    requires p in s.queue && p in s.pcb && Sleeps(s.pcb[p])
    ensures p in t.queue && p in t.pcb
    ensures if !step.Tick? then t.pcb[p] == s.pcb[p]
            else if s.pcb[p].sleep > 1 then t.pcb[p] == s.pcb[p].(sleep := s.pcb[p].sleep - 1)
            else t.pcb[p].sleep == 0 && t.pcb[p].state == if t.current == p then Running else Ready
  {
    hide Inv; hide Apply; hide Claimed;
    CurrentQueued(s);
    match step
    case Create(_, _) => CreateLaw(s, step, t);
    case CreateDoomed(_, _) => CreateLaw(s, step, t);
    case CreateFailed(_) => OnlyPid(s, step, t);
    case Tick =>
      var k := RunnableExists(s);
      TickLaw(s, t, k);
      TickFrame(s, t, p);
      QueuedIsNoZombie(s, p);
    case Yield =>
      var k := NextExists(s);
      YieldLaw(s, t, k);
      RotateMember(s, t, k, p);
    case Exit(code) =>
      var k := NextExists(s);
      ExitLaw(s, code, t, k);
  }

  lemma QueuedIsNoZombie(s: Sched, p: Ptr)
    requires Inv(s) && p in s.queue
    ensures p !in s.zombies
  {
  }

  /** A sleeper sleeps exactly as many ticks as it has to, whatever the others do, and then is READY or runs. */
  lemma {:induction false} SleepsExactly(s: Sched, steps: seq<Step>, p: Ptr)
    requires Inv(s) && RunEnabled(s, steps) && p in s.queue && p in s.pcb && Sleeps(s.pcb[p])
    requires Ticks(steps) < s.pcb[p].sleep
    ensures var u := Run(s, steps);
            && Inv(u) && p in u.queue && p in u.pcb
            && u.pcb[p] == s.pcb[p].(sleep := s.pcb[p].sleep - Ticks(steps))
            && (Ticks(steps) + 1 == s.pcb[p].sleep ==>
                  var v := Apply(u, Tick);
                  p in v.pcb && v.pcb[p].state == if v.current == p then Running else Ready)
    decreases |steps|
  {
    hide Inv; hide Apply; hide NewProcess;
    if steps != [] {
      var t := Apply(s, steps[0]);
      ApplyKeepsInv(s, steps[0]);
      SleepStep(s, steps[0], t, p);
      SleepsExactly(t, steps[1..], p);
    } else {
      SleepStep(s, Tick, Apply(s, Tick), p);
    }
  }
}
