/** Whole runs of the scheduler: the invariant in every reachable state, and bounded waiting. */
module SchedRuns {
  import opened SchedSpec

  /** Every step of the run is possible where it is taken. */
  ghost predicate RunEnabled(s: Sched, steps: seq<Step>)
    requires Inv(s)
    decreases |steps|
  {
    steps == [] ||
    (Enabled(s, steps[0]) && (ApplyKeepsInv(s, steps[0]); RunEnabled(Apply(s, steps[0]), steps[1..])))
  }

  ghost function Run(s: Sched, steps: seq<Step>): Sched
    requires Inv(s) && RunEnabled(s, steps)
    decreases |steps|
  {
    if steps == [] then s else ApplyKeepsInv(s, steps[0]); Run(Apply(s, steps[0]), steps[1..])
  }

  /** The invariant holds after every run, of any length and in any order of steps. */
  lemma {:induction false} RunKeepsInv(s: Sched, steps: seq<Step>)
    requires Inv(s) && RunEnabled(s, steps)
    ensures Inv(Run(s, steps))
    decreases |steps|
  {
    if steps != [] {
      ApplyKeepsInv(s, steps[0]);
      RunKeepsInv(Apply(s, steps[0]), steps[1..]);
    }
  }

  // ---------------------------------------------------------------- how long a process can wait

  function Max1(n: nat): nat { if n > 1 then n else 1 }

  /** Ticks the processes of `q` can hold the processor for, one quantum each. */
  ghost function Cost(pcb: map<Ptr, Pcb>, q: seq<Ptr>): nat
    requires forall p :: p in q ==> p in pcb
  {
    if q == [] then 0 else Max1(pcb[q[0]].priority) + Cost(pcb, q[1..])
  }

  ghost predicate Queued(s: Sched, p: Ptr) {
    Picking(s) && p in s.queue && p in s.pcb && s.pcb[p].state == Ready
  }

  /** What is left of the current quantum plus one quantum of everyone ahead of `p`. */
  ghost function Wait(s: Sched, p: Ptr): nat
    requires Queued(s, p)
  {
    Max1(s.pcb[s.current].ticks) + Cost(s.pcb, s.queue[..Pos(s.queue, p)])
  }

  lemma {:induction false} CostOfConcat(pcb: map<Ptr, Pcb>, a: seq<Ptr>, b: seq<Ptr>)
    requires forall p :: p in a + b ==> p in pcb
    ensures (forall p :: p in a ==> p in pcb) && (forall p :: p in b ==> p in pcb)
    ensures Cost(pcb, a + b) == Cost(pcb, a) + Cost(pcb, b)
  {
    assert forall p :: p in a || p in b ==> p in a + b;
    if a == [] {
      assert a + b == b;
    } else {
      assert (a + b)[1..] == a[1..] + b;
      CostOfConcat(pcb, a[1..], b);
    }
  }

  lemma {:induction false} CostSame(pcb: map<Ptr, Pcb>, pcb': map<Ptr, Pcb>, q: seq<Ptr>)
    requires forall p :: p in q ==> p in pcb && p in pcb' && pcb[p].priority == pcb'[p].priority
    ensures Cost(pcb, q) == Cost(pcb', q)
  {
    if q != [] {
      CostSame(pcb, pcb', q[1..]);
    }
  }

  lemma RotatePrefix(q: seq<Ptr>, k: nat, n: nat)
    requires NoDup(q) && k < n < |q|
    ensures Rotate(q, k)[..n - k - 1] == q[k + 1..n]
    ensures Pos(Rotate(q, k), q[n]) == n - k - 1
  {
    RotateFacts(q, k);
    assert Rotate(q, k)[n - k - 1] == q[n];
    PosIs(Rotate(q, k), n - k - 1);
  }

  lemma CostAhead(pcb: map<Ptr, Pcb>, q: seq<Ptr>, k: nat, n: nat)
    requires k < n <= |q| && forall p :: p in q ==> p in pcb
    ensures Max1(pcb[q[k]].priority) + Cost(pcb, q[k + 1..n]) <= Cost(pcb, q[..n])
  {
    assert q[..n] == q[..k] + ([q[k]] + q[k + 1..n]);
    CostOfConcat(pcb, q[..k], [q[k]] + q[k + 1..n]);
    assert ([q[k]] + q[k + 1..n])[1..] == q[k + 1..n];
  }

  /** What a switch leaves of the fields the waiting time depends on. */
  lemma SwitchFields(s: Sched, t: Sched, k: nat)
    requires Picking(s) && k == FirstReady(s.pcb, s.queue) < |s.queue| && t == PickAndSwitch(s)
    ensures t.queue == Rotate(s.queue, k) && t.current == s.queue[k]
    ensures t.pcb.Keys == s.pcb.Keys && forall x :: x in s.pcb ==> t.pcb[x].priority == s.pcb[x].priority
    ensures t.current in t.pcb && t.pcb[t.current].ticks == s.pcb[t.current].priority
    ensures forall x :: x in s.pcb && x != s.current && x != t.current ==> t.pcb[x] == s.pcb[x]
  {
    hide TableOk; hide ListsOk; hide NoDup;
    assert s.queue[k] in s.queue;
  }

  lemma QueueFacts(s: Sched)
    requires Picking(s)
    ensures NoDup(s.queue) && (forall x :: x in s.queue ==> x in s.pcb)
    ensures s.current in s.pcb && s.pcb[s.current].state != Ready
  {
  }

  lemma InvIsPicking(s: Sched)
    requires Inv(s)
    ensures Picking(s)
  {
  }

  /** One pick either runs `p` or brings it strictly closer to the head, paying for the process picked. */
  lemma PickProgress(s: Sched, t: Sched, p: Ptr)
    requires Queued(s, p) && t == PickAndSwitch(s)
    ensures t.current == p ||
            (Queued(t, p) && Pos(t.queue, p) < Pos(s.queue, p) && Wait(t, p) <= Cost(s.pcb, s.queue[..Pos(s.queue, p)]))
  {
    hide Picking; hide PickAndSwitch; hide NoDup; hide Rotate; hide FirstReady; hide Pos; hide Cost; hide Max1;
    QueueFacts(s);
    PickKeepsInv(s);
    InvIsPicking(t);
    var k, n := FirstReady(s.pcb, s.queue), Pos(s.queue, p);
    SwitchFields(s, t, k);
    if k < n {
      RotatePrefix(s.queue, k, n);
      CostAhead(s.pcb, s.queue, k, n);
      assert forall x :: x in s.queue[k + 1..n] ==> x in s.queue;
      CostSame(s.pcb, t.pcb, s.queue[k + 1..n]);
    }
  }

  /** A change that touches neither queue, quantum nor priorities leaves the wait as it is. */
  lemma SameWait(s: Sched, t: Sched, p: Ptr)
    requires Queued(s, p) && Queued(t, p) && t.queue == s.queue
    requires s.pcb[s.current].ticks == t.pcb[t.current].ticks
    requires forall x :: x in s.queue && x in s.pcb && x in t.pcb ==> s.pcb[x].priority == t.pcb[x].priority
    ensures Wait(t, p) == Wait(s, p)
  {
    hide Picking; hide NoDup; hide Pos;
    QueueFacts(s);
    QueueFacts(t);
    assert forall x :: x in s.queue[..Pos(s.queue, p)] ==> x in s.queue;
    CostSame(s.pcb, t.pcb, s.queue[..Pos(s.queue, p)]);
  }

  lemma ReapProgress(s: Sched, t: Sched, p: Ptr)
    requires Inv(s) && Queued(s, p) && (forall z :: z in s.zombies ==> z in s.pcb) && t == Reap(s)
    ensures Inv(t) && Queued(t, p) && t.queue == s.queue && t.current == s.current && Wait(t, p) == Wait(s, p)
  {
    hide TableOk; hide NoDup; hide Kept; hide Filter; hide Cleared; hide Pos;
    ReapKeepsInv(s);
    ReapKeepsTable(s);
    ReapKeepsLists(s);
    hide ListsOk; hide IdleOk; hide OthersWait;
    SameWait(s, t, p);
  }

  lemma WakeProgress(s: Sched, t: Sched, p: Ptr)
    requires Inv(s) && Queued(s, p) && t == Wake(s)
    ensures Inv(t) && Queued(t, p) && t.queue == s.queue && t.current == s.current && Wait(t, p) == Wait(s, p)
    ensures t.pcb[t.current].ticks == s.pcb[s.current].ticks
  {
    hide TableOk; hide NoDup; hide Pos;
    WakeKeepsInv(s);
    hide ListsOk; hide IdleOk; hide OthersWait;
    SameWait(s, t, p);
  }

  /** The quantum part of a tick spends at least one tick of the wait. */
  lemma QuantumProgress(s: Sched, t: Sched, p: Ptr)
    requires Inv(s) && Queued(s, p) && t == Quantum(s)
    ensures t.current == p ||
            (Queued(t, p) && Wait(t, p) + 1 <= Wait(s, p)
             && Pos(t.queue, p) + (if s.pcb[s.current].ticks <= 1 then 1 else 0) <= Pos(s.queue, p))
  {
    hide TableOk; hide ListsOk; hide NoDup; hide Pos; hide FirstReady; hide IdleOk; hide Cost; hide Rotate;
    var b := s.pcb[s.current];
    var n := if b.ticks > 0 then b.ticks - 1 else 0;
    var s1 := s.(pcb := s.pcb[s.current := b.(ticks := n)]);
    TicksKeepInv(s, n);
    QueueFacts(s);
    QueueFacts(s1);
    var ahead := s.queue[..Pos(s.queue, p)];
    assert forall x :: x in ahead ==> x in s.queue;
    CostSame(s.pcb, s1.pcb, ahead);
    NextIsNotCurrent(s1);
    ReadyIsPicked(s1, p);
    PickProgress(s1, PickAndSwitch(s1), p);
  }

  lemma ReadyIsPicked(s: Sched, p: Ptr)
    requires Queued(s, p)
    ensures FirstReady(s.pcb, s.queue) < |s.queue| && s.queue != []
  {
  }

  lemma RemovePrefix(q: seq<Ptr>, x: Ptr, p: Ptr, r: seq<Ptr>, i: nat, n: nat)
    requires NoDup(q) && p in q && x != p && r == Remove(q, x) && i == Pos(q, x) && n == Pos(q, p)
    ensures p in r && Pos(r, p) == if i < n then n - 1 else n
    ensures r[..Pos(r, p)] == if i < n then q[..i] + q[i + 1..n] else q[..n]
  {
    hide Pos; hide NoDup;
    RemoveFacts(q, x);
    PosUnique(q, x, p);
    var m := if i < n then n - 1 else n;
    assert r == if i < |q| then q[..i] + q[i + 1..] else q;
    assert m < |r| && r[m] == p;
    PosIs(r, m);
  }

  lemma PosUnique(q: seq<Ptr>, x: Ptr, p: Ptr)
    requires p in q && x != p
    ensures Pos(q, x) != Pos(q, p)
  {
  }

  lemma RemoveCost(pcb: map<Ptr, Pcb>, q: seq<Ptr>, x: Ptr, p: Ptr, r: seq<Ptr>)
    requires NoDup(q) && p in q && x != p && r == Remove(q, x) && forall y :: y in q ==> y in pcb
    ensures p in r && (forall y :: y in r ==> y in pcb) && Pos(r, p) <= Pos(q, p)
    ensures Cost(pcb, r[..Pos(r, p)]) <= Cost(pcb, q[..Pos(q, p)])
  {
    hide Pos; hide NoDup; hide Remove; hide Cost; hide Max1;
    RemoveFacts(q, x);
    var i, n := Pos(q, x), Pos(q, p);
    RemovePrefix(q, x, p, r, i, n);
    if i < n {
      assert q[..n] == q[..i] + ([q[i]] + q[i + 1..n]);
      CostOfConcat(pcb, q[..i], [q[i]] + q[i + 1..n]);
      CostOfConcat(pcb, [q[i]], q[i + 1..n]);
      CostOfConcat(pcb, q[..i], q[i + 1..n]);
    }
  }

  lemma ExitProgress(s: Sched, r: Sched, t: Sched, p: Ptr, code: int)
    requires Inv(s) && Queued(s, p) && s.current != s.idle && r == Retire(s, s.current, code) && Picking(r)
             && t == PickAndSwitch(r)
    ensures t.current == p || (Queued(t, p) && Wait(t, p) <= Wait(s, p) && Pos(t.queue, p) < Pos(s.queue, p))
  {
    hide Picking; hide NoDup; hide Pos; hide FirstReady; hide Cost; hide PickAndSwitch; hide Remove;
    QueueFacts(s);
    RemoveCost(s.pcb, s.queue, s.current, p, r.queue);
    var ahead := r.queue[..Pos(r.queue, p)];
    assert forall x :: x in ahead ==> x in r.queue;
    CostSame(s.pcb, r.pcb, ahead);
    PickProgress(r, t, p);
  }

  lemma AdmitProgress(s: Sched, t: Sched, p: Ptr, q: Ptr, b: Pcb)
    requires Inv(s) && Queued(s, p) && NewProcess(s, q, b) && t == Admit(s, q, b)
    ensures Inv(t) && Queued(t, p) && Wait(t, p) == Wait(s, p) && Pos(t.queue, p) == Pos(s.queue, p)
  {
    hide Picking; hide Cost; hide FreeSlot;
    AdmitKeepsInv(s, q, b);
    QueueFacts(s);
    QueueFacts(t);
    InvIsPicking(t);
    AdmittedIsNew(s, t, q, b);
    var n := Pos(s.queue, p);
    assert t.queue[n] == p;
    PosIs(t.queue, n);
    assert t.queue[..n] == s.queue[..n];
    assert forall x :: x in s.queue[..n] ==> x in s.queue;
    CostSame(s.pcb, t.pcb, s.queue[..n]);
  }

  /** A process retired from behind `p` leaves its wait as it is. */
  lemma DoomProgress(s: Sched, t: Sched, p: Ptr, q: Ptr, code: int)
    requires Inv(s) && Queued(s, p) && q in s.queue && q != p && q != s.current && q != s.idle
             && t == Retire(s, q, code)
    ensures Inv(t) && Queued(t, p) && Wait(t, p) <= Wait(s, p) && Pos(t.queue, p) <= Pos(s.queue, p)
  {
    RetireFacts(s, q, code);
    hide Picking; hide NoDup; hide Pos; hide Cost; hide Remove;
    QueueFacts(s);
    QueueFacts(t);
    RemoveCost(s.pcb, s.queue, q, p, t.queue);
    var ahead := t.queue[..Pos(t.queue, p)];
    assert forall x :: x in ahead ==> x in t.queue;
    CostSame(s.pcb, t.pcb, ahead);
  }

  /** The steps that call `pick_next`. */
  ghost predicate Picks(s: Sched, step: Step) {
    match step
    case Tick => s.current in s.pcb && s.pcb[s.current].ticks <= 1
    case Yield => true
    case Exit(_) => true
    case _ => false
  }

  /** Any step either runs `p`, or keeps it READY, no further back, closer after a pick, and a tick spends a tick. */
  lemma StepProgress(s: Sched, step: Step, t: Sched, p: Ptr)
    requires Inv(s) && Enabled(s, step) && Queued(s, p) && t == Apply(s, step)
    ensures t.current == p ||
            (Queued(t, p)
             && Wait(t, p) + (if step.Tick? then 1 else 0) <= Wait(s, p)
             && Pos(t.queue, p) + (if Picks(s, step) then 1 else 0) <= Pos(s.queue, p))
  {
    hide Picking; hide Pos; hide Cost; hide FirstReady; hide PickAndSwitch; hide Reap; hide Wake; hide Quantum;
    hide Admit; hide Retire;
    QueueFacts(s);
    match step
    case Create(q, b) => AdmitProgress(s, t, p, q, b);
    case CreateFailed(pids) =>
      ApplyKeepsInv(s, step);
      InvIsPicking(t);
      SameWait(s, t, p);
    case CreateDoomed(q, b) =>
      var u := Admit(s, q, b);
      AdmitProgress(s, u, p, q, b);
      AdmittedIsNew(s, u, q, b);
      DoomProgress(u, t, p, q, b.exitCode);
    case Tick =>
      ReapKeepsLists(s);
      var u, v := Reap(s), Wake(Reap(s));
      ReapProgress(s, u, p);
      WakeProgress(u, v, p);
      ReapKeepsCurrent(s, u);
      QuantumProgress(v, t, p);
    case Yield => PickProgress(s, t, p);
    case Exit(code) =>
      RetireFacts(s, s.current, code);
      ExitProgress(s, Retire(s, s.current, code), t, p, code);
  }

  lemma AdmittedIsNew(s: Sched, u: Sched, q: Ptr, b: Pcb)
    requires Inv(s) && NewProcess(s, q, b) && u == Admit(s, q, b)
    ensures q in u.queue && q != u.current && q != u.idle && q !in s.queue
  {
  }

  lemma ReapKeepsCurrent(s: Sched, t: Sched)
    requires Inv(s) && (forall z :: z in s.zombies ==> z in s.pcb) && t == Reap(s)
    ensures t.current == s.current && t.current in t.pcb && t.pcb[t.current] == s.pcb[s.current]
  {
    ReapKeepsLists(s);
  }

  function Ticks(steps: seq<Step>): nat {
    if steps == [] then 0 else (if steps[0].Tick? then 1 else 0) + Ticks(steps[1..])
  }

  /** `p` becomes the running process at some point of the run. */
  ghost predicate RunsWithin(s: Sched, steps: seq<Step>, p: Ptr)
    requires Inv(s) && RunEnabled(s, steps)
    decreases |steps|
  {
    s.current == p ||
    (steps != [] && (ApplyKeepsInv(s, steps[0]); RunsWithin(Apply(s, steps[0]), steps[1..], p)))
  }

  /**
   Bounded waiting: in every run of ticks, yields, exits and creations, a READY
   process runs before the run has ticked more often than what is left of the
   current quantum plus one quantum of each process ahead of it.
   */
  lemma {:induction false} BoundedWaiting(s: Sched, steps: seq<Step>, p: Ptr)
    requires Inv(s) && RunEnabled(s, steps) && Queued(s, p) && Ticks(steps) >= Wait(s, p)
    ensures RunsWithin(s, steps, p)
    decreases |steps|
  {
    if steps != [] {
      var t := Apply(s, steps[0]);
      ApplyKeepsInv(s, steps[0]);
      StepProgress(s, steps[0], t, p);
      if t.current != p {
        BoundedWaiting(t, steps[1..], p);
      }
    }
  }

  ghost function PickCount(s: Sched, steps: seq<Step>): nat
    requires Inv(s) && RunEnabled(s, steps)
    decreases |steps|
  {
    if steps == [] then 0
    else
      ApplyKeepsInv(s, steps[0]);
      (if Picks(s, steps[0]) then 1 else 0) + PickCount(Apply(s, steps[0]), steps[1..])
  }

  /** A READY process at queue index k runs after at most k + 1 picks. */
  lemma {:induction false} BoundedPicks(s: Sched, steps: seq<Step>, p: Ptr)
    requires Inv(s) && RunEnabled(s, steps) && Queued(s, p) && PickCount(s, steps) > Pos(s.queue, p)
    ensures RunsWithin(s, steps, p)
    decreases |steps|
  {
    if steps != [] {
      var t := Apply(s, steps[0]);
      ApplyKeepsInv(s, steps[0]);
      StepProgress(s, steps[0], t, p);
      if t.current != p {
        BoundedPicks(t, steps[1..], p);
      }
    }
  }
}
