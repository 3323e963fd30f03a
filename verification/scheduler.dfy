/**
 The scheduler as the code runs it (kernel/scheduler.c): the ready queue with
 its head, tail and size, the zombie list, and the running process. Control
 blocks are records keyed by their address; `next` is their link field.
 */
module Scheduling {
  import opened SchedSpec
  import opened IntrusiveLists

  class Scheduler {
    var pcb: map<Ptr, Pcb>
    var next: map<Ptr, Ptr>
    var head: Ptr                        // queue_head
    var tail: Ptr                        // queue_tail
    var size: nat                        // queue_size
    var zombieHead: Ptr
    var current: Ptr                     // current_process
    const idle: Ptr

    ghost var queue: seq<Ptr>
    ghost var zombies: seq<Ptr>

    /** The links represent a duplicate-free queue and a disjoint duplicate-free zombie list. */
    ghost predicate Linked()
      reads this
    {
      && Chain(next, head, queue) && NoDup(queue) && tail == Last(queue) && size == |queue|
      && Chain(next, zombieHead, zombies) && NoDup(zombies)
      && (forall p :: p in queue ==> p !in zombies && p in pcb)
      && (forall p :: p in zombies ==> p in pcb)
    }

    /** The scheduler's share of the process state; table and pids are kept elsewhere. */
    ghost function View(): Sched
      reads this
    {
      Sched(pcb, queue, zombies, [], current, 0, idle)
    }

    constructor (idle: Ptr, b: Pcb)
      requires idle != 0
      ensures this.idle == idle && current == idle && Linked()
      ensures pcb == map[idle := b] && queue == [] && zombies == []
    {
      this.idle, current := idle, idle;
      pcb, next := map[idle := b], map[idle := 0];
      head, tail, size, zombieHead := 0, 0, 0, 0;
      queue, zombies := [], [];
    }

    /** A control block appears at address `p`, in no list. */
    method AddRecord(p: Ptr, b: Pcb)
      requires Linked() && p !in pcb
      modifies this`pcb, this`next
      ensures Linked() && pcb == old(pcb)[p := b]
    {
      ghost var n := next;
      pcb, next := pcb[p := b], next[p := 0];
      ChainFrame(n, next, head, queue);
      ChainFrame(n, next, zombieHead, zombies);
    }

    /** The control block at address `p`, in no list, disappears. */
    method DropRecord(p: Ptr)
      requires Linked() && p !in queue && p !in zombies
      modifies this`pcb, this`next
      ensures Linked() && pcb == old(pcb) - {p}
    {
      ghost var n := next;
      pcb, next := pcb - {p}, next - {p};
      ChainFrame(n, next, head, queue);
      ChainFrame(n, next, zombieHead, zombies);
    }

    method Enqueue(p: Ptr)
      requires Linked()
      requires p != 0 ==> p in pcb && p !in queue && p !in zombies
      modifies this`pcb, this`next, this`head, this`tail, this`size, this`queue
      ensures Linked()
      ensures if p == 0 then pcb == old(pcb) && queue == old(queue)
              else pcb == old(pcb)[p := old(pcb)[p].(state := Ready)] && queue == old(queue) + [p]
    {
      if p == 0 { return; }
      ChainAppend(next, head, queue, p);
      pcb := pcb[p := pcb[p].(state := Ready)];
      next := next[p := 0];
      if head == 0 {
        head := p;
        tail := p;
      } else {
        next := next[tail := p];
        tail := p;
      }
      size := size + 1;
      queue := queue + [p];
      ChainFrame(old(next), next, zombieHead, zombies);
    }

    /** Unlinks `p`; a process that is not queued is left alone. */
    method Dequeue(p: Ptr)
      requires Linked()
      modifies this`next, this`head, this`tail, this`size, this`queue
      ensures Linked()
      ensures queue == Remove(old(queue), p)
    {
      if p == 0 || head == 0 { return; }
      var prev, cur := 0, head;
      ghost var k := 0;
      while cur != 0
        invariant k <= |queue| && cur == At(queue, k) && prev == (if k == 0 then 0 else queue[k - 1])
        invariant forall i :: 0 <= i < k ==> queue[i] != p
        invariant Linked() && queue == old(queue) && next == old(next) && head == old(head) && tail == old(tail)
        decreases |queue| - k
      {
        if cur == p {
          CutAt(k, prev);
          return;
        }
        prev := cur;
        cur := next[cur];
        k := k + 1;
      }
    }

    /** The relinking inside `scheduler_dequeue`, once the process is found at position `k`. */
    method CutAt(ghost k: nat, prev: Ptr)
      requires Linked() && k < |queue| && prev == (if k == 0 then 0 else queue[k - 1])
      modifies this`next, this`head, this`tail, this`size, this`queue
      ensures Linked() && queue == Remove(old(queue), old(queue)[k])
    {
      hide Chain; hide NoDup; hide Remove;
      ghost var r := queue[..k] + queue[k + 1..];
      CutFacts(queue, k, r);
      ChainAt(next, head, queue, k);
      if k > 0 { ChainAt(next, head, queue, k - 1); }
      LastAt(queue, k);
      ChainCut(next, head, queue, k, if k == 0 then next else next[queue[k - 1] := next[queue[k]]], r);
      var cur := if prev == 0 then head else next[prev];
      if prev != 0 {
        next := next[prev := next[cur]];
      } else {
        head := next[cur];
      }
      if cur == tail { tail := prev; }
      next := next[cur := 0];
      size := size - 1;
      queue := r;
      ChainFrame(if prev == 0 then old(next) else old(next)[prev := old(next)[cur]], next, head, queue);
      ChainFrame(old(next), next, zombieHead, zombies);
    }

    /** Moves a process from the queue to the front of the zombie list. */
    method MarkZombie(p: Ptr)
      requires Linked()
      requires p != 0 ==> p in pcb && p !in zombies
      modifies this`next, this`head, this`tail, this`size, this`queue, this`zombieHead, this`zombies
      ensures Linked()
      ensures p == 0 ==> queue == old(queue) && zombies == old(zombies)
      ensures p != 0 ==> queue == Remove(old(queue), p) && zombies == [p] + old(zombies)
    {
      hide Chain; hide NoDup; hide Remove;
      if p == 0 { return; }
      RemoveFacts(queue, p);
      Dequeue(p);
      ghost var next0 := next;
      ChainPush(next, zombieHead, zombies, p);
      next := next[p := zombieHead];
      zombieHead := p;
      zombies := [p] + zombies;
      ChainFrame(next0, next, head, queue);
    }

    /** Unlinks the zombie at position `k`, whose predecessor is `prev`, and drops its control block. */
    method DropZombie(ghost k: nat, prev: Ptr, z: Ptr)
      requires Linked() && k < |zombies| && prev == (if k == 0 then 0 else zombies[k - 1]) && z == zombies[k]
      modifies this`pcb, this`next, this`zombieHead, this`zombies
      ensures Linked() && pcb == old(pcb) - {z} && zombies == old(zombies)[..k] + old(zombies)[k + 1..]
    {
      hide Chain; hide NoDup; hide Remove;
      ghost var r := zombies[..k] + zombies[k + 1..];
      CutFacts(zombies, k, r);
      ChainAt(next, zombieHead, zombies, k);
      if k > 0 { ChainAt(next, zombieHead, zombies, k - 1); }
      ChainCut(next, zombieHead, zombies, k, if k == 0 then next else next[zombies[k - 1] := next[zombies[k]]], r);
      var cur := next[z];
      if prev != 0 {
        next := next[prev := cur];
      } else {
        zombieHead := cur;
      }
      ghost var next1 := next;
      next := next - {z};
      pcb := pcb - {z};
      zombies := r;
      ChainFrame(next1, next, zombieHead, zombies);
      ChainFrame(old(next), next, head, queue);
    }

    lemma LinkedQueue()
      requires Linked()
      ensures size == |queue| && (head == 0 <==> queue == [])
      ensures forall p :: p in queue ==> p in pcb
    {
      QueueNonNull(next, head, queue);
    }

    /** Rotates the queue until a READY process has been moved to the tail; 0 when there is none. */
    method PickNext() returns (r: Ptr)
      requires Linked()
      modifies this`next, this`head, this`tail, this`queue
      ensures Linked() && (forall p :: p in old(queue) ==> p in pcb)
      ensures var k := FirstReady(pcb, old(queue));
              if k == |old(queue)| then r == 0 && queue == old(queue)
              else r == old(queue)[k] && r != 0 && queue == Rotate(old(queue), k)
    {
      hide Scheduler.Linked; hide FirstReady; hide Rotate;
      LinkedQueue();
      if head == 0 { return 0; }
      ghost var q := queue;
      var checked := 0;
      while checked < size
        invariant Linked() && size == |q| && checked <= |q|
        invariant queue == q[checked..] + q[..checked]
        invariant forall i :: 0 <= i < checked ==> pcb[q[i]].state != Ready
      {
        HeadOfRotated(q, checked, queue);
        var next := RotateOne();
        checked := checked + 1;
        RotatedOnce(q, checked - 1);
        if pcb[next].state == Ready {
          FirstReadyIs(pcb, q, checked - 1);
          return next;
        }
      }
      FirstReadyIs(pcb, q, |q|);
      return 0;
    }

    /** One turn of the loop in `pick_next`: the head goes to the tail. */
    method RotateOne() returns (p: Ptr)
      requires Linked() && queue != []
      modifies this`next, this`head, this`tail, this`queue
      ensures Linked() && p == old(queue)[0] && p != 0 && queue == old(queue)[1..] + [old(queue)[0]]
    {
      hide Chain; hide NoDup;
      ghost var q := queue;
      ChainAt(next, head, queue, 0);
      ChainTail(next, head, queue);
      p := head;
      head := next[p];
      if head == 0 { tail := 0; }
      next := next[p := 0];
      ChainFrame(old(next), next, head, q[1..]);
      ChainAppend(next, head, q[1..], p);
      assert next[p := 0] == next;
      if head == 0 {
        head := p;
        tail := p;
      } else {
        next := next[tail := p];
        tail := p;
      }
      queue := q[1..] + [p];
      assert forall x :: x in queue ==> x in q;
      ChainFrame(old(next), next, zombieHead, zombies);
    }

    /** `do_switch` without the hardware context: states, quantum, current process. */
    method DoSwitch(next: Ptr)
      requires current in pcb && next in pcb
      modifies this`pcb, this`current
      ensures View() == SwitchTo(old(View()), next)
      ensures pcb.Keys == old(pcb).Keys
    {
      var prev := current;
      if prev == next { return; }
      if pcb[prev].state == Running {
        pcb := pcb[prev := pcb[prev].(state := Ready)];
      }
      pcb := pcb[next := pcb[next].(state := Running)];
      pcb := pcb[next := pcb[next].(ticks := pcb[next].priority)];
      current := next;
    }

    method Yield()
      requires Linked() && current in pcb
      modifies this`pcb, this`next, this`head, this`tail, this`queue, this`current
      ensures Linked() && pcb.Keys == old(pcb).Keys && (forall p :: p in old(queue) ==> p in old(pcb))
      ensures View() == PickAndSwitch(old(View()))
    {
      hide Chain; hide NoDup; hide FirstReady; hide SwitchTo;
      var cur := current;
      var next := PickNext();
      if next == 0 || next == cur {
        SwitchToSelf(View());
        return;
      }
      DoSwitch(next);
    }

    /** The loop of `scheduler_tick` over the queue that counts down sleeping processes. */
    method WakeSleepers()
      requires Linked()
      modifies this`pcb
      ensures Linked() && View() == Wake(old(View()))
    {
      hide Chain; hide NoDup; hide WokenUpTo; hide Wake;
      ghost var pcb0 := pcb;
      WokenNone(pcb, queue);
      var p := head;
      ghost var k := 0;
      ChainHead(next, head, queue);
      while p != 0
        invariant Linked() && k <= |queue| && p == At(queue, k)
        invariant pcb == WokenUpTo(pcb0, queue, k)
        decreases |queue| - k
      {
        ChainAt(next, head, queue, k);
        WokenStep(pcb0, queue, k);
        var b := pcb[p];
        if b.state == Blocked && b.sleep > 0 {
          b := b.(sleep := b.sleep - 1);
          if b.sleep == 0 { b := b.(state := Ready); }
        }
        pcb := pcb[p := b];
        p := next[p];
        k := k + 1;
      }
      QueueNonNull(next, head, queue);
      WokenAll(old(View()), k);
    }

    /** The rest of `scheduler_tick`: the quantum of the running process. */
    method SpendTick()
      requires Linked() && current in pcb
      modifies this`pcb, this`next, this`head, this`tail, this`queue, this`current
      ensures Linked() && pcb.Keys == old(pcb).Keys && (forall p :: p in old(queue) ==> p in old(pcb))
      ensures View() == Quantum(old(View()))
    {
      hide Scheduler.Linked; hide PickAndSwitch; hide FirstReady; hide Rotate;
      LinkedQueue();
      CountDown();
      if pcb[current].ticks == 0 && size > 0 {
        EndQuantum();
      }
    }

    /** Takes one tick off the running process. */
    method CountDown()
      requires Linked() && current in pcb
      modifies this`pcb
      ensures Linked() && pcb.Keys == old(pcb).Keys
      ensures View() == Ticked(old(View()))
    {
      hide Chain; hide NoDup;
      if pcb[current].ticks > 0 {
        pcb := pcb[current := pcb[current].(ticks := pcb[current].ticks - 1)];
      }
    }

    /** The quantum is spent: another READY process takes over, or the quantum starts again. */
    method EndQuantum()
      requires Linked() && current in pcb && queue != []
      modifies this`pcb, this`next, this`head, this`tail, this`queue, this`current
      ensures Linked() && pcb.Keys == old(pcb).Keys && (forall p :: p in old(queue) ==> p in old(pcb))
      ensures View() == Expired(old(View()))
    {
      hide Chain; hide NoDup; hide FirstReady; hide Rotate;
      LinkedQueue();
      var cur := current;
      var next := PickNext();
      if next != 0 && next != cur {
        DoSwitch(next);
      } else {
        pcb := pcb[cur := pcb[cur].(ticks := pcb[cur].priority)];
      }
    }
  }

  lemma SwitchToSelf(s: Sched)
    requires s.current in s.pcb
    ensures SwitchTo(s, s.current) == s
  {
  }

  /** The control blocks once the first `k` processes of the queue have been looked at. */
  ghost function WokenUpTo(pcb: map<Ptr, Pcb>, q: seq<Ptr>, k: nat): map<Ptr, Pcb>
    requires k <= |q|
  {
    map p | p in pcb :: if p in q[..k] then Woken(pcb[p]) else pcb[p]
  }

  lemma WokenNone(pcb: map<Ptr, Pcb>, q: seq<Ptr>)
    ensures WokenUpTo(pcb, q, 0) == pcb
  {
  }

  lemma QueueNonNull(next: map<Ptr, Ptr>, head: Ptr, q: seq<Ptr>)
    requires Chain(next, head, q)
    ensures forall i :: 0 <= i < |q| ==> q[i] != 0
  {
  }

  lemma ChainHead(next: map<Ptr, Ptr>, head: Ptr, q: seq<Ptr>)
    requires Chain(next, head, q)
    ensures head == At(q, 0)
  {
  }

  lemma WokenAll(s: Sched, k: nat)
    requires k <= |s.queue| && At(s.queue, k) == 0 && forall i :: 0 <= i < |s.queue| ==> s.queue[i] != 0
    ensures Wake(s) == s.(pcb := WokenUpTo(s.pcb, s.queue, k))
  {
    assert s.queue[..k] == s.queue;
  }

  lemma WokenStep(pcb: map<Ptr, Pcb>, q: seq<Ptr>, k: nat)
    requires k < |q| && NoDup(q) && q[k] in WokenUpTo(pcb, q, k)
    ensures q[k] in pcb && WokenUpTo(pcb, q, k)[q[k]] == pcb[q[k]]
    ensures WokenUpTo(pcb, q, k + 1) == WokenUpTo(pcb, q, k)[q[k] := Woken(pcb[q[k]])]
  {
    assert q[..k + 1] == q[..k] + [q[k]];
    assert q[k] !in q[..k];
  }

  /** Without its first element a chain starts one link later. */
  lemma ChainTail(next: map<Ptr, Ptr>, head: Ptr, q: seq<Ptr>)
    requires Chain(next, head, q) && NoDup(q) && q != []
    ensures q[0] in next && Chain(next, next[q[0]], q[1..]) && NoDup(q[1..]) && q[0] !in q[1..]
    ensures next[q[0]] == 0 <==> q[1..] == []
    ensures |q| > 1 ==> Last(q[1..]) == Last(q)
  {
    var r := q[1..];
    forall i: nat | i < |r| ensures r[i] == q[i + 1] && At(r, i + 1) == At(q, i + 2) {
      assert r[i] == q[i + 1];
    }
  }

  lemma HeadOfRotated(q: seq<Ptr>, n: nat, r: seq<Ptr>)
    requires n < |q| && r == q[n..] + q[..n]
    ensures r != [] && r[0] == q[n] && r[1..] + [r[0]] == q[n + 1..] + q[..n + 1]
  {
  }

  lemma RotatedOnce(q: seq<Ptr>, n: nat)
    requires n < |q|
    ensures q[n + 1..] + q[..n + 1] == Rotate(q, n)
    ensures n + 1 == |q| ==> Rotate(q, n) == q
  {
  }

  lemma FirstReadyIs(pcb: map<Ptr, Pcb>, q: seq<Ptr>, k: nat)
    requires (forall p :: p in q ==> p in pcb) && k <= |q|
    requires forall i :: 0 <= i < k ==> pcb[q[i]].state != Ready
    requires k < |q| ==> pcb[q[k]].state == Ready
    ensures FirstReady(pcb, q) == k
  {
  }
}
