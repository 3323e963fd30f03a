/**
 Intrusive singly linked lists: the `next` pointers of the control blocks as
 one map, and which sequence of processes a head pointer stands for.
 */
module IntrusiveLists {
  import opened SchedSpec

  function At(q: seq<Ptr>, k: nat): Ptr { if k < |q| then q[k] else 0 }
  function Last(q: seq<Ptr>): Ptr { if q == [] then 0 else q[|q| - 1] }

  /** Following `next` from `head` visits exactly the members of `q`, in order, and ends at NULL. */
  ghost predicate Chain(next: map<Ptr, Ptr>, head: Ptr, q: seq<Ptr>) {
    && head == At(q, 0)
    && forall k: nat :: k < |q| ==> q[k] != 0 && q[k] in next && next[q[k]] == At(q, k + 1)
  }

  lemma ChainFrame(next: map<Ptr, Ptr>, next': map<Ptr, Ptr>, head: Ptr, q: seq<Ptr>)
    requires Chain(next, head, q)
    requires forall p :: p in q && p in next ==> p in next' && next'[p] == next[p]
    ensures Chain(next', head, q)
  {
  }

  /** Linking `p` behind the last element. */
  lemma ChainAppend(next: map<Ptr, Ptr>, head: Ptr, q: seq<Ptr>, p: Ptr)
    requires Chain(next, head, q) && NoDup(q) && p != 0 && p !in q
    ensures var next' := if q == [] then next[p := 0] else next[p := 0][Last(q) := p];
            Chain(next', At(q + [p], 0), q + [p]) && NoDup(q + [p])
  {
  }

  /** Linking `p` in front. */
  lemma ChainPush(next: map<Ptr, Ptr>, head: Ptr, q: seq<Ptr>, p: Ptr)
    requires Chain(next, head, q) && NoDup(q) && p != 0 && p !in q
    ensures Chain(next[p := head], p, [p] + q) && NoDup([p] + q)
  {
    var r, next' := [p] + q, next[p := head];
    assert forall k: nat :: 0 < k < |r| ==> r[k] == q[k - 1] && At(r, k + 1) == At(q, k);
  }

  lemma CutFacts(q: seq<Ptr>, k: nat, r: seq<Ptr>)
    requires NoDup(q) && k < |q| && r == q[..k] + q[k + 1..]
    ensures NoDup(r) && q[k] !in r
    ensures forall x :: x in r <==> x in q && x != q[k]
    ensures Last(r) == if k < |q| - 1 then Last(q) else if k == 0 then 0 else q[k - 1]
    ensures r == Remove(q, q[k])
  {
    PosIs(q, k);
    RemoveFacts(q, q[k]);
  }

  /** Unlinking the element at position `k` by redirecting its predecessor. */
  lemma ChainCut(next: map<Ptr, Ptr>, head: Ptr, q: seq<Ptr>, k: nat, next': map<Ptr, Ptr>, r: seq<Ptr>)
    requires Chain(next, head, q) && NoDup(q) && k < |q| && r == q[..k] + q[k + 1..]
    requires next' == if k == 0 then next else next[q[k - 1] := next[q[k]]]
    ensures Chain(next', if k == 0 then next[q[k]] else head, r)
  {
    forall i: nat | i < |r| ensures r[i] != 0 && r[i] in next' && next'[r[i]] == At(r, i + 1) {
      var j := if i < k then i else i + 1;
      assert r[i] == q[j];
      if i + 1 < k || i >= k { assert At(r, i + 1) == At(q, j + 1); }
    }
  }

  lemma ChainAt(next: map<Ptr, Ptr>, head: Ptr, q: seq<Ptr>, k: nat)
    requires Chain(next, head, q) && k < |q|
    ensures q[k] != 0 && q[k] in next && next[q[k]] == At(q, k + 1)
    ensures k == 0 ==> head == q[k]
  {
  }

  lemma LastAt(q: seq<Ptr>, k: nat)
    requires NoDup(q) && k < |q|
    ensures q[k] == Last(q) <==> k == |q| - 1
  {
  }
}
