/** The intrusive free list that both pools use, and counting over the queues. */
module FreeLists {
  import opened Ladders

  /** `free` lists the records that are not live, each once, in the order their
      `nextFree` fields chain them. */
  ghost predicate FreeList(free: seq<nat>, head: nat, nextFree: seq<nat>, live: seq<bool>) {
    && |nextFree| == |live|
    && head == (if free == [] then NPOS else free[0])
    && (forall i :: 0 <= i < |free| ==> free[i] < |live| && !live[free[i]])
    && (forall i {:trigger Chained(free, nextFree, i)} :: 0 <= i < |free| ==> Chained(free, nextFree, i))
    && (forall i, j :: 0 <= i < j < |free| ==> free[i] != free[j])
    && (forall x :: 0 <= x < |live| && !live[x] ==> x in free)
  }

  ghost predicate Chained(free: seq<nat>, nextFree: seq<nat>, i: nat)
    requires i < |free|
  {
    free[i] < |nextFree| && nextFree[free[i]] == if i + 1 < |free| then free[i + 1] else NPOS
  }

  lemma InitialFreeList(nextFree: seq<nat>, live: seq<bool>)
    requires 0 < |nextFree| == |live|
    requires forall i :: 0 <= i < |live| ==> !live[i] && nextFree[i] == if i + 1 < |live| then i + 1 else NPOS
    ensures FreeList(seq(|live|, i => i), 0, nextFree, live)
  {
    var free := seq(|live|, i => i);
    forall x | 0 <= x < |live|
      ensures x in free && Chained(free, nextFree, x)
    {
      assert free[x] == x;
    }
  }

  lemma Popped(free: seq<nat>, head: nat, nextFree: seq<nat>, live: seq<bool>, anything: nat)
    requires FreeList(free, head, nextFree, live) && |live| <= NPOS && head != NPOS
    ensures free != [] && head == free[0] < |live| && !live[head]
    ensures FreeList(free[1..], nextFree[head], nextFree[head := anything], live[head := true])
  {
    assert Chained(free, nextFree, 0);
    var rest, chain := free[1..], nextFree[head := anything];
    forall i | 0 <= i < |rest|
      ensures Chained(rest, chain, i)
    {
      assert Chained(free, nextFree, i + 1);
    }
    forall x | 0 <= x < |live| && !live[head := true][x]
      ensures x in rest
    {
      assert x in free;
    }
  }

  lemma Pushed(free: seq<nat>, head: nat, nextFree: seq<nat>, live: seq<bool>, x: nat)
    requires FreeList(free, head, nextFree, live) && |live| <= NPOS && x < |live| && live[x]
    ensures FreeList([x] + free, x, nextFree[x := head], live[x := false])
  {
    var more, chain := [x] + free, nextFree[x := head];
    forall i | 0 <= i < |more|
      ensures Chained(more, chain, i)
    {
      if i > 0 {
        assert Chained(free, nextFree, i - 1);
      }
    }
  }

  lemma FreeHead(free: seq<nat>, head: nat, nextFree: seq<nat>, live: seq<bool>)
    requires FreeList(free, head, nextFree, live) && |live| <= NPOS
    ensures head == NPOS <==> free == []
    ensures head == NPOS <==> forall x :: 0 <= x < |live| ==> live[x]
    ensures head != NPOS ==> head < |live| && !live[head]
  {
    if free != [] {
      assert !live[free[0]];
    }
  }

  /** How many orders wait in all the queues. */
  ghost function Waiting(queues: seq<seq<nat>>): nat {
    if queues == [] then 0 else |queues[0]| + Waiting(queues[1..])
  }

  lemma {:induction false} WaitingUpdated(queues: seq<seq<nat>>, l: nat, q: seq<nat>)
    requires l < |queues|
    ensures Waiting(queues[l := q]) == Waiting(queues) - |queues[l]| + |q|
  {
    if l > 0 {
      WaitingUpdated(queues[1..], l - 1, q);
      assert queues[l := q][1..] == queues[1..][l - 1 := q];
    }
  }

  /** If no queue is empty, at least as many orders wait as there are queues. */
  lemma {:induction false} WaitingEverywhere(queues: seq<seq<nat>>)
    requires forall l :: 0 <= l < |queues| ==> queues[l] != []
    ensures Waiting(queues) >= |queues|
    ensures forall l :: 0 <= l < |queues| && |queues[l]| > 1 ==> Waiting(queues) > |queues|
  {
    if queues != [] {
      WaitingEverywhere(queues[1..]);
      forall l | 0 <= l < |queues| && |queues[l]| > 1
        ensures Waiting(queues) > |queues|
      {
        if l > 0 {
          assert queues[1..][l - 1] == queues[l];
        }
      }
    }
  }
}
