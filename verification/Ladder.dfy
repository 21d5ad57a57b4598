/** One side's price ladder: a binary heap of level indices ordered by price,
    with the position of each level in the heap written back into its record. */
module Ladders {
  import opened MarketTypes
  import opened Sums

  /** The index that stands for "none", in levels, orders and free lists alike. */
  const NPOS: nat := 0xFFFF_FFFF

  datatype Level = Level(
    price: Price,
    totalQuantity: nat,
    orderCount: nat,
    head: nat,
    tail: nat,
    nextFree: nat,
    heapPos: nat,
    side: Side,
    active: bool)

  /** The heap holds exactly `members`, once each, and each member knows its position. */
  ghost predicate Positions(levels: seq<Level>, heap: seq<nat>, size: nat, members: set<nat>) {
    && size <= |heap|
    && (forall i :: 0 <= i < size ==> heap[i] < |levels| && heap[i] in members && levels[heap[i]].heapPos == i)
    && (forall m :: m in members ==> m < |levels| && levels[m].heapPos < size && heap[levels[m].heapPos] == m)
  }

  /** The prices of the heap's levels, in heap order. */
  ghost function Prices(levels: seq<Level>, heap: seq<nat>, size: nat): (p: seq<Price>)
    requires size <= |heap| && forall i :: 0 <= i < size ==> heap[i] < |levels|
    ensures |p| == size && forall i :: 0 <= i < size ==> p[i] == levels[heap[i]].price
  {
    seq(size, i requires 0 <= i < size => levels[heap[i]].price)
  }

  function Parent(i: nat): nat
    requires i > 0
  {
    (i - 1) / 2
  }

  /** No price is better than its parent's, except perhaps at `up` and at the children of `down`. */
  ghost predicate Ordered(side: Side, p: seq<Price>, up: int, down: int) {
    forall j {:trigger Parent(j)} :: 0 < j < |p| && j != up && Parent(j) != down ==>
      !BetterPrice(side, p[j], p[Parent(j)])
  }

  /** The children of `hole` fit below its parent. */
  ghost predicate Bridged(side: Side, p: seq<Price>, hole: nat) {
    forall j {:trigger Parent(j)} :: 0 < j < |p| && hole > 0 && Parent(j) == hole ==>
      !BetterPrice(side, p[j], p[Parent(hole)])
  }

  ghost predicate HeapOk(side: Side, levels: seq<Level>, heap: seq<nat>, size: nat, members: set<nat>) {
    && Positions(levels, heap, size, members)
    && Ordered(side, Prices(levels, heap, size), -1, -1)
  }

  function Swapped<T>(s: seq<T>, i: nat, j: nat): (r: seq<T>)
    requires i < |s| && j < |s|
  {
    s[i := s[j]][j := s[i]]
  }

  /** Only heap positions differ, and only those of `members`. */
  ghost predicate OnlyPositions(was: seq<Level>, now: seq<Level>, members: set<nat>) {
    && |was| == |now|
    && (forall i :: 0 <= i < |was| ==> now[i] == was[i].(heapPos := now[i].heapPos))
    && (forall i :: 0 <= i < |was| && i !in members ==> now[i] == was[i])
  }

  lemma OnlyPositionsSame(levels: seq<Level>, members: set<nat>)
    ensures OnlyPositions(levels, levels, members)
  {
  }

  lemma OnlyPositionsChain(was: seq<Level>, between: seq<Level>, now: seq<Level>, members: set<nat>)
    requires OnlyPositions(was, between, members) && OnlyPositions(between, now, members)
    ensures OnlyPositions(was, now, members)
  {
  }

  lemma ReleasedPositions(was: seq<Level>, now: seq<Level>, members: set<nat>, level: nat)
    requires OnlyPositions(was, now, members) && level < |now|
    ensures OnlyPositions(was, now[level := now[level].(heapPos := NPOS)], members + {level})
  {
  }

  lemma {:induction false} TopIsBest(side: Side, p: seq<Price>, i: nat)
    requires Ordered(side, p, -1, -1) && i < |p|
    ensures !BetterPrice(side, p[i], p[0])
  {
    if i > 0 {
      TopIsBest(side, p, Parent(i));
    }
  }

  lemma SwapUp(side: Side, p: seq<Price>, pos: nat)
    requires 0 < pos < |p|
    requires Ordered(side, p, pos, -1) && Bridged(side, p, pos)
    requires BetterPrice(side, p[pos], p[Parent(pos)])
    ensures Ordered(side, Swapped(p, pos, Parent(pos)), Parent(pos), -1)
    ensures Bridged(side, Swapped(p, pos, Parent(pos)), Parent(pos))
  {
  }

  /** `best` is the better child of `pos`, and it stands above `pos`. */
  ghost predicate BestChild(side: Side, p: seq<Price>, pos: nat, best: nat) {
    && pos < best < |p| && Parent(best) == pos
    && BetterPrice(side, p[best], p[pos])
    && (forall j {:trigger Parent(j)} :: 0 < j < |p| && Parent(j) == pos ==> !BetterPrice(side, p[j], p[best]))
  }

  /** What holds while an element sinks from `start` and has reached `pos`. */
  ghost predicate Sinking(side: Side, p: seq<Price>, start: nat, pos: nat) {
    && start <= pos < |p|
    && Ordered(side, p, if pos == start then start else -1, pos)
    && Bridged(side, p, pos)
    && Bridged(side, p, start)
  }

  lemma SwapDown(side: Side, p: seq<Price>, start: nat, pos: nat, best: nat)
    requires Sinking(side, p, start, pos) && BestChild(side, p, pos, best)
    ensures Sinking(side, Swapped(p, pos, best), start, best)
  {
  }

  class Ladder {
    const side: Side
    const levels: array<Level>
    const heap: array<nat>
    var size: nat
    ghost var members: set<nat>

    ghost predicate Valid()
      reads this, levels, heap
    {
      HeapOk(side, levels[..], heap[..], size, members)
    }

    ghost predicate Placed()
      reads this, levels, heap
    {
      Positions(levels[..], heap[..], size, members)
    }

    ghost function Keys(): seq<Price>
      requires Placed()
      reads this, levels, heap
    {
      Prices(levels[..], heap[..], size)
    }

    constructor (side: Side, levels: array<Level>)
      ensures Valid() && fresh(heap) && members == {} && size == 0
      ensures this.side == side && this.levels == levels && heap.Length == levels.Length
    {
      this.side := side;
      this.levels := levels;
      this.heap := new nat[levels.Length](_ => NPOS);
      this.size := 0;
      this.members := {};
    }

    method Swap(i: nat, j: nat)
      requires Placed() && i < size && j < size && i != j
      modifies levels, heap
      ensures Placed() && Keys() == Swapped(old(Keys()), i, j)
      ensures OnlyPositions(old(levels[..]), levels[..], members)
    {
      hide Prices;
      heap[i], heap[j] := heap[j], heap[i];
      levels[heap[i]] := levels[heap[i]].(heapPos := i);
      levels[heap[j]] := levels[heap[j]].(heapPos := j);
    }

    /** The level at heap position `i` has priority over the one at `j`. */
    predicate StandsAbove(i: nat, j: nat)
      requires Placed() && i < size && j < size
      reads this, levels, heap
      ensures StandsAbove(i, j) == BetterPrice(side, Keys()[i], Keys()[j])
    {
      BetterPrice(side, levels[heap[i]].price, levels[heap[j]].price)
    }

    method SiftUp(start: nat)
      requires Placed() && start < size
      requires Ordered(side, Keys(), start, -1) && Bridged(side, Keys(), start)
      modifies levels, heap
      ensures Valid()
      ensures OnlyPositions(old(levels[..]), levels[..], members)
    {
      hide Ordered, Bridged, Positions, Prices, OnlyPositions, StandsAbove;
      ghost var was := levels[..];
      OnlyPositionsSame(was, members);
      var pos := start;
      while pos > 0
        invariant 0 <= pos < size && Placed()
        invariant Ordered(side, Keys(), pos, -1) && Bridged(side, Keys(), pos)
        invariant OnlyPositions(was, levels[..], members)
      {
        var parent := Parent(pos);
        if !StandsAbove(pos, parent) {
          break;
        }
        SwapUp(side, Keys(), pos);
        ghost var between := levels[..];
        Swap(pos, parent);
        OnlyPositionsChain(was, between, levels[..], members);
        pos := parent;
      }
      RootOrOrdered(side, Keys(), pos);
    }

    method SiftDown(start: nat)
      requires Placed() && start < size
      requires Sinking(side, Keys(), start, start)
      modifies levels, heap
      ensures Placed()
      ensures Ordered(side, Keys(), start, -1) && Bridged(side, Keys(), start)
      ensures OnlyPositions(old(levels[..]), levels[..], members)
    {
      hide Sinking, BestChild, Ordered, Bridged, Positions, Prices, OnlyPositions, StandsAbove;
      ghost var was := levels[..];
      OnlyPositionsSame(was, members);
      var pos := start;
      while true
        invariant 0 <= pos < size && Placed() && Sinking(side, Keys(), start, pos)
        invariant OnlyPositions(was, levels[..], members)
        decreases size - pos
      {
        var left := 2 * pos + 1;
        var right := 2 * pos + 2;
        var best := pos;
        if left < size && StandsAbove(left, best) {
          best := left;
        }
        if right < size && StandsAbove(right, best) {
          best := right;
        }
        ChooseChild(side, Keys(), start, pos, best);
        if best == pos {
          break;
        }
        SwapDown(side, Keys(), start, pos, best);
        ghost var between := levels[..];
        Swap(pos, best);
        OnlyPositionsChain(was, between, levels[..], members);
        pos := best;
      }
    }

    method Push(level: nat)
      requires Valid() && level < levels.Length == heap.Length && level !in members
      modifies levels, heap, this
      ensures Valid() && members == old(members) + {level}
      ensures OnlyPositions(old(levels[..]), levels[..], members)
    {
      RoomForMember(levels[..], heap[..], size, members, level);
      var pos := size;
      ghost var before := Keys();
      size := size + 1;
      heap[pos] := level;
      levels[level] := levels[level].(heapPos := pos);
      members := members + {level};
      assert Keys() == before + [levels[level].price];
      SiftUp(pos);
    }

    method Remove(level: nat)
      requires Valid() && level in members
      modifies levels, heap, this
      ensures Valid() && members == old(members) - {level}
      ensures levels[level].heapPos == NPOS
      ensures OnlyPositions(old(levels[..]), levels[..], old(members))
    {
      hide Ordered, Bridged, Sinking, OnlyPositions, Positions, Prices;
      ghost var was, before := levels[..], Keys();
      var pos := Vacate(level);
      ReplacedByLast(side, before, pos);
      if pos != size {
        ghost var vacated := levels[..];
        SiftDown(pos);
        OnlyPositionsChain(was, vacated, levels[..], members);
        ghost var sunk := levels[..];
        SiftUp(pos);
        OnlyPositionsChain(was, sunk, levels[..], members);
      }
      ReleasedPositions(was, levels[..], members, level);
      assert members + {level} == old(members);
      Release(level);
    }

    /** Takes a level out of the heap's range; the last level fills its place. */
    method Vacate(level: nat) returns (pos: nat)
      requires Placed() && level in members
      modifies levels, heap, this
      ensures pos <= size == old(size) - 1 && level < levels.Length
      ensures Placed() && members == old(members) - {level}
      ensures Keys() == if pos < size then old(Keys())[pos := old(Keys())[size]][..size] else old(Keys())[..size]
      ensures OnlyPositions(old(levels[..]), levels[..], members)
    {
      pos := levels[level].heapPos;
      size := size - 1;
      members := members - {level};
      if pos != size {
        heap[pos] := heap[size];
        levels[heap[pos]] := levels[heap[pos]].(heapPos := pos);
      }
    }

    /** The last write of a removal: a level outside the heap has no position. */
    method Release(level: nat)
      requires Valid() && level < levels.Length && level !in members
      modifies levels
      ensures Valid() && levels[..] == old(levels[..])[level := old(levels[level]).(heapPos := NPOS)]
    {
      ghost var before := Keys();
      levels[level] := levels[level].(heapPos := NPOS);
      assert Keys() == before;
    }

    method Top() returns (level: nat)
      requires Valid()
      ensures size == 0 ==> level == NPOS && members == {}
      ensures size > 0 ==> level in members
                           && forall m :: m in members ==> !BetterPrice(side, levels[m].price, levels[level].price)
    {
      if size == 0 {
        return NPOS;
      }
      forall m | m in members
        ensures !BetterPrice(side, levels[m].price, levels[heap[0]].price)
      {
        TopIsBest(side, Keys(), levels[m].heapPos);
      }
      return heap[0];
    }
  }

  /** The heap that results from dropping the last element into position `pos`. */
  lemma ReplacedByLast(side: Side, p: seq<Price>, pos: nat)
    requires Ordered(side, p, -1, -1) && pos < |p|
    ensures Ordered(side, p[..|p| - 1], -1, -1)
    ensures pos < |p| - 1 ==> Sinking(side, p[pos := p[|p| - 1]][..|p| - 1], pos, pos)
  {
  }

  /** Members outside the heap leave room in it. */
  lemma RoomForMember(levels: seq<Level>, heap: seq<nat>, size: nat, members: set<nat>, level: nat)
    requires Positions(levels, heap, size, members)
    requires |heap| == |levels| && level < |levels| && level !in members
    ensures size < |heap|
  {
    if size == |heap| {
      var all := Placements(levels, heap, size, members, size);
      var indices := Indices(|levels|);
      assert all < indices;
      ProperSubsetSize(all, indices);
    }
  }

  lemma {:induction false} Placements(levels: seq<Level>, heap: seq<nat>, size: nat, members: set<nat>,
                                      n: nat) returns (placed: set<nat>)
    requires Positions(levels, heap, size, members) && n <= size
    ensures |placed| == n && placed <= members
    ensures forall m :: m in placed ==> levels[m].heapPos < n
  {
    if n == 0 {
      placed := {};
    } else {
      placed := Placements(levels, heap, size, members, n - 1);
      placed := placed + {heap[n - 1]};
    }
  }

  lemma ProperSubsetSize<T>(a: set<T>, b: set<T>)
    requires a < b
    ensures |a| < |b|
  {
    assert b == a + (b - a);
  }

  lemma RootOrOrdered(side: Side, p: seq<Price>, pos: nat)
    requires pos < |p| && Ordered(side, p, pos, -1)
    requires pos == 0 || !BetterPrice(side, p[pos], p[Parent(pos)])
    ensures Ordered(side, p, -1, -1)
  {
  }

  /** The two comparisons of the sift find the better child, or leave the element where it is. */
  lemma ChooseChild(side: Side, p: seq<Price>, start: nat, pos: nat, best: nat)
    requires Sinking(side, p, start, pos)
    requires
      var left := 2 * pos + 1;
      var right := 2 * pos + 2;
      var first := if left < |p| && BetterPrice(side, p[left], p[pos]) then left else pos;
      best == if right < |p| && BetterPrice(side, p[right], p[first]) then right else first
    ensures best != pos ==> BestChild(side, p, pos, best) && pos < best < |p|
    ensures best == pos ==> Ordered(side, p, start, -1) && Bridged(side, p, start)
  {
    assert forall j :: 0 < j && Parent(j) == pos ==> j == 2 * pos + 1 || j == 2 * pos + 2;
  }

  lemma HeapFrame(side: Side, was: seq<Level>, now: seq<Level>, heap: seq<nat>, size: nat, members: set<nat>)
    requires HeapOk(side, was, heap, size, members) && |was| == |now|
    requires forall m :: m in members && m < |was| ==> now[m].price == was[m].price && now[m].heapPos == was[m].heapPos
    ensures HeapOk(side, now, heap, size, members)
  {
    assert Prices(now, heap, size) == Prices(was, heap, size);
    hide Ordered;
  }

  lemma HeapChangedElsewhere(side: Side, was: seq<Level>, heap: seq<nat>, size: nat, members: set<nat>, l: nat,
                             level: Level)
    requires HeapOk(side, was, heap, size, members) && l < |was| && l !in members
    ensures HeapOk(side, was[l := level], heap, size, members)
  {
    HeapFrame(side, was, was[l := level], heap, size, members);
  }

  /** Pushing on or removing from one ladder does not disturb the other. */
  lemma HeapUndisturbed(side: Side, was: seq<Level>, now: seq<Level>, heap: seq<nat>, size: nat, members: set<nat>,
                        others: set<nat>)
    requires HeapOk(side, was, heap, size, members) && OnlyPositions(was, now, others) && members !! others
    ensures HeapOk(side, now, heap, size, members)
  {
    HeapFrame(side, was, now, heap, size, members);
  }

  /** Pushes a level on one ladder, beside the other ladder over the same levels. */
  method PushBeside(ladder: Ladder, other: Ladder, level: nat)
    requires ladder != other && ladder.heap != other.heap && ladder.levels == other.levels
    requires ladder.Valid() && other.Valid() && ladder.members !! other.members
    requires level < ladder.levels.Length == ladder.heap.Length && level !in ladder.members && level !in other.members
    modifies ladder, ladder.heap, ladder.levels
    ensures ladder.Valid() && other.Valid() && ladder.members == old(ladder.members) + {level}
    ensures OnlyPositions(old(ladder.levels[..]), ladder.levels[..], ladder.members)
  {
    ghost var was := ladder.levels[..];
    hide HeapOk, OnlyPositions;
    ladder.Push(level);
    HeapUndisturbed(other.side, was, ladder.levels[..], other.heap[..], other.size, other.members, ladder.members);
  }

  method RemoveBeside(ladder: Ladder, other: Ladder, level: nat)
    requires ladder != other && ladder.heap != other.heap && ladder.levels == other.levels
    requires ladder.Valid() && other.Valid() && ladder.members !! other.members
    requires level in ladder.members
    modifies ladder, ladder.heap, ladder.levels
    ensures ladder.Valid() && other.Valid() && ladder.members == old(ladder.members) - {level}
    ensures OnlyPositions(old(ladder.levels[..]), ladder.levels[..], old(ladder.members))
  {
    ghost var was := ladder.levels[..];
    hide HeapOk, OnlyPositions;
    ladder.Remove(level);
    HeapUndisturbed(other.side, was, ladder.levels[..], other.heap[..], other.size, other.members, old(ladder.members));
  }
}
