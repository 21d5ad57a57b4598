/** Which price levels are live, and the four structures that must agree on
    it: the level pool, its free list, the level index and the two ladders. */
module LevelDirectories {
  import opened MarketTypes
  import opened ProbeSlots
  import opened ProbeTables
  import opened Ladders
  import opened Fifos
  import opened FreeLists

  type LevelKey = (Side, Price)

  function KeyOf(level: Level): LevelKey {
    (level.side, level.price)
  }

  ghost function LevelLinks(levels: seq<Level>): (r: seq<nat>)
    ensures |r| == |levels| && forall i :: 0 <= i < |r| ==> r[i] == levels[i].nextFree
  {
    seq(|levels|, i requires 0 <= i < |levels| => levels[i].nextFree)
  }

  ghost function LevelLives(levels: seq<Level>): (r: seq<bool>)
    ensures |r| == |levels| && forall i :: 0 <= i < |r| ==> r[i] == levels[i].active
  {
    seq(|levels|, i requires 0 <= i < |levels| => levels[i].active)
  }

  ghost predicate Blank(level: Level) {
    level.head == NPOS && level.tail == NPOS && level.totalQuantity == 0 && level.orderCount == 0
  }

  /** The index maps exactly the live levels' keys to them, the ladders hold
      exactly the live levels of their side, and other levels are blank. */
  ghost predicate Directory(levels: seq<Level>, index: map<LevelKey, nat>, bids: set<nat>, asks: set<nat>) {
    && (forall k :: k in index ==> index[k] < |levels| && levels[index[k]].active && KeyOf(levels[index[k]]) == k)
    && (forall l :: 0 <= l < |levels| && levels[l].active ==> KeyOf(levels[l]) in index && index[KeyOf(levels[l])] == l)
    && (forall l: nat :: l in bids <==> l < |levels| && levels[l].active && levels[l].side == Buy)
    && (forall l: nat :: l in asks <==> l < |levels| && levels[l].active && levels[l].side == Sell)
    && (forall l :: 0 <= l < |levels| && !levels[l].active ==> Blank(levels[l]))
  }

  lemma DirectoryListFields(levels: seq<Level>, index: map<LevelKey, nat>, bids: set<nat>, asks: set<nat>, l: nat,
                            level: Level)
    requires Directory(levels, index, bids, asks) && l < |levels| && levels[l].active && OnlyList(levels[l], level)
    ensures Directory(levels[l := level], index, bids, asks)
    ensures LevelLinks(levels[l := level]) == LevelLinks(levels)
    ensures LevelLives(levels[l := level]) == LevelLives(levels)
  {
  }

  /** What opening level `r` for a new key leaves as it was. */
  ghost predicate Opened(was: seq<Level>, now: seq<Level>, r: nat) {
    && |was| == |now|
    && (forall l :: 0 <= l < |was| ==> SameQueue(was[l], now[l]))
    && (forall l :: 0 <= l < |was| && was[l].active ==> SameFace(was[l], now[l]))
    && (forall l :: 0 <= l < |was| ==> (now[l].active <==> was[l].active || l == r))
  }

  /** What closing level `l` leaves as it was. */
  ghost predicate Closed(was: seq<Level>, now: seq<Level>, l: nat) {
    && |was| == |now| && l < |was| && !now[l].active
    && (forall m :: 0 <= m < |was| ==> SameQueue(was[m], now[m]))
    && (forall m :: 0 <= m < |was| && m != l ==> SameFace(was[m], now[m]))
  }

  /** The level pool at the start: every record on the free list, in order. */
  function FirstLevel(i: nat, capacity: nat): Level {
    Level(0, 0, 0, NPOS, NPOS, if i + 1 < capacity then i + 1 else NPOS, NPOS, Buy, false)
  }

  lemma FirstDirectory(levels: seq<Level>)
    requires 0 < |levels| <= NPOS && forall i :: 0 <= i < |levels| ==> levels[i] == FirstLevel(i, |levels|)
    ensures Directory(levels, map[], {}, {})
    ensures FreeList(seq(|levels|, i => i), 0, LevelLinks(levels), LevelLives(levels))
  {
    InitialFreeList(LevelLinks(levels), LevelLives(levels));
  }

  /** The records with the list fields of level `l` blank. */
  function Emptied(levels: seq<Level>, l: nat): (r: seq<Level>)
    requires l < |levels|
    ensures |r| == |levels| && forall m :: 0 <= m < |r| && m != l ==> r[m] == levels[m]
    ensures OnlyList(levels[l], r[l]) && Blank(r[l])
  {
    levels[l := levels[l].(head := NPOS, tail := NPOS, totalQuantity := 0, orderCount := 0)]
  }

  lemma EmptyAlready(levels: seq<Level>, l: nat)
    requires l < |levels| && Blank(levels[l])
    ensures Emptied(levels, l) == levels
  {
  }

  lemma EmptiedBoth(was: seq<Level>, removed: seq<Level>, index: map<LevelKey, nat>, bids: set<nat>, asks: set<nat>,
                    l: nat, level: Level)
    requires SomePositions(was, removed) && l < |was| && was[l].active && Directory(removed, index, bids, asks)
    requires level == removed[l].(active := false, nextFree := level.nextFree)
    ensures removed[l].active && Emptied(removed, l)[l].active
    ensures SomePositions(Emptied(was, l), Emptied(removed, l)) && Directory(Emptied(removed, l), index, bids, asks)
    ensures
      var empty := Emptied(removed[l := level], l)[l];
      && empty == Emptied(removed, l)[l].(active := false, nextFree := level.nextFree)
      && Emptied(removed[l := level], l) == Emptied(removed, l)[l := empty] == removed[l := empty]
    ensures LevelLinks(Emptied(was, l)) == LevelLinks(was) && LevelLives(Emptied(was, l)) == LevelLives(was)
  {
    DirectoryListFields(removed, index, bids, asks, l, Emptied(removed, l)[l]);
    assert removed[l := Emptied(removed, l)[l]] == Emptied(removed, l);
    hide Directory;
  }

  class LevelDirectory {
    const levels: array<Level>
    const lookup: ProbeTable<LevelKey>
    const bids: Ladder
    const asks: Ladder
    var freeLevel: nat
    ghost var freeLevels: seq<nat>

    ghost predicate Static() {
      && 0 < levels.Length <= NPOS
      && bids.levels == levels && asks.levels == levels && bids != asks && bids.heap != asks.heap
      && bids.side == Buy && asks.side == Sell
      && (levels as object) !in {lookup.slots as object, bids.heap, asks.heap}
      && (lookup.slots as object) !in {bids.heap as object, asks.heap}
      && bids.heap.Length == levels.Length && asks.heap.Length == levels.Length
    }

    ghost function Parts(): set<object> {
      {this, lookup, lookup.slots, bids, bids.heap, asks, asks.heap}
    }

    ghost function Footprint(): set<object> {
      {this, levels, lookup, lookup.slots, bids, bids.heap, asks, asks.heap}
    }

    /** `x` is no part of the directory. */
    ghost predicate Apart(x: object) {
      && x != this && x != levels && x != lookup && x != lookup.slots
      && x != bids && x != bids.heap && x != asks && x != asks.heap
    }

    /** The directory is in order for these level records. */
    ghost predicate InOrder(records: seq<Level>)
      reads Parts()
    {
      && Static() && |records| == levels.Length
      && lookup.Valid()
      && HeapOk(Buy, records, bids.heap[..], bids.size, bids.members)
      && HeapOk(Sell, records, asks.heap[..], asks.size, asks.members)
      && Directory(records, lookup.Contents(), bids.members, asks.members)
      && FreeList(freeLevels, freeLevel, LevelLinks(records), LevelLives(records))
    }

    ghost predicate Valid()
      reads Parts(), levels
    {
      InOrder(levels[..])
    }

    constructor (capacity: nat, size: nat, mix: LevelKey -> nat)
      requires 0 < capacity <= NPOS && size > 0
      ensures Valid() && lookup.Contents() == map[] && lookup.AnyEmpty() && lookup.used == {}
      ensures levels.Length == capacity && lookup.slots.Length == size && lookup.mix == mix
      ensures fresh(this) && fresh(levels) && fresh(lookup) && fresh(lookup.slots)
      ensures fresh(bids) && fresh(bids.heap) && fresh(asks) && fresh(asks.heap)
      ensures forall i :: 0 <= i < size ==> lookup.slots[i].Empty?
      ensures forall l :: 0 <= l < capacity ==> !levels[l].active && Blank(levels[l])
    {
      hide FreeList, Directory, Probes, HeapOk;
      var pool := new Level[capacity]((i: nat) => FirstLevel(i, capacity));
      levels := pool;
      lookup := new ProbeTable<LevelKey>(size, mix);
      bids := new Ladder(Buy, pool);
      asks := new Ladder(Sell, pool);
      freeLevel := 0;
      freeLevels := seq(capacity, i => i);
      new;
      FirstDirectory(levels[..]);
    }

    method Find(side: Side, price: Price) returns (r: nat)
      requires Valid()
      ensures r == if (side, price) in lookup.Contents() then lookup.Contents()[(side, price)] else NPOS
      ensures r != NPOS <==> (side, price) in lookup.Contents()
    {
      var found := lookup.Find((side, price));
      return if found.Some? then found.value else NPOS;
    }

    lemma KeepListFields(records: seq<Level>, l: nat, level: Level)
      requires InOrder(records) && l < |records| && records[l].active && OnlyList(records[l], level)
      ensures InOrder(records[l := level])
    {
      hide Directory, HeapOk, FreeList;
      DirectoryListFields(records, lookup.Contents(), bids.members, asks.members, l, level);
      HeapFrame(Buy, records, records[l := level], bids.heap[..], bids.size, bids.members);
      HeapFrame(Sell, records, records[l := level], asks.heap[..], asks.size, asks.members);
    }

    /** The live level of a key, opened if there is none yet. It is refused only
        when the pool is exhausted or the index has no Empty slot left. */
    method Acquire(side: Side, price: Price) returns (r: nat)
      requires Valid()
      modifies Parts(), levels
      ensures Valid()
      ensures r == NPOS <==>
        (side, price) !in old(lookup.Contents()) && (old(freeLevel) == NPOS || !old(lookup.AnyEmpty()))
      ensures r != NPOS ==> r < levels.Length && levels[r].active && levels[r].side == side && levels[r].price == price
      ensures (side, price) in old(lookup.Contents()) ==> r == old(lookup.Contents())[(side, price)]
      ensures lookup.used == if r == NPOS then old(lookup.used) else old(lookup.used) + {(side, price)}
      ensures Opened(old(levels[..]), levels[..], r)
    {
      hide Probes, FreeList;
      r := Find(side, price);
      lookup.KeysUsed();
      assert (side, price) in lookup.used ==> lookup.used + {(side, price)} == lookup.used;
      FreeHead(freeLevels, freeLevel, LevelLinks(levels[..]), LevelLives(levels[..]));
      if r == NPOS && freeLevel != NPOS {
        r := Open(side, price);
      }
    }

    method Open(side: Side, price: Price) returns (r: nat)
      requires Valid() && (side, price) !in lookup.Contents() && freeLevel != NPOS
      modifies Parts(), levels
      ensures Valid()
      ensures r == if old(lookup.AnyEmpty()) then old(freeLevel) else NPOS
      ensures lookup.used == if r == NPOS then old(lookup.used) else old(lookup.used) + {(side, price)}
      ensures r != NPOS ==> r < levels.Length && !old(levels[..])[r].active
      ensures r != NPOS ==> levels[r].active && levels[r].side == side && levels[r].price == price
      ensures Opened(old(levels[..]), levels[..], r)
    {
      hide FreeList, Probes, HeapOk, Directory, Opened;
      ghost var was := levels[..];
      var index := freeLevel;
      Popped(freeLevels, freeLevel, LevelLinks(was), LevelLives(was), NPOS);
      freeLevel := levels[index].nextFree;
      var level := Level(price, 0, 0, NPOS, NPOS, NPOS, NPOS, side, true);
      levels[index] := level;
      ghost var risen := levels[..];
      assert risen == was[index := level];
      var ok := lookup.InsertBeforeEmpty((side, price), index);
      if !ok {
        levels[index] := levels[index].(active := false, nextFree := freeLevel);
        freeLevel := index;
        Reverted(was, index, levels[index]);
        assert levels[..] == was[index := levels[index]];
        r := NPOS;
      } else {
        freeLevels := freeLevels[1..];
        Place(was, index, level, old(lookup.Contents()));
        r := index;
      }
    }

    /** Refusing a level leaves its record free and blank. */
    lemma Reverted(was: seq<Level>, index: nat, level: Level)
      requires InOrder(was) && index < |was| && !was[index].active
      requires Blank(level) && !level.active && level.nextFree == was[index].nextFree
      ensures InOrder(was[index := level])
      ensures Opened(was, was[index := level], NPOS)
    {
      var now := was[index := level];
      DirectoryReverted(was, lookup.Contents(), bids.members, asks.members, index, level);
      hide FreeList, Directory, Opened;
      HeapChangedElsewhere(Buy, was, bids.heap[..], bids.size, bids.members, index, level);
      HeapChangedElsewhere(Sell, was, asks.heap[..], asks.size, asks.members, index, level);
    }

    /** Pushes a newly opened level, already in the index and off the free list, on its ladder. */
    method Place(ghost was: seq<Level>, index: nat, ghost level: Level, ghost indexWas: map<LevelKey, nat>)
      requires Static() && lookup.Valid() && |was| == levels.Length
      requires index < |was| && !was[index].active && Blank(level) && level.active
      requires levels[..] == was[index := level]
      requires HeapOk(Buy, was, bids.heap[..], bids.size, bids.members)
      requires HeapOk(Sell, was, asks.heap[..], asks.size, asks.members)
      requires KeyOf(level) !in indexWas && lookup.Contents() == indexWas[KeyOf(level) := index]
      requires Directory(was, indexWas, bids.members, asks.members)
      requires FreeList(freeLevels, freeLevel, LevelLinks(was)[index := level.nextFree], LevelLives(was)[index := true])
      modifies bids, bids.heap, asks, asks.heap, levels
      ensures Valid()
      ensures Opened(was, levels[..], index) && SameFace(levels[index], level)
    {
      hide FreeList, Probes, HeapOk, OnlyPositions, Opened, Directory;
      ghost var risen := levels[..];
      DirectoryAdded(was, indexWas, bids.members, asks.members, index, level);
      HeapChangedElsewhere(Buy, was, bids.heap[..], bids.size, bids.members, index, level);
      HeapChangedElsewhere(Sell, was, asks.heap[..], asks.size, asks.members, index, level);
      if levels[index].side == Buy {
        PushBeside(bids, asks, index);
      } else {
        PushBeside(asks, bids, index);
      }
      ghost var members := if level.side == Buy then bids.members else asks.members;
      DirectoryPositions(risen, levels[..], members, lookup.Contents(), bids.members, asks.members);
      OpenedPositions(was, index, level, levels[..], members);
    }

    /** Closes a level. The directory is in order if its list fields are blank, and
        otherwise but for them. */
    method Release(l: nat)
      requires Valid() && l < levels.Length && levels[l].active
      modifies Parts(), levels
      ensures levels[l]
        == old(levels[l]).(active := false, nextFree := levels[l].nextFree, heapPos := levels[l].heapPos)
      ensures InOrder(Emptied(levels[..], l)) && Closed(Emptied(old(levels[..]), l), Emptied(levels[..], l), l)
      ensures old(Blank(levels[l])) ==> Valid() && Closed(old(levels[..]), levels[..], l)
      ensures lookup.AnyEmpty() == old(lookup.AnyEmpty()) && lookup.used == old(lookup.used)
    {
      hide HeapOk, FreeList, Probes, Directory, Closed, Emptied;
      ghost var was := levels[..];
      RemoveFromLadder(l);
      Retire(l, was, old(bids.members), old(asks.members));
      if Blank(was[l]) {
        EmptyAlready(was, l);
        EmptyAlready(levels[..], l);
      }
    }

    /** The rest of a release, off the ladder. */
    method Retire(l: nat, ghost was: seq<Level>, ghost bidsWas: set<nat>, ghost asksWas: set<nat>)
      requires Static() && lookup.Valid() && l < levels.Length && OffLadder(was, levels[..], l)
      requires bids.members == bidsWas - {l} && asks.members == asksWas - {l}
      requires Directory(levels[..], lookup.Contents(), bidsWas, asksWas)
      requires FreeList(freeLevels, freeLevel, LevelLinks(was), LevelLives(was))
      modifies this`freeLevel, this`freeLevels, lookup, lookup.slots, levels
      ensures levels[l] == old(levels[l]).(active := false, nextFree := levels[l].nextFree)
      ensures InOrder(Emptied(levels[..], l)) && Closed(Emptied(was, l), Emptied(levels[..], l), l)
      ensures lookup.AnyEmpty() == old(lookup.AnyEmpty()) && lookup.used == old(lookup.used)
    {
      hide HeapOk, SomePositions, FreeList, Directory, Closed, Emptied;
      ghost var removed := levels[..];
      var key := KeyOf(levels[l]);
      ghost var tableWas := lookup.slots[..];
      lookup.Erase(key);
      StillEmpty(tableWas, lookup.slots[..]);
      levels[l] := levels[l].(active := false, nextFree := freeLevel);
      assert levels[..] == removed[l := levels[l]];
      freeLevel := l;
      freeLevels := [l] + freeLevels;
      LevelClosed(was, removed, l, levels[l], old(lookup.Contents()), bidsWas, asksWas);
    }

    /** The state between the ladder's removal of `l` and the rest of its release. */
    ghost predicate OffLadder(was: seq<Level>, now: seq<Level>, l: nat)
      reads Parts()
    {
      && Static() && |was| == |now| == levels.Length && l < |was| && was[l].active
      && SomePositions(was, now)
      && HeapOk(Buy, now, bids.heap[..], bids.size, bids.members) && l !in bids.members
      && HeapOk(Sell, now, asks.heap[..], asks.size, asks.members) && l !in asks.members
    }

    method RemoveFromLadder(l: nat)
      requires Valid() && l < levels.Length && levels[l].active
      modifies bids, bids.heap, asks, asks.heap, levels
      ensures OffLadder(old(levels[..]), levels[..], l)
      ensures Directory(levels[..], lookup.Contents(), old(bids.members), old(asks.members))
      ensures bids.members == old(bids.members) - {l} && asks.members == old(asks.members) - {l}
    {
      hide HeapOk, FreeList, Probes, Directory, OnlyPositions, SomePositions;
      ghost var was := levels[..];
      OnOneLadder(was, lookup.Contents(), bids.members, asks.members, l);
      if levels[l].side == Buy {
        RemoveBeside(bids, asks, l);
      } else {
        RemoveBeside(asks, bids, l);
      }
      ghost var members := if was[l].side == Buy then old(bids.members) else old(asks.members);
      DirectoryPositions(was, levels[..], members, lookup.Contents(), old(bids.members), old(asks.members));
      WiderPositions(was, levels[..], members);
    }

    lemma LevelClosed(was: seq<Level>, removed: seq<Level>, l: nat, level: Level, index: map<LevelKey, nat>,
                      bidsWas: set<nat>, asksWas: set<nat>)
      requires OffLadder(was, removed, l) && lookup.Valid()
      requires level == removed[l].(active := false, nextFree := level.nextFree)
      requires lookup.Contents() == index - {KeyOf(removed[l])}
      requires bids.members == bidsWas - {l} && asks.members == asksWas - {l}
        && Directory(removed, index, bidsWas, asksWas)
      requires |freeLevels| > 0 && freeLevels[0] == l == freeLevel
      requires FreeList(freeLevels[1..], level.nextFree, LevelLinks(was), LevelLives(was))
      ensures InOrder(Emptied(removed[l := level], l))
      ensures Closed(Emptied(was, l), Emptied(removed[l := level], l), l)
    {
      hide Directory, Closed, SomePositions, HeapOk, Emptied, FreeList, Blank, ProbeTable.Valid;
      EmptiedBoth(was, removed, index, bidsWas, asksWas, l, level);
      var empty := Emptied(removed[l := level], l)[l];
      DirectoryClosed(Emptied(was, l), Emptied(removed, l), index, bidsWas, asksWas, l, empty);
      HeapChangedElsewhere(Buy, removed, bids.heap[..], bids.size, bids.members, l, empty);
      HeapChangedElsewhere(Sell, removed, asks.heap[..], asks.size, asks.members, l, empty);
      Pushed(freeLevels[1..], level.nextFree, LevelLinks(was), LevelLives(was), l);
      assert [l] + freeLevels[1..] == freeLevels;
    }
  }

  ghost predicate SomePositions(was: seq<Level>, now: seq<Level>) {
    |was| == |now| && forall i :: 0 <= i < |was| ==> now[i] == was[i].(heapPos := now[i].heapPos)
  }

  lemma WiderPositions(was: seq<Level>, now: seq<Level>, members: set<nat>)
    requires OnlyPositions(was, now, members)
    ensures SomePositions(was, now)
  {
  }

  lemma StillEmpty<K>(was: seq<Slot<K>>, now: seq<Slot<K>>)
    requires now == was || exists j :: 0 <= j < |was| && was[j].Occupied? && now == was[j := Tombstone]
    ensures HasEmpty(now) == HasEmpty(was)
  {
    if i :| 0 <= i < |was| && was[i].Empty? {
      assert now[i].Empty?;
    }
    if i :| 0 <= i < |now| && now[i].Empty? {
      assert was[i].Empty?;
    }
  }

  lemma DirectoryClosed(was: seq<Level>, removed: seq<Level>, index: map<LevelKey, nat>, bids: set<nat>,
                        asks: set<nat>, l: nat, level: Level)
    requires |was| == |removed| <= NPOS && SomePositions(was, removed)
    requires Directory(removed, index, bids, asks) && l < |removed| && removed[l].active && Blank(removed[l])
    requires level == removed[l].(active := false, nextFree := level.nextFree)
    ensures Directory(removed[l := level], index - {KeyOf(removed[l])}, bids - {l}, asks - {l})
    ensures LevelLinks(removed[l := level]) == LevelLinks(was)[l := level.nextFree]
    ensures LevelLives(removed[l := level]) == LevelLives(was)[l := false]
    ensures Closed(was, removed[l := level], l)
  {
    assert Blank(level);
    hide Blank;
  }

  lemma OnOneLadder(levels: seq<Level>, index: map<LevelKey, nat>, bids: set<nat>, asks: set<nat>, l: nat)
    requires Directory(levels, index, bids, asks) && l < |levels| && levels[l].active
    ensures bids !! asks
    ensures l in (if levels[l].side == Buy then bids else asks)
    ensures if levels[l].side == Buy then asks - {l} == asks else bids - {l} == bids
  {
  }

  lemma DirectoryAdded(was: seq<Level>, index: map<LevelKey, nat>, bids: set<nat>, asks: set<nat>, l: nat, level: Level)
    requires l < |was| && !was[l].active && level.active
    requires Directory(was, index, bids, asks) && KeyOf(level) !in index
    ensures
      var added := index[KeyOf(level) := l];
      if level.side == Buy then Directory(was[l := level], added, bids + {l}, asks)
      else Directory(was[l := level], added, bids, asks + {l})
    ensures Blank(was[l]) && l !in bids && l !in asks && bids !! asks
    ensures LevelLinks(was[l := level]) == LevelLinks(was)[l := level.nextFree]
    ensures LevelLives(was[l := level]) == LevelLives(was)[l := true]
  {
    hide Blank;
  }

  lemma DirectoryReverted(was: seq<Level>, index: map<LevelKey, nat>, bids: set<nat>, asks: set<nat>, l: nat,
                          level: Level)
    requires Directory(was, index, bids, asks) && l < |was| <= NPOS && !was[l].active
    requires Blank(level) && !level.active && level.nextFree == was[l].nextFree
    ensures Directory(was[l := level], index, bids, asks)
    ensures LevelLinks(was[l := level]) == LevelLinks(was) && LevelLives(was[l := level]) == LevelLives(was)
    ensures Opened(was, was[l := level], NPOS)
    ensures l !in bids && l !in asks
  {
  }

  /** Heap positions are no concern of the directory's. */
  lemma DirectoryPositions(was: seq<Level>, now: seq<Level>, members: set<nat>, index: map<LevelKey, nat>,
                           bids: set<nat>, asks: set<nat>)
    requires OnlyPositions(was, now, members) && Directory(was, index, bids, asks)
    ensures Directory(now, index, bids, asks)
    ensures LevelLinks(now) == LevelLinks(was) && LevelLives(now) == LevelLives(was)
  {
  }

  lemma OpenedPositions(was: seq<Level>, l: nat, level: Level, now: seq<Level>, members: set<nat>)
    requires l < |was| && !was[l].active && level.active && Blank(was[l]) && Blank(level)
    requires OnlyPositions(was[l := level], now, members)
    ensures Opened(was, now, l) && SameFace(now[l], level)
  {
  }
}
