/** The order book: pools, queues, indexes and ladders kept in step in place.
    Every step says what it does to the book's snapshot, and keeps the
    representation invariant up to what that step leaves open. */
module OrderBooks {
  import opened MarketTypes
  import opened ProbeSlots
  import opened ProbeTables
  import opened Ladders
  import opened Fifos
  import opened FreeLists
  import opened LevelDirectories
  import opened BookStates
  import opened Matching
  import opened Sums
  import opened BookViews
  import Reference

  /** The smallest power of two that is at least `value`. */
  method NextPowerOfTwo(value: nat) returns (result: nat)
    ensures IsTableSize(result, value)
  {
    result := 1;
    ghost var k := 0;
    while result < value
      invariant result == Power(k) && (k == 0 || Power(k - 1) < value)
      decreases value - result
    {
      result := 2 * result;
      k := k + 1;
    }
  }

  /** `size` is the smallest power of two that is at least `value`. */
  ghost predicate IsTableSize(size: nat, value: nat) {
    size >= value && exists k: nat :: size == Power(k) && (k == 0 || Power(k - 1) < value)
  }

  lemma TableSizeAtLeast(size: nat, value: nat)
    requires IsTableSize(size, value)
    ensures size >= value
  {
  }

  function Power(k: nat): nat {
    if k == 0 then 1 else 2 * Power(k - 1)
  }

  /** The order pool at the start: every record on the free list, in order. */
  function FirstOrder(i: nat, capacity: nat): Order {
    Order(0, 0, 0, 0, NPOS, NPOS, NPOS, if i + 1 < capacity then i + 1 else NPOS, Buy, false)
  }

  lemma FirstSnapshot(s: Snapshot)
    requires 0 < |s.orders| == |s.levels| <= NPOS
    requires forall i :: 0 <= i < |s.orders| ==> s.orders[i] == FirstOrder(i, |s.orders|)
    requires forall l :: 0 <= l < |s.levels| ==> !s.levels[l].active && Blank(s.levels[l])
    requires s.queues == seq(|s.orders|, _ => []) && s.freeOrders == seq(|s.orders|, i => i)
    requires s.freeOrder == 0 && s.activeOrders == 0 && s.index == map[]
    ensures s.Ok(-1, -1, -1) && s.Book() == map[]
  {
    InitialFreeList(OrderLinks(s.orders), OrderLives(s.orders));
    NoneWaiting(s.queues);
  }

  lemma {:induction false} NoneWaiting(queues: seq<seq<nat>>)
    requires forall l :: 0 <= l < |queues| ==> queues[l] == []
    ensures Waiting(queues) == 0
  {
    if queues != [] {
      NoneWaiting(queues[1..]);
    }
  }

  /** Every view is of a level in the index. */
  ghost predicate AllKnown(views: seq<LevelView>, index: map<LevelKey, nat>) {
    forall v :: v in views ==> (v.side, v.priceTicks) in index
  }

  class OrderBook {
    const orders: array<Order>
    const lookup: ProbeTable<OrderId>
    const directory: LevelDirectory
    var freeOrder: nat
    var activeOrders: nat
    var nextPriority: nat
    var fillSequence: nat
    ghost var freeOrders: seq<nat>
    ghost var queues: seq<seq<nat>>

    ghost predicate Static() {
      && directory.Static()
      && orders.Length == directory.levels.Length
      && lookup.slots.Length >= 2 * orders.Length
      && directory.Apart(orders) && directory.Apart(lookup) && directory.Apart(lookup.slots) && directory.Apart(this)
      && (orders as object) != lookup.slots
    }

    ghost function Parts(): set<object> {
      {this, orders, lookup, lookup.slots} + directory.Footprint()
    }

    ghost function Now(): Snapshot
      requires lookup.Valid()
      reads this, orders, directory.levels, lookup, lookup.slots
    {
      Snapshot(orders[..], directory.levels[..], queues, lookup.Contents(), freeOrders, freeOrder, activeOrders,
        nextPriority)
    }

    /** The representation invariant, with what an operation under way leaves open. */
    ghost predicate Inv(loose: int, pending: int, unindexed: int)
      reads Parts()
    {
      Static() && lookup.Valid() && directory.Valid() && Now().Ok(loose, pending, unindexed)
    }

    ghost predicate Valid()
      reads Parts()
    {
      Inv(-1, -1, -1)
    }

    /** The book as the reference sees it. */
    ghost function State(): Reference.State
      requires Valid()
      reads Parts()
    {
      OkBook(Now());
      Reference.State(Now().Book(), nextPriority, fillSequence)
    }

    constructor (maxOrders: nat, mixId: OrderId -> nat, mixKey: LevelKey -> nat)
      requires 0 < maxOrders <= NPOS
      ensures Valid() && State() == Reference.EMPTY
      ensures orders.Length == maxOrders && fresh(Parts())
      ensures directory.lookup.mix == mixKey && directory.lookup.used == {}
      ensures IsTableSize(directory.lookup.slots.Length, 2 * maxOrders)
    {
      hide Probes, FreeList, Directory, HeapOk, AllListed, Covered, Populated, Indexed, Sound, IsTableSize,
           Snapshot.Ok;
      var size := NextPowerOfTwo(2 * maxOrders);
      TableSizeAtLeast(size, 2 * maxOrders);
      orders := new Order[maxOrders]((i: nat) => FirstOrder(i, maxOrders));
      lookup := new ProbeTable<OrderId>(size, mixId);
      directory := new LevelDirectory(maxOrders, size, mixKey);
      freeOrder, activeOrders, nextPriority, fillSequence := 0, 0, 0, 0;
      freeOrders := seq(maxOrders, i => i);
      queues := seq(maxOrders, _ => []);
      new;
      assert Static();
      assert fresh(Parts());
      FirstSnapshot(Now());
    }

    /** `o` is the record of the order `id`. */
    ghost predicate Holds(id: OrderId, o: nat)
      reads Parts()
    {
      lookup.Valid() && id in lookup.Contents() && lookup.Contents()[id] == o < orders.Length
    }

    /** What a record shows is what the book says of its order. */
    lemma HeldOrder(id: OrderId, o: nat)
      requires Valid() && Holds(id, o)
      ensures o < orders.Length && id in State().orders && State().orders[id] == Shown(orders[o])
      ensures orders[o].active && orders[o].id == id && orders[o].quantity > 0 && orders[o].level < orders.Length
    {
      hide Snapshot.Ok, Probes, HeapOk, Directory, FreeList, BookOf;
      ShownInBook(Now(), id);
    }

    lemma Counts()
      requires Valid()
      ensures |State().orders| <= orders.Length && (freeOrder == NPOS <==> |State().orders| == orders.Length)
    {
      hide Snapshot.Ok, Probes, HeapOk, Directory, FreeList, BookOf;
      OkBook(Now());
      OrdersExhausted(Now());
      IndexedSize(Now(), -1);
    }

    method FindOrderIndex(id: OrderId) returns (r: nat)
      requires Valid()
      ensures Valid() && State() == old(State())
      ensures (r == NPOS <==> id !in State().orders) && (r != NPOS ==> Holds(id, r))
    {
      hide Snapshot.Ok, Probes, HeapOk, Directory, FreeList, BookOf;
      OkBook(Now());
      var found := lookup.Find(id);
      return if found.Some? then found.value else NPOS;
    }

    method LinkTail(o: nat, l: nat, ghost unindexed: int)
      requires Inv(o, l, unindexed) && o < orders.Length && l < orders.Length
      requires orders[o].level == l && orders[o].side == directory.levels[l].side
        && orders[o].price == directory.levels[l].price
      requires Newest(orders[..], o)
      modifies this`queues, orders, directory.levels
      ensures Inv(-1, -1, unindexed)
      ensures |old(queues)| == orders.Length
        && (old(directory.levels[l]).tail != NPOS ==> old(directory.levels[l]).tail < orders.Length)
      ensures Now() == Appended(old(Now()), l, o)
      ensures OnlyLinks(old(orders[..]), orders[..])
    {
      hide Snapshot.Ok, Newest, Probes, HeapOk, Directory, FreeList, OnlyLinks, AppendedOrders;
      ghost var was := Now();
      AppendOk(was, l, o, unindexed);
      directory.KeepListFields(was.levels, l, AppendedLevel(was.levels[l], o, was.orders[o].quantity));
      Append(o, l);
      queues := queues[l := queues[l] + [o]];
    }

    /** The pointer surgery of `LinkTail`. */
    method Append(o: nat, l: nat)
      requires Static() && o < orders.Length && l < orders.Length
      requires directory.levels[l].tail != NPOS ==> directory.levels[l].tail < orders.Length
      modifies orders, directory.levels
      ensures orders[..] == AppendedOrders(old(orders[..]), old(directory.levels[l]).tail, o)
      ensures directory.levels[..]
        == old(directory.levels[..])[l := AppendedLevel(old(directory.levels[l]), o, old(orders[o]).quantity)]
    {
      var levels := directory.levels;
      orders[o] := orders[o].(prev := levels[l].tail, next := NPOS);
      if levels[l].tail != NPOS {
        orders[levels[l].tail] := orders[levels[l].tail].(next := o);
      } else {
        levels[l] := levels[l].(head := o);
      }
      levels[l] := levels[l].(tail := o);
      levels[l] := levels[l].(
        totalQuantity := levels[l].totalQuantity + orders[o].quantity,
        orderCount := levels[l].orderCount + 1);
    }

    /** An order that is linked to no other. */
    ghost predicate OutOfLine(o: nat)
      reads this, orders
    {
      o < orders.Length && orders[o].prev == orders[o].next == NPOS && orders[o].level < orders.Length
    }

    method Unlink(o: nat, ghost at: nat)
      requires Valid() && o < orders.Length && orders[o].level < |queues|
      requires at < |queues[orders[o].level]| && queues[orders[o].level][at] == o
      modifies this`queues, orders, directory.Footprint()
      ensures Inv(o, -1, -1)
      ensures OnlyLinks(old(orders[..]), orders[..]) && OutOfLine(o)
      ensures queues == old(queues)[old(orders[o]).level := Without(old(queues)[old(orders[o]).level], at)]
      ensures Shrunk(old(directory.levels[..]), directory.levels[..])
      ensures directory.lookup.AnyEmpty() == old(directory.lookup.AnyEmpty())
        && directory.lookup.used == old(directory.lookup.used)
    {
      hide Snapshot.Ok, Probes, HeapOk, Directory, FreeList, OnlyLinks, DetachedOrders, Shrunk, Without, HasEmpty,
           Held, SameFace, LevelLinks;
      ghost var was := Now();
      var l := orders[o].level;
      DetachOk(was, l, at);
      directory.KeepListFields(was.levels, l, DetachedLevel(was.levels[l], was.orders[o]));
      Detach(o);
      queues := queues[l := Without(queues[l], at)];
      assert Now() == Detached(was, l, at);
      ListFieldsShrunk(was.levels, l, directory.levels[l]);
      ghost var detached := directory.levels[..];
      Settle(l, o);
      ShrunkTwice(was.levels, detached, directory.levels[..]);
    }

    /** Releases a level that has lost its last order. */
    method Settle(l: nat, ghost loose: nat)
      requires Inv(loose, l, -1) && l < orders.Length
      modifies directory.Footprint()
      ensures Inv(loose, -1, -1)
      ensures Shrunk(old(directory.levels[..]), directory.levels[..])
      ensures directory.lookup.AnyEmpty() == old(directory.lookup.AnyEmpty())
        && directory.lookup.used == old(directory.lookup.used)
    {
      hide Snapshot.Ok, Probes, HeapOk, Directory, FreeList, Shrunk, HasEmpty, Closed;
      ghost var was := Now();
      if directory.levels[l].orderCount == 0 {
        EmptyQueueBlank(was, loose, l);
        directory.Release(l);
        CloseOk(was, loose, l, -1, directory.levels[..]);
        ClosedShrunk(was.levels, directory.levels[..], l);
      } else {
        FilledQueue(was, loose, l);
        SettleOk(was, loose, l, -1);
        ListFieldsShrunk(was.levels, l, directory.levels[l]);
        assert was.levels[l := was.levels[l]] == was.levels;
      }
    }

    /** The pointer surgery of `Unlink`. */
    method Detach(o: nat)
      requires Static() && o < orders.Length && orders[o].level < orders.Length
      requires orders[o].prev != NPOS ==> orders[o].prev < orders.Length
      requires orders[o].next != NPOS ==> orders[o].next < orders.Length
      modifies orders, directory.levels
      ensures orders[..] == DetachedOrders(old(orders[..]), o)
      ensures directory.levels[..] == old(directory.levels[..])[
        old(orders[o]).level := DetachedLevel(old(directory.levels[orders[o].level]), old(orders[o]))]
    {
      var levels := directory.levels;
      var order := orders[o];
      var l := order.level;
      if order.prev != NPOS {
        orders[order.prev] := orders[order.prev].(next := order.next);
      } else {
        levels[l] := levels[l].(head := order.next);
      }
      if order.next != NPOS {
        orders[order.next] := orders[order.next].(prev := order.prev);
      } else {
        levels[l] := levels[l].(tail := order.prev);
      }
      levels[l] := levels[l].(
        totalQuantity := Minus(levels[l].totalQuantity, order.quantity),
        orderCount := Minus(levels[l].orderCount, 1));
      orders[o] := orders[o].(prev := NPOS, next := NPOS);
    }

    /** Pops a free record and fills it. */
    method TakeSlot(id: OrderId, side: Side, price: Price, quantity: Quantity, l: nat) returns (o: nat)
      requires Inv(-1, l, -1) && freeOrder != NPOS && quantity > 0
      modifies this`freeOrder, this`freeOrders, this`nextPriority, orders
      ensures o == old(freeOrder) < orders.Length && |old(freeOrders)| > 0
      ensures Now() == Taken(old(Now()), NewOrder(id, side, price, quantity, old(nextPriority), l))
      ensures Inv(o, l, o) && Newest(orders[..], o) && !old(orders[..])[o].active
    {
      hide Snapshot.Ok, Probes, HeapOk, Directory, FreeList, Newest;
      TakeOk(Now(), l, NewOrder(id, side, price, quantity, nextPriority, l));
      o := freeOrder;
      freeOrder := orders[o].nextFree;
      freeOrders := freeOrders[1..];
      orders[o] := NewOrder(id, side, price, quantity, nextPriority, l);
      nextPriority := nextPriority + 1;
    }

    /** Indexes a linked order. The index has at least twice as many slots as the
        pool has records, so it never refuses: the rollback after a refusal
        (lines 144-148 of the source) is dead code. */
    method Enter(o: nat)
      requires Inv(-1, -1, o) && o < orders.Length && orders[o].active && orders[o].id !in lookup.Contents()
      modifies lookup, lookup.slots, this`activeOrders
      ensures Valid()
      ensures Now()
        == old(Now()).(index := old(lookup.Contents())[orders[o].id := o], activeOrders := old(activeOrders) + 1)
    {
      hide Snapshot.Ok, Probes, HeapOk, Directory, FreeList;
      EnterOk(Now(), o);
      IndexedSize(Now(), o);
      FreeSlotExists(lookup.slots[..], lookup.mix, lookup.at, lookup.used);
      var ok := lookup.InsertReusing(orders[o].id, o);
      assert ok;
      activeOrders := activeOrders + 1;
    }

    /** No order rests at this price, and the level index has no Empty slot left
        to open a level there. */
    ghost predicate RefusesLevel(side: Side, price: Price)
      requires Valid()
      reads Parts()
    {
      !directory.lookup.AnyEmpty() && !OrderAt(State().orders, side, price)
    }

    /** Rests a fresh order as the reference does, except that a book whose level
        index refuses the price stays as it is. */
    method RestOrder(id: OrderId, side: Side, price: Price, quantity: Quantity) returns (r: ProcessResult)
      requires Valid()
      modifies Parts()
      ensures Valid()
      ensures
        var (expected, after) := Reference.Rest(orders.Length, old(State()), id, side, price, quantity);
        if expected == Applied && old(RefusesLevel(side, price)) then r == CapacityExhausted && State() == old(State())
        else r == expected && State() == after
      ensures directory.lookup.used == if r == Applied
        then old(directory.lookup.used) + {(side, price)}
        else old(directory.lookup.used)
    {
      hide Snapshot.Ok, Probes, HeapOk, Directory, FreeList, BookOf, OrderAt, HasEmpty, RefusesLevel, OrderBook.Valid,
           OrderBook.State, Reference.Rest;
      Counts();
      Reference.RestCases(orders.Length, State(), id, side, price, quantity);
      var existing := FindOrderIndex(id);
      if quantity == 0 {
        r := InvalidQuantity;
      } else if existing != NPOS {
        r := DuplicateOrderId;
      } else if freeOrder == NPOS {
        r := CapacityExhausted;
      } else {
        r := RestFresh(id, side, price, quantity);
      }
    }

    /** The part of `RestOrder` after its checks. */
    method RestFresh(id: OrderId, side: Side, price: Price, quantity: Quantity) returns (r: ProcessResult)
      requires Valid() && freeOrder != NPOS && quantity > 0 && id !in State().orders
      modifies Parts()
      ensures Valid()
      ensures if old(RefusesLevel(side, price)) then r == CapacityExhausted && State() == old(State())
        else r == Applied && State() == old(State()).(
          orders := old(State()).orders[id := RefOrder(side, price, quantity, old(State()).nextPriority)],
          nextPriority := old(State()).nextPriority + 1)
      ensures directory.lookup.used == if r == Applied
        then old(directory.lookup.used) + {(side, price)}
        else old(directory.lookup.used)
    {
      hide Snapshot.Ok, Probes, HeapOk, Directory, FreeList, BookOf, OrderAt, HasEmpty, UsedLevel,
           LevelDirectory.Valid, ProbeTable.Contents;
      OkBook(Now());
      UsedOrderAt(Now(), -1, side, price);
      var l := AcquireLevel(side, price, -1);
      if l == NPOS {
        r := CapacityExhausted;
      } else {
        RestAt(l, id, quantity);
        r := Applied;
      }
    }

    /** Rests a fresh order at the end of an acquired level. */
    method RestAt(l: nat, id: OrderId, quantity: Quantity)
      requires Inv(-1, l, -1) && l < orders.Length && freeOrder != NPOS && quantity > 0 && id !in lookup.Contents()
      requires forall k :: k in lookup.Contents() ==> lookup.Contents()[k] < orders.Length
      modifies this`freeOrder, this`freeOrders, this`nextPriority, this`queues, this`activeOrders
      modifies orders, directory.levels, lookup, lookup.slots
      ensures Valid()
      ensures State() == Reference.State(
        old(Now().Book())[
          id := RefOrder(old(directory.levels[l]).side, old(directory.levels[l]).price, quantity, old(nextPriority))],
        old(nextPriority) + 1, old(fillSequence))
    {
      hide Snapshot.Ok, Probes, HeapOk, Directory, FreeList, Newest, OnlyLinks, AppendedOrders, BookOf;
      ghost var was := Now();
      var side, price := directory.levels[l].side, directory.levels[l].price;
      var o := TakeSlot(id, side, price, quantity, l);
      ghost var taken := Now();
      LinkTail(o, l, o);
      OnlyLinksAt(taken.orders, orders[..], o);
      Enter(o);
      RestedBook(was, l, NewOrder(id, side, price, quantity, was.nextPriority, l), Now());
    }

    /** `Acquire`, seen from the book: it opens a level unless none rests there and
        the level index has no Empty slot. The level pool never runs out. */
    method AcquireLevel(side: Side, price: Price, ghost loose: int) returns (l: nat)
      requires Inv(loose, -1, -1) && (loose >= 0 || freeOrder != NPOS)
      requires forall k :: k in lookup.Contents() ==> lookup.Contents()[k] < orders.Length
      modifies directory.Footprint()
      ensures l == NPOS <==> !old(directory.lookup.AnyEmpty()) && !old(UsedLevel(Now(), loose, side, price))
      ensures l != NPOS ==> l < orders.Length && directory.levels[l].side == side && directory.levels[l].price == price
      ensures Inv(loose, if l == NPOS then -1 else l, -1)
      ensures Now() == old(Now()).(levels := directory.levels[..])
      ensures directory.lookup.used == if l == NPOS then old(directory.lookup.used)
        else old(directory.lookup.used) + {(side, price)}
    {
      hide Snapshot.Ok, Probes, HeapOk, Directory, FreeList, BookOf, UsedLevel, HasEmpty, Held, ProbeTable.Contents,
           LevelLives, ProbeTable.AnyEmpty, Opened, ProbeTable.Valid;
      ghost var was := Now();
      LevelKnown(was, loose, directory.lookup.Contents(), directory.bids.members, directory.asks.members, side, price);
      LevelToSpare(was, loose);
      FreeHead(directory.freeLevels, directory.freeLevel, LevelLinks(was.levels), LevelLives(was.levels));
      l := directory.Acquire(side, price);
      OpenOk(was, loose, -1, directory.levels[..], l);
    }

    /** Forgets an unlinked order and returns its record to the pool. */
    method Drop(o: nat)
      requires Inv(o, -1, -1)
      modifies lookup, lookup.slots, orders, this`freeOrder, this`freeOrders, this`activeOrders
      ensures o < orders.Length && old(activeOrders) > 0
      ensures Valid() && Now() == Dropped(old(Now()), o)
    {
      hide Snapshot.Ok, Probes, HeapOk, Directory, FreeList;
      ghost var was := Now();
      DropOk(was, o);
      lookup.Erase(orders[o].id);
      FreeOrderSlot(o);
      activeOrders := activeOrders - 1;
      assert Now() == Dropped(was, o);
    }

    method FreeOrderSlot(o: nat)
      requires o < orders.Length
      modifies orders, this`freeOrder, this`freeOrders
      ensures orders[..] == old(orders[..])[o := old(orders[o]).(active := false, nextFree := old(freeOrder))]
      ensures freeOrder == o && freeOrders == [o] + old(freeOrders)
    {
      orders[o] := orders[o].(active := false, nextFree := freeOrder);
      freeOrder := o;
      freeOrders := [o] + freeOrders;
    }

    /** Takes the order at place `at` of its queue out of the book. */
    method Remove(o: nat, ghost at: nat)
      requires Valid() && o < orders.Length && orders[o].level < |queues|
      requires at < |queues[orders[o].level]| && queues[orders[o].level][at] == o
      modifies Parts()
      ensures Valid()
      ensures State() == old(State()).(orders := old(State()).orders - {old(orders[o]).id})
      ensures queues == old(queues)[old(orders[o]).level := Without(old(queues)[old(orders[o]).level], at)]
      ensures Shrunk(old(directory.levels[..]), directory.levels[..])
      ensures directory.lookup.AnyEmpty() == old(directory.lookup.AnyEmpty())
        && directory.lookup.used == old(directory.lookup.used)
    {
      hide Snapshot.Ok, Probes, HeapOk, Directory, FreeList, BookOf, OnlyLinks, Shrunk, Without, HasEmpty,
           LevelDirectory.Valid, ProbeTable.Contents, ProbeTable.Valid;
      ghost var was := Now();
      OkBook(was);
      Unlink(o, at);
      assert unchanged(lookup);
      assert unchanged(lookup.slots);
      assert lookup.Contents() == old(lookup.Contents());
      ghost var unlinked := Now();
      UnlinkedBook(was, unlinked, o);
      Drop(o);
    }

    method Cancel(id: OrderId) returns (r: ProcessResult)
      requires Valid()
      modifies Parts()
      ensures Valid()
      ensures r == if id in old(State()).orders then Applied else OrderNotFound
      ensures State() == old(State()).(orders := old(State()).orders - {id})
      ensures directory.lookup.AnyEmpty() == old(directory.lookup.AnyEmpty())
        && directory.lookup.used == old(directory.lookup.used)
    {
      hide Snapshot.Ok, Probes, HeapOk, Directory, FreeList, BookOf, Shrunk, HasEmpty;
      var o := FindOrderIndex(id);
      if o == NPOS {
        assert State().orders - {id} == State().orders;
        r := OrderNotFound;
      } else {
        OkBook(Now());
        ghost var at := OrderPlace(Now(), id);
        Remove(o, at);
        r := Applied;
      }
    }

    /** Changes a waiting order's quantity, and its level's total with it. */
    method Resize(o: nat, quantity: Quantity)
      requires Valid() && o < orders.Length && orders[o].active && quantity > 0
      modifies orders, directory.levels
      ensures old(orders[o]).level < orders.Length
      ensures old(directory.levels[orders[o].level]).totalQuantity >= old(orders[o]).quantity
      ensures Valid() && Now() == Resized(old(Now()), o, quantity)
      ensures State() == old(State()).(
        orders := old(State()).orders[old(orders[o]).id := Shown(old(orders[o])).(quantity := quantity)])
    {
      hide Snapshot.Ok, Probes, HeapOk, Directory, FreeList, BookOf;
      ghost var was := Now();
      ResizeOk(was, o, quantity);
      ResizedBook(was, o, quantity);
      var l := orders[o].level;
      directory.KeepListFields(was.levels, l, Resized(was, o, quantity).levels[l]);
      directory.levels[l] := directory.levels[l].(
        totalQuantity := directory.levels[l].totalQuantity - orders[o].quantity + quantity);
      orders[o] := orders[o].(quantity := quantity);
    }

    method Trade(id: OrderId, quantity: Quantity) returns (r: ProcessResult)
      requires Valid()
      modifies Parts()
      ensures Valid()
      ensures (r, State()) == Reference.Execute(old(State()), id, quantity)
      ensures directory.lookup.AnyEmpty() == old(directory.lookup.AnyEmpty())
        && directory.lookup.used == old(directory.lookup.used)
    {
      hide Snapshot.Ok, Probes, HeapOk, Directory, FreeList, BookOf, HasEmpty, Holds, OrderBook.Valid, OrderBook.State;
      var o := FindOrderIndex(id);
      if quantity == 0 {
        r := InvalidQuantity;
      } else if o == NPOS {
        r := OrderNotFound;
      } else {
        r := TradeFound(id, o, quantity);
      }
    }

    method TradeFound(id: OrderId, o: nat, quantity: Quantity) returns (r: ProcessResult)
      requires Valid() && quantity > 0 && Holds(id, o)
      modifies Parts()
      ensures Valid()
      ensures (r, State()) == Reference.Execute(old(State()), id, quantity)
      ensures directory.lookup.AnyEmpty() == old(directory.lookup.AnyEmpty())
        && directory.lookup.used == old(directory.lookup.used)
    {
      hide Snapshot.Ok, Probes, HeapOk, Directory, FreeList, BookOf, HasEmpty, Resized, Holds, OrderBook.Valid,
           OrderBook.State;
      HeldOrder(id, o);
      if quantity > orders[o].quantity {
        r := InvalidQuantity;
      } else if quantity == orders[o].quantity {
        r := Cancel(id);
      } else {
        Resize(o, orders[o].quantity - quantity);
        r := Applied;
      }
    }

    /** The condition under which the book falls short of the reference: the event
        rests an order at a price where no other order rests, and the level index
        has no Empty slot left. */
    ghost predicate Refuses(event: MarketDataEvent)
      requires Valid()
      reads Parts()
    {
      && Reference.Process(orders.Length, State(), event).0 == Applied
      && var target := RestingPrice(State(), event);
      && target.Some?
      && !directory.lookup.AnyEmpty()
      && !OrderAt(State().orders - {event.orderId}, target.value.0, target.value.1)
    }

    /** An indexed order that waits in no queue but still names the level it has
        left. The rest of the book is in order. */
    ghost predicate Stranded(id: OrderId)
      reads Parts()
    {
      && lookup.Valid() && id in lookup.Contents() && Inv(lookup.Contents()[id], -1, -1)
      && OutOfLine(lookup.Contents()[id])
    }

    /** The order is stranded by a call that found the book as `was` and its records
        as `records`: nothing in them has changed but links, and the level that the
        order names is live exactly when another order rests at its price. */
    ghost predicate LeftBehind(id: OrderId, was: Reference.Orders, records: seq<Order>)
      reads Parts()
    {
      && Stranded(id) && OnlyLinks(records, orders[..])
      && lookup.Contents().Keys == was.Keys && Shown(orders[lookup.Contents()[id]]) == was[id]
      && (LevelLive(lookup.Contents()[id]) <==> OrderAt(was - {id}, was[id].side, was[id].price))
    }

    ghost predicate LevelLive(o: nat)
      reads orders, directory.levels
    {
      o < orders.Length && orders[o].level < directory.levels.Length && directory.levels[orders[o].level].active
    }

    /** Unlinking a stranded order once more, as cancelling it does. The queue
        of the level it names loses its head and its tail if and only if that level is
        live, and the level is closed if one order waits there. All who wait there stay
        indexed. */
    method UnlinkStranded(id: OrderId, o: nat)
      requires Stranded(id) && Holds(id, o)
      modifies orders, directory.Footprint()
      ensures lookup.Valid() && lookup.Contents() == old(lookup.Contents())
      ensures o < orders.Length && orders[..] == old(orders[..])
      ensures UnlinkedAgain(old(directory.levels[..]), directory.levels[..], queues, orders[o])
      ensures StillWaiting(orders[..], queues, orders[o].level, lookup.Contents(), o)
    {
      hide Snapshot.Ok, Probes, HeapOk, Directory, FreeList, BookOf, StillWaiting, Closed, HasEmpty, Blank;
      ghost var was := Now();
      var l := orders[o].level;
      StrayLevel(was, o);
      if directory.levels[l].active {
        directory.KeepListFields(was.levels, l, DetachedLevel(was.levels[l], was.orders[o]));
      }
      Detach(o);
      assert orders[..] == was.orders;
      if directory.levels[l].orderCount == 0 {
        ghost var detached := directory.levels[..];
        directory.Release(l);
        ClosedLives(detached, directory.levels[..], l);
      }
    }

    /** What modifying does: the reference's amendment, unless the order moves to a
        price that is refused. */
    ghost predicate AmendOutcome(was: Reference.State, records: seq<Order>, event: MarketDataEvent, refused: bool,
                                 r: ProcessResult)
      reads Parts()
    {
      var (expected, after) := Reference.Amend(was, event);
      if expected == Applied && Moves(was, event) && refused
      then r == CapacityExhausted && LeftBehind(event.orderId, was.orders, records) && !Valid()
      else Valid() && r == expected && State() == after
    }

    method Modify(event: MarketDataEvent) returns (r: ProcessResult)
      requires Valid()
      modifies Parts()
      ensures AmendOutcome(old(State()), old(orders[..]), event, old(RefusesLevel(event.side, event.priceTicks)), r)
      ensures directory.lookup.used == if r == Applied && Moves(old(State()), event)
        then old(directory.lookup.used) + {(event.side, event.priceTicks)} else old(directory.lookup.used)
    {
      hide Snapshot.Ok, Probes, HeapOk, Directory, FreeList, BookOf, RefusesLevel, LeftBehind, Holds, OrderBook.Valid,
           OrderBook.State;
      var o := FindOrderIndex(event.orderId);
      if event.quantity == 0 {
        r := InvalidQuantity;
      } else if o == NPOS {
        r := OrderNotFound;
      } else {
        r := ModifyFound(o, event);
      }
    }

    /** An order that stays at its price keeps its place; one that moves loses it. */
    method ModifyFound(o: nat, event: MarketDataEvent) returns (r: ProcessResult)
      requires Valid() && event.quantity > 0
      requires Holds(event.orderId, o)
      modifies Parts()
      ensures AmendOutcome(old(State()), old(orders[..]), event, old(RefusesLevel(event.side, event.priceTicks)), r)
      ensures directory.lookup.used == if r == Applied && Moves(old(State()), event)
        then old(directory.lookup.used) + {(event.side, event.priceTicks)} else old(directory.lookup.used)
    {
      hide Snapshot.Ok, Probes, HeapOk, Directory, FreeList, BookOf, RefusesLevel, LeftBehind, Holds, OrderBook.Valid,
           OrderBook.State;
      HeldOrder(event.orderId, o);
      if orders[o].side == event.side && orders[o].price == event.priceTicks {
        Resize(o, event.quantity);
        r := Applied;
      } else {
        r := MoveChecked(o, event);
      }
    }

    method MoveChecked(o: nat, event: MarketDataEvent) returns (r: ProcessResult)
      requires Valid() && event.quantity > 0
      requires Holds(event.orderId, o) && o < orders.Length
      requires orders[o].level < orders.Length
      requires orders[o].side != event.side || orders[o].price != event.priceTicks
      modifies Parts()
      ensures MoveOutcome(old(RefusesLevel(event.side, event.priceTicks)), old(State()), old(orders[..]), event, r)
      ensures directory.lookup.used == if r == Applied
        then old(directory.lookup.used) + {(event.side, event.priceTicks)}
        else old(directory.lookup.used)
    {
      hide Snapshot.Ok, Probes, HeapOk, Directory, FreeList, BookOf, RefusesLevel, MoveOutcome;
      NeverOutOfLevels(orders[o].level);
      var target := directory.Find(event.side, event.priceTicks);
      assert State() == old(State())
        && RefusesLevel(event.side, event.priceTicks) == old(RefusesLevel(event.side, event.priceTicks));
      if target == NPOS && directory.freeLevel == NPOS && directory.levels[orders[o].level].orderCount > 1 {
        assert false;
      }
      r := Move(o, event);
    }

    /** A move either strands the order, when its price is refused, or rests it
        there with the next priority. */
    ghost predicate MoveOutcome(refused: bool, was: Reference.State, records: seq<Order>, event: MarketDataEvent,
                                r: ProcessResult)
      reads Parts()
    {
      if refused then r == CapacityExhausted && LeftBehind(event.orderId, was.orders, records) && !Valid()
      else
        && r == Applied && Valid()
        && State() == was.(
          orders := was.orders[
            event.orderId := RefOrder(event.side, event.priceTicks, event.quantity, was.nextPriority)],
          nextPriority := was.nextPriority + 1)
    }

    /** The precheck of `Modify` never fires: a book whose level pool is exhausted
        has a single order on every level. */
    lemma NeverOutOfLevels(l: nat)
      requires Valid() && l < orders.Length
      ensures directory.freeLevel == NPOS ==> directory.levels[l].orderCount == 1
    {
      hide Snapshot.Ok, Probes, HeapOk, Directory, FreeList;
      FreeHead(directory.freeLevels, directory.freeLevel, LevelLinks(directory.levels[..]),
        LevelLives(directory.levels[..]));
      if directory.freeLevel == NPOS {
        LevelsExhausted(Now(), l);
      }
    }

    lemma OneLevelHere(o: nat)
      requires Valid() && o < orders.Length && orders[o].active
      ensures OneLevel(orders[..], o)
    {
      hide Snapshot.Ok, Probes, HeapOk, FreeList, Directory;
      KeysOnce(Now(), directory.lookup.Contents(), directory.bids.members, directory.asks.members, o);
    }

    /** Moves an order to another price, behind the orders that wait there. */
    method Move(o: nat, event: MarketDataEvent) returns (r: ProcessResult)
      requires Valid() && event.quantity > 0
      requires Holds(event.orderId, o) && o < orders.Length
      requires orders[o].side != event.side || orders[o].price != event.priceTicks
      modifies Parts()
      ensures MoveOutcome(old(RefusesLevel(event.side, event.priceTicks)), old(State()), old(orders[..]), event, r)
      ensures directory.lookup.used == if r == Applied
        then old(directory.lookup.used) + {(event.side, event.priceTicks)}
        else old(directory.lookup.used)
    {
      hide Snapshot.Ok, Probes, HeapOk, Directory, FreeList, BookOf, OrderAt, UsedLevel, HasEmpty, OnlyLinks,
           RefusesLevel, LeftBehind, MoveOutcome, OneLevel, LevelDirectory.Valid, ProbeTable.Contents;
      ghost var was := Now();
      OkBook(was);
      HeldOrder(event.orderId, o);
      OneLevelHere(o);
      ghost var st, refused := State(), RefusesLevel(event.side, event.priceTicks);
      Uproot(o, event);
      r := Replant(o, event, was, st, refused);
    }

    /** Puts an uprooted order into its new level, or leaves it stranded. */
    method Replant(o: nat, event: MarketDataEvent, ghost was: Snapshot, ghost st: Reference.State,
                   ghost refused: bool) returns (r: ProcessResult)
      requires Inv(o, -1, -1) && o < orders.Length && orders[o].active && orders[o].id == event.orderId
        && event.quantity > 0
      requires event.orderId in lookup.Contents() && lookup.Contents()[event.orderId] == o
      requires OutOfLine(o)
      requires was.Ok(-1, -1, -1) && |was.orders| == orders.Length && OnlyLinks(was.orders, orders[..])
        && lookup.Contents() == was.index
      requires forall id :: id in was.index ==> was.index[id] < |was.orders|
      requires st == Reference.State(was.Book(), nextPriority, fillSequence)
      requires refused <==> !directory.lookup.AnyEmpty() && !UsedLevel(Now(), o, event.side, event.priceTicks)
      requires OneLevel(was.orders, o)
      modifies Parts()
      ensures MoveOutcome(refused, st, was.orders, event, r)
      ensures directory.lookup.used == if r == Applied
        then old(directory.lookup.used) + {(event.side, event.priceTicks)}
        else old(directory.lookup.used)
    {
      hide Snapshot.Ok, Probes, HeapOk, Directory, FreeList, BookOf, UsedLevel, HasEmpty, OnlyLinks, LeftBehind,
           OrderBook.State;
      var l := AcquireLevel(event.side, event.priceTicks, o);
      if l == NPOS {
        StrandedNow(o, event.orderId, was, st);
        r := CapacityExhausted;
      } else {
        Relink(o, l, event, was);
        r := Applied;
      }
    }

    lemma StrandedNow(o: nat, id: OrderId, was: Snapshot, st: Reference.State)
      requires Inv(o, -1, -1) && id in lookup.Contents() && lookup.Contents()[id] == o
      requires OutOfLine(o) && orders[o].active && orders[o].id == id
      requires was.Ok(-1, -1, -1) && |was.orders| == orders.Length && OnlyLinks(was.orders, orders[..])
        && lookup.Contents() == was.index
      requires forall id :: id in was.index ==> was.index[id] < |was.orders|
      requires st.orders == was.Book() && OneLevel(was.orders, o)
      ensures LeftBehind(id, st.orders, was.orders) && !Valid()
    {
      hide Snapshot.Ok, Probes, HeapOk, Directory, FreeList, OnlyLinks, OneLevel, OrderAt;
      NotWhole(Now(), o);
      OnlyLinksAt(was.orders, orders[..], o);
      LeftLevelLive(was, Now(), o);
    }

    /** Takes an order that moves out of its queue, before its new price is known to be available. */
    method Uproot(o: nat, event: MarketDataEvent)
      requires Valid()
      requires Holds(event.orderId, o) && o < orders.Length
      requires orders[o].side != event.side || orders[o].price != event.priceTicks
      requires forall k :: k in lookup.Contents() ==> lookup.Contents()[k] < orders.Length
      modifies this`queues, orders, directory.Footprint()
      ensures Inv(o, -1, -1) && OnlyLinks(old(orders[..]), orders[..]) && OutOfLine(o)
      ensures old(RefusesLevel(event.side, event.priceTicks)) <==>
        !directory.lookup.AnyEmpty() && !UsedLevel(Now(), o, event.side, event.priceTicks)
      ensures orders[o].active && orders[o].id == event.orderId
      ensures directory.lookup.used == old(directory.lookup.used)
    {
      hide Snapshot.Ok, Probes, HeapOk, Directory, FreeList, BookOf, OrderAt, UsedLevel, HasEmpty, OnlyLinks,
           Without, Shrunk, LevelDirectory.Valid, ProbeTable.Contents;
      ghost var was := Now();
      ghost var at := OrderPlace(was, event.orderId);
      UsedOrderAt(was, o, event.side, event.priceTicks);
      Unlink(o, at);
      UsedAfterLinks(was, Now(), o, event.side, event.priceTicks);
      OnlyLinksAt(was.orders, orders[..], o);
    }

    /** Rewrites an unlinked order and links it behind the orders of its new level. */
    method Relink(o: nat, l: nat, event: MarketDataEvent, ghost was: Snapshot)
      requires Inv(o, l, -1) && o < orders.Length && orders[o].active && l < orders.Length && event.quantity > 0
      requires directory.levels[l].side == event.side && directory.levels[l].price == event.priceTicks
      requires was.Ok(-1, -1, -1) && |was.orders| == orders.Length && OnlyLinks(was.orders, orders[..])
        && lookup.Contents() == was.index
      requires event.orderId == orders[o].id
      requires forall id :: id in was.index ==> was.index[id] < |was.orders|
      modifies orders, directory.levels, this`nextPriority, this`queues
      ensures Valid()
      ensures State() == Reference.State(
        was.Book()[event.orderId := RefOrder(event.side, event.priceTicks, event.quantity, old(nextPriority))],
        old(nextPriority) + 1, old(fillSequence))
    {
      hide Snapshot.Ok, Probes, HeapOk, Directory, FreeList, BookOf, OnlyLinks, Newest, LevelDirectory.Valid,
           ProbeTable.Contents;
      ghost var unlinked := Now();
      OnlyLinksAt(was.orders, orders[..], o);
      Rewrite(o, l, event);
      ghost var order := orders[o];
      LinkTail(o, l, -1);
      MovedBook(was, unlinked, o, order, Now());
      OkBook(Now());
    }

    method Rewrite(o: nat, l: nat, event: MarketDataEvent)
      requires Inv(o, l, -1) && o < orders.Length && orders[o].active && l < orders.Length && event.quantity > 0
      modifies orders, this`nextPriority
      ensures Inv(o, l, -1) && Newest(orders[..], o)
      ensures orders[o] == old(orders[o]).(side := event.side, price := event.priceTicks, quantity := event.quantity,
                                           priority := old(nextPriority), level := l)
      ensures Now() == Remade(old(Now()), o, orders[o])
    {
      hide Snapshot.Ok, Probes, HeapOk, Directory, FreeList, Newest;
      ghost var order := orders[o].(side := event.side, price := event.priceTicks, quantity := event.quantity,
                                    priority := nextPriority, level := l);
      RemakeOk(Now(), o, l, order);
      orders[o] := orders[o].(side := event.side, price := event.priceTicks, quantity := event.quantity,
                              priority := nextPriority, level := l);
      nextPriority := nextPriority + 1;
    }

    /** Replaces an order by a new one on the same side. When the new price is
        refused, the old order is gone and nothing takes its place. */
    method ReplaceOrder(event: MarketDataEvent) returns (r: ProcessResult)
      requires Valid()
      modifies Parts()
      ensures Valid()
      ensures
        var (expected, after) := Reference.Swap(old(State()), event);
        if expected == Applied && old(RefusesReplacement(event))
        then r == CapacityExhausted && State() == old(State()).(orders := old(State()).orders - {event.orderId})
        else r == expected && State() == after
      ensures directory.lookup.used == if r == Applied
        then old(directory.lookup.used) + {(old(State()).orders[event.orderId].side, event.priceTicks)}
          else old(directory.lookup.used)
    {
      hide Snapshot.Ok, Probes, HeapOk, Directory, FreeList, BookOf, OrderAt, HasEmpty, Holds, OrderBook.Valid,
           OrderBook.State;
      var o := FindOrderIndex(event.orderId);
      var other := FindOrderIndex(event.newOrderId);
      if event.quantity == 0 {
        r := InvalidQuantity;
      } else if o == NPOS {
        r := OrderNotFound;
      } else if event.newOrderId != event.orderId && other != NPOS {
        r := DuplicateOrderId;
      } else {
        HeldOrder(event.orderId, o);
        var side := orders[o].side;
        r := SwapOut(side, event);
      }
    }

    ghost predicate RefusesReplacement(event: MarketDataEvent)
      requires Valid()
      reads Parts()
    {
      && !directory.lookup.AnyEmpty()
      && event.orderId in State().orders
      && !OrderAt(State().orders - {event.orderId}, State().orders[event.orderId].side, event.priceTicks)
    }

    method SwapOut(side: Side, event: MarketDataEvent) returns (r: ProcessResult)
      requires Valid() && event.quantity > 0 && event.orderId in State().orders
      requires side == State().orders[event.orderId].side
      requires event.newOrderId == event.orderId || event.newOrderId !in State().orders
      modifies Parts()
      ensures Valid()
      ensures
        var kept := old(State()).orders - {event.orderId};
        if !old(directory.lookup.AnyEmpty()) && !OrderAt(kept, side, event.priceTicks)
        then r == CapacityExhausted && State() == old(State()).(orders := kept)
        else r == Applied && State() == Reference.Swap(old(State()), event).1
      ensures directory.lookup.used == if r == Applied
        then old(directory.lookup.used) + {(side, event.priceTicks)}
        else old(directory.lookup.used)
    {
      hide Snapshot.Ok, Probes, HeapOk, Directory, FreeList, BookOf, OrderAt, HasEmpty, OrderBook.Valid,
           OrderBook.State, Reference.Rest;
      Counts();
      OneFewer(State().orders, event.orderId);
      var _ := Cancel(event.orderId);
      Reference.RestCases(orders.Length, State(), event.newOrderId, side, event.priceTicks, event.quantity);
      r := RestOrder(event.newOrderId, side, event.priceTicks, event.quantity);
    }

    method Add(event: MarketDataEvent) returns (r: ProcessResult)
      requires Valid()
      modifies Parts()
      ensures Valid()
      ensures
        var (expected, after) := Reference.Rest(orders.Length, old(State()), event.orderId, event.side,
          event.priceTicks, event.quantity);
        if expected == Applied && old(RefusesLevel(event.side, event.priceTicks))
        then r == CapacityExhausted && State() == old(State())
        else r == expected && State() == after
      ensures directory.lookup.used == if r == Applied
        then old(directory.lookup.used) + {(event.side, event.priceTicks)}
        else old(directory.lookup.used)
    {
      r := RestOrder(event.orderId, event.side, event.priceTicks, event.quantity);
    }

    /** Applies an event as the reference book does, unless the event needs a level
        that the level index refuses. Then, although the reference applies it, the
        result is CapacityExhausted: an added order is not taken, a replaced one is
        lost, and a modified one is stranded outside every queue. */
    method ProcessEvent(event: MarketDataEvent) returns (r: ProcessResult)
      requires Valid()
      modifies Parts()
      ensures !old(Refuses(event)) ==> Valid() && (r, State()) == Reference.Process(orders.Length, old(State()), event)
      ensures old(Refuses(event)) ==>
        && r == CapacityExhausted
        && match event.kind
           case Add => Valid() && State() == old(State())
           case Replace => Valid() && State() == old(State()).(orders := old(State()).orders - {event.orderId})
           case _ => LeftBehind(event.orderId, old(State()).orders, old(orders[..])) && !Valid()
      ensures directory.lookup.used == old(directory.lookup.used) +
        if r == Applied && RestingPrice(old(State()), event).Some? then {RestingPrice(old(State()), event).value}
        else {}
    {
      hide Snapshot.Ok, Probes, HeapOk, Directory, FreeList, BookOf, HasEmpty, OrderAt, LeftBehind, OrderBook.Valid,
           OrderBook.State;
      match event.kind {
        case Add =>
          NotThere(State().orders, event.orderId);
          r := Add(event);
        case Modify =>
          NotAtTarget(State().orders, event);
          r := Modify(event);
        case Cancel =>
          NotThere(State().orders, event.orderId);
          r := Cancel(event.orderId);
        case Trade =>
          r := Trade(event.orderId, event.quantity);
        case Reduce =>
          r := Trade(event.orderId, event.quantity);
        case Replace =>
          r := ReplaceOrder(event);
      }
    }

    // ---------- match mode ----------

    /** The best live level of a side, as a full scan would find it. */
    method LadderTop(side: Side) returns (l: nat)
      requires Valid()
      ensures l == NPOS ==> forall m :: 0 <= m < orders.Length && directory.levels[m].active ==>
        directory.levels[m].side != side
      ensures l != NPOS ==>
        && l < orders.Length && directory.levels[l].active && directory.levels[l].side == side
        && forall m :: 0 <= m < orders.Length && directory.levels[m].active && directory.levels[m].side == side ==>
             !BetterPrice(side, directory.levels[m].price, directory.levels[l].price)
    {
      hide Snapshot.Ok, Probes, HeapOk, FreeList, Blank;
      if side == Buy {
        l := directory.bids.Top();
      } else {
        l := directory.asks.Top();
      }
    }

    /** One trade against the oldest order of the best level. */
    method HitMaker(req: OrderRequest, l: nat, o: nat, remaining: Quantity) returns (fill: Fill, next: nat)
      requires Valid() && remaining > 0
      requires BestLevel(directory.levels[..], req, l) && directory.levels[l].head == o
      modifies Parts()
      ensures Valid()
      ensures Reference.IsBest(old(State()).orders, req, fill.makerId)
      ensures
        var maker := old(State()).orders[fill.makerId];
        var traded := Reference.Smaller(remaining, maker.quantity);
        && fill == Fill(req.id, fill.makerId, req.side, maker.price, traded, old(fillSequence))
        && State() == old(State()).(orders := Reference.Hit(old(State()).orders, fill.makerId, traded),
                                    fillSequence := old(fillSequence) + 1)
      ensures directory.lookup.AnyEmpty() == old(directory.lookup.AnyEmpty())
        && directory.lookup.used == old(directory.lookup.used)
      ensures next != NPOS && fill.quantity < remaining ==>
        BestLevel(directory.levels[..], req, l) && directory.levels[l].head == next
      ensures 0 < fill.quantity <= remaining
    {
      hide Snapshot.Ok, Probes, HeapOk, FreeList, Directory, BookOf, HasEmpty, BestLevel, Reference.IsBest;
      ghost var was := Now();
      HeadIsBest(was, directory.lookup.Contents(), directory.bids.members, directory.asks.members, req, l);
      LevelIsLive(was, req, l);
      QueueHead(was, l);
      ShownInBook(was, orders[o].id);
      var maker := orders[o];
      var traded := Reference.Smaller(remaining, maker.quantity);
      var sequence := NextFillSequence();
      fill := Fill(req.id, maker.id, req.side, directory.levels[l].price, traded, sequence);
      next := maker.next;
      TradeHead(req, l, o, traded);
    }

    /** Takes `traded` from the oldest order of the best level. */
    method TradeHead(req: OrderRequest, l: nat, o: nat, traded: Quantity)
      requires Valid() && BestLevel(directory.levels[..], req, l) && directory.levels[l].head == o < orders.Length
      requires orders[o].active && orders[o].id in State().orders && State().orders[orders[o].id] == Shown(orders[o])
      requires 0 < traded <= orders[o].quantity
      modifies Parts()
      ensures Valid()
      ensures State() == old(State()).(orders := Reference.Hit(old(State()).orders, old(orders[o]).id, traded))
      ensures directory.lookup.AnyEmpty() == old(directory.lookup.AnyEmpty())
        && directory.lookup.used == old(directory.lookup.used)
      ensures old(orders[o]).next != NPOS && traded == old(orders[o]).quantity ==>
        BestLevel(directory.levels[..], req, l) && directory.levels[l].head == old(orders[o]).next
    {
      hide Snapshot.Ok, Probes, HeapOk, FreeList, Directory, BookOf, HasEmpty, BestLevel;
      if traded == orders[o].quantity {
        ghost var was := State();
        assert Reference.Hit(was.orders, orders[o].id, traded) == was.orders - {orders[o].id};
        ConsumeHead(req, l, o);
      } else {
        ghost var was := State();
        assert Reference.Hit(was.orders, orders[o].id, traded)
          == was.orders[orders[o].id := was.orders[orders[o].id].(quantity := orders[o].quantity - traded)];
        ShrinkHead(o, orders[o].quantity - traded);
      }
    }

    method NextFillSequence() returns (n: nat)
      requires Valid()
      modifies this`fillSequence
      ensures Valid() && State() == old(State()).(fillSequence := old(fillSequence) + 1)
      ensures n == old(fillSequence) && Now() == old(Now())
    {
      hide Snapshot.Ok, Probes, HeapOk, FreeList, Directory, BookOf;
      n := fillSequence;
      fillSequence := fillSequence + 1;
    }

    /** A maker that is filled completely leaves the book, and its level with it
        when it was the last one there. */
    method ConsumeHead(req: OrderRequest, l: nat, o: nat)
      requires Valid() && BestLevel(directory.levels[..], req, l) && directory.levels[l].head == o < orders.Length
      modifies Parts()
      ensures Valid()
      ensures State() == old(State()).(orders := old(State()).orders - {old(orders[o]).id})
      ensures directory.lookup.AnyEmpty() == old(directory.lookup.AnyEmpty())
        && directory.lookup.used == old(directory.lookup.used)
      ensures old(orders[o]).next != NPOS ==>
        BestLevel(directory.levels[..], req, l) && directory.levels[l].head == old(orders[o]).next
    {
      hide Snapshot.Ok, Probes, HeapOk, FreeList, Directory, BookOf, HasEmpty, BestLevel, Shrunk;
      ghost var was := Now();
      LevelIsLive(was, req, l);
      QueueHead(was, l);
      Remove(o, 0);
      HeadGone(was, Now(), req, l);
    }

    /** A maker that is filled in part keeps its place. */
    method ShrinkHead(o: nat, quantity: Quantity)
      requires Valid() && o < orders.Length && orders[o].active && quantity > 0
      modifies orders, directory.levels
      ensures Valid()
      ensures State() == old(State()).(
        orders := old(State()).orders[old(orders[o]).id := Shown(old(orders[o])).(quantity := quantity)])
    {
      Resize(o, quantity);
    }

    /** The matching of a request is under way: what is left of it, against the
        book as it is, completes `whole`. */
    ghost predicate Matches(whole: Reference.Matched, req: OrderRequest, fills: seq<Fill>, remaining: Quantity)
      reads Parts()
    {
      Valid() && Reference.UnderWay(whole, fills, Reference.Match(State().orders, req, remaining, fillSequence))
    }

    method TakeMaker(req: OrderRequest, l: nat, o: nat, fillsWas: seq<Fill>, remainingWas: Quantity,
                     ghost whole: Reference.Matched)
      returns (fills: seq<Fill>, remaining: Quantity, next: nat)
      requires remainingWas > 0 && Matches(whole, req, fillsWas, remainingWas)
      requires BestLevel(directory.levels[..], req, l) && directory.levels[l].head == o
      modifies Parts()
      ensures Matches(whole, req, fills, remaining) && remaining < remainingWas
      ensures next != NPOS && remaining > 0 ==>
        BestLevel(directory.levels[..], req, l) && directory.levels[l].head == next
      ensures nextPriority == old(nextPriority) && fillSequence - |fills| == old(fillSequence) - |fillsWas|
      ensures directory.lookup.AnyEmpty() == old(directory.lookup.AnyEmpty())
        && directory.lookup.used == old(directory.lookup.used)
    {
      hide Snapshot.Ok, Probes, HeapOk, FreeList, Directory, BookOf, HasEmpty, BestLevel, Reference.UnderWay,
           Reference.IsBest, Reference.Match, Reference.Hit, Reference.Smaller;
      ghost var st := State();
      var fill;
      fill, next := HitMaker(req, l, o, remainingWas);
      Reference.UnderWayStep(whole, fillsWas, st.orders, req, remainingWas, st.fillSequence, fill.makerId);
      fills := fillsWas + [fill];
      remaining := remainingWas - fill.quantity;
    }

    /** The inner loop of the matching: the orders of one level, oldest first. */
    method TakeLevel(req: OrderRequest, l: nat, fillsWas: seq<Fill>, remainingWas: Quantity,
                     ghost whole: Reference.Matched)
      returns (fills: seq<Fill>, remaining: Quantity)
      requires Valid() && remainingWas > 0 && Matches(whole, req, fillsWas, remainingWas)
      requires BestLevel(directory.levels[..], req, l)
      modifies Parts()
      ensures Matches(whole, req, fills, remaining) && remaining < remainingWas
      ensures nextPriority == old(nextPriority) && fillSequence - |fills| == old(fillSequence) - |fillsWas|
      ensures directory.lookup.AnyEmpty() == old(directory.lookup.AnyEmpty())
        && directory.lookup.used == old(directory.lookup.used)
    {
      hide Snapshot.Ok, Probes, HeapOk, FreeList, Directory, BookOf, HasEmpty, BestLevel, Matches;
      fills, remaining := fillsWas, remainingWas;
      LevelHead(Now(), req, l);
      var o := directory.levels[l].head;
      while o != NPOS && remaining > 0
        invariant remaining <= remainingWas && (remaining == remainingWas ==> o != NPOS)
        invariant Matches(whole, req, fills, remaining)
        invariant o != NPOS && remaining > 0 ==>
          BestLevel(directory.levels[..], req, l) && directory.levels[l].head == o
        invariant nextPriority == old(nextPriority) && fillSequence - |fills| == old(fillSequence) - |fillsWas|
        invariant directory.lookup.AnyEmpty() == old(directory.lookup.AnyEmpty())
          && directory.lookup.used == old(directory.lookup.used)
        decreases remaining
      {
        fills, remaining, o := TakeMaker(req, l, o, fills, remaining, whole);
      }
    }

    /** The matching loop: the best level the request crosses, until none is left. */
    method MatchAll(req: OrderRequest) returns (fills: seq<Fill>, remaining: Quantity)
      requires Valid()
      modifies Parts()
      ensures Valid() && directory.lookup.AnyEmpty() == old(directory.lookup.AnyEmpty())
        && directory.lookup.used == old(directory.lookup.used)
      ensures
        var m := Reference.Match(old(State()).orders, req, req.quantity, old(fillSequence));
        && fills == m.fills && remaining == m.remaining
        && State() == Reference.State(m.orders, old(nextPriority), old(fillSequence) + |fills|)
    {
      hide Snapshot.Ok, Probes, HeapOk, FreeList, Directory, BookOf, HasEmpty, BestLevel, Reference.Match;
      ghost var whole := Reference.Match(State().orders, req, req.quantity, fillSequence);
      fills, remaining := [], req.quantity;
      var crossing := true;
      while remaining > 0 && crossing
        invariant Matches(whole, req, fills, remaining)
        invariant crossing || forall id :: !Reference.Candidate(State().orders, req, id)
        invariant nextPriority == old(nextPriority) && fillSequence - |fills| == old(fillSequence)
        invariant directory.lookup.AnyEmpty() == old(directory.lookup.AnyEmpty())
          && directory.lookup.used == old(directory.lookup.used)
        decreases remaining, crossing
      {
        var l := CrossingTop(req);
        if l == NPOS {
          crossing := false;
        } else {
          fills, remaining := TakeLevel(req, l, fills, remaining, whole);
        }
      }
      Reference.MatchStops(State().orders, req, remaining, fillSequence);
      assert fills + [] == fills;
    }

    /** The top opposite level if the request crosses it: the tests that end the
        matching loop. */
    method CrossingTop(req: OrderRequest) returns (l: nat)
      requires Valid()
      ensures Valid()
      ensures l == NPOS ==> forall id :: !Reference.Candidate(State().orders, req, id)
      ensures l != NPOS ==> BestLevel(directory.levels[..], req, l)
    {
      hide Snapshot.Ok, Probes, HeapOk, FreeList, Directory, BookOf, HasEmpty;
      l := LadderTop(Opposite(req.side));
      if l == NPOS || !Reference.Crosses(req, directory.levels[l].price) {
        NoCandidate(Now(), req);
        l := NPOS;
      }
    }

    /** The pre-scan of a fill-or-kill request, in whatever order the heap holds
        the levels: it counts all that the opposite side offers the request. */
    method FillableQuantity(req: OrderRequest) returns (available: Quantity)
      requires Valid()
      ensures Valid()
      ensures available == Reference.Fillable(State().orders, req)
    {
      hide Snapshot.Ok, Probes, HeapOk, FreeList, Directory, BookOf, HasEmpty;
      if req.side == Buy {
        available := ScanLadder(req, directory.asks);
      } else {
        available := ScanLadder(req, directory.bids);
      }
    }

    method ScanLadder(req: OrderRequest, ladder: Ladder) returns (available: Quantity)
      requires Valid() && ladder == if req.side == Buy then directory.asks else directory.bids
      ensures Valid()
      ensures available == Reference.Fillable(State().orders, req)
    {
      hide Snapshot.Ok, Probes, FreeList, BookOf, HasEmpty, Reference.Fillable, Blank, Ordered;
      OkBook(Now());
      HeapBounds(directory.levels[..], ladder.heap[..], ladder.size, ladder.members);
      available := ScanHeap(req, ladder);
    }

    /** Adds up the totals of the crossing levels, in heap order. */
    method ScanHeap(req: OrderRequest, ladder: Ladder) returns (available: Quantity)
      requires lookup.Valid() && ladder.size <= ladder.heap.Length
      requires Faces(Now(), req, ladder.heap[..], ladder.size, ladder.members)
      requires forall i :: 0 <= i < ladder.size ==> ladder.heap[i] < directory.levels.Length
      ensures Faces(Now(), req, ladder.heap[..], ladder.size, ladder.members)
      ensures available == Reference.Fillable(Now().Book(), req)
    {
      hide Faces, Counted, Sum, Reference.Offered, Reference.Fillable, Snapshot.Book, ProbeTable.Valid,
           ProbeTable.Contents;
      ghost var s := Now();
      FacesIndexed(s, req, ladder.heap[..], ladder.size, ladder.members);
      available := 0;
      ghost var counted: set<OrderId> := {};
      NoneCounted(s, req);
      var i := 0;
      while i < ladder.size
        invariant 0 <= i <= ladder.size
        invariant Counted(s, req, i, counted) && available == Sum(Reference.Offered(s.Book(), req, counted))
      {
        counted := ScanLevel(s, req, ladder.heap[..], ladder.size, ladder.members, i, counted);
        var level := directory.levels[ladder.heap[i]];
        if Reference.Crosses(req, level.price) {
          available := available + level.totalQuantity;
        }
        i := i + 1;
      }
      ScanComplete(s, req, ladder.heap[..], ladder.size, ladder.members, counted);
    }

    /** Matches a request as the reference matcher does: the same result, the same
        fills, the same book. The only exception is a remainder whose price the
        level index refuses: it is not rested, and the result says so. */
    method Submit(req: OrderRequest) returns (r: SubmitResult, fills: seq<Fill>)
      requires Valid()
      modifies Parts()
      ensures Valid()
      ensures SubmitOutcome(orders.Length, old(State()), req, r, fills, State(), old(directory.lookup.AnyEmpty()))
      ensures old(directory.lookup.used) <= directory.lookup.used
        <= old(directory.lookup.used) + {(req.side, req.priceTicks)}
      ensures req.kind == CancelOrder || !Reference.MayRest(req) ==> directory.lookup.used == old(directory.lookup.used)
    {
      hide Snapshot.Ok, Probes, HeapOk, FreeList, Directory, BookOf, HasEmpty, Reference.Fillable, SubmitOutcome,
           MatchOutcome, Holds, OrderBook.Valid, OrderBook.State;
      var existing := FindOrderIndex(req.id);
      fills := [];
      if req.kind == CancelOrder {
        CanceledOutcome(orders.Length, State(), req, directory.lookup.AnyEmpty());
        var canceled := Cancel(req.id);
        r := if canceled == Applied then Canceled else RejectedInvalid;
      } else if req.quantity == 0 {
        RejectedOutcome(orders.Length, State(), req, directory.lookup.AnyEmpty());
        r := RejectedInvalid;
      } else if Reference.MayRest(req) && existing != NPOS {
        RejectedOutcome(orders.Length, State(), req, directory.lookup.AnyEmpty());
        r := RejectedDuplicate;
      } else {
        r, fills := MatchUnlessKilled(req);
      }
    }

    /** The fill-or-kill check, and the matching behind it. */
    method MatchUnlessKilled(req: OrderRequest) returns (r: SubmitResult, fills: seq<Fill>)
      requires Valid() && req.kind == New && req.quantity > 0
      requires Reference.MayRest(req) ==> req.id !in State().orders
      modifies Parts()
      ensures Valid()
      ensures SubmitOutcome(orders.Length, old(State()), req, r, fills, State(), old(directory.lookup.AnyEmpty()))
      ensures old(directory.lookup.used) <= directory.lookup.used
        <= old(directory.lookup.used) + {(req.side, req.priceTicks)}
      ensures !Reference.MayRest(req) ==> directory.lookup.used == old(directory.lookup.used)
    {
      hide Snapshot.Ok, Probes, HeapOk, FreeList, Directory, BookOf, HasEmpty, Reference.Fillable, SubmitOutcome,
           MatchOutcome;
      ghost var st, anyEmpty := State(), directory.lookup.AnyEmpty();
      var available := 0;
      if req.tif == FOK {
        available := FillableQuantity(req);
      }
      if req.tif == FOK && available < req.quantity {
        RejectedOutcome(orders.Length, st, req, anyEmpty);
        r, fills := RejectedFOK, [];
      } else {
        r, fills := MatchAndRest(req);
        MatchedOutcome(orders.Length, st, req, r, fills, State(), anyEmpty);
      }
    }

    /** The part of `Submit` after its checks. */
    method MatchAndRest(req: OrderRequest) returns (r: SubmitResult, fills: seq<Fill>)
      requires Valid() && req.kind == New && req.quantity > 0
      requires Reference.MayRest(req) ==> req.id !in State().orders
      modifies Parts()
      ensures Valid()
      ensures MatchOutcome(orders.Length, old(State()), req, r, fills, State(), old(directory.lookup.AnyEmpty()))
      ensures old(directory.lookup.used) <= directory.lookup.used
        <= old(directory.lookup.used) + {(req.side, req.priceTicks)}
      ensures !Reference.MayRest(req) ==> directory.lookup.used == old(directory.lookup.used)
    {
      hide Snapshot.Ok, Probes, HeapOk, FreeList, Directory, BookOf, HasEmpty, Reference.Match, OrderAt;
      ghost var st := State();
      var remaining;
      fills, remaining := MatchAll(req);
      Reference.MatchKeys(st.orders, req, req.quantity, st.fillSequence);
      if remaining == 0 {
        r := FilledComplete;
      } else if Reference.MayRest(req) {
        var rested := RestOrder(req.id, req.side, req.priceTicks, remaining);
        r := if rested == CapacityExhausted then RejectedCapacity
             else if remaining == req.quantity then RestedNoFill else PartialFillRested;
      } else {
        r := if remaining == req.quantity then NoFillKilled else PartialFillKilled;
      }
    }

    // ---------- snapshots ----------

    method FindOrder(id: OrderId) returns (view: Option<OrderView>)
      requires Valid()
      ensures Valid()
      ensures view == if id in State().orders then Some(ViewOf(State().orders, id)) else None
      ensures view.Some? ==>
        var order := State().orders[id];
        view.value == OrderView(id, order.side, order.price, order.quantity, order.priority)
    {
      hide Snapshot.Ok, Probes, HeapOk, FreeList, Directory, BookOf, Holds, OrderBook.Valid, OrderBook.State;
      var o := FindOrderIndex(id);
      if o == NPOS {
        view := None;
      } else {
        HeldOrder(id, o);
        view := Some(OrderViewOf(orders[o]));
      }
    }

    /** The best level of a side, with the aggregation of its orders. */
    method BestOf(side: Side) returns (view: Option<LevelView>)
      requires Valid()
      ensures Valid()
      ensures view.None? ==> forall id :: id in State().orders ==> State().orders[id].side != side
      ensures view.Some? ==>
        && view.value == LevelOf(State().orders, side, view.value.priceTicks) && view.value.orderCount > 0
        && forall id :: id in State().orders && State().orders[id].side == side ==>
             !BetterPrice(side, State().orders[id].price, view.value.priceTicks)
      ensures ShowsBest(view, State().orders, side)
    {
      hide Snapshot.Ok, Probes, HeapOk, FreeList, Directory, BookOf, LevelOf, SumsUp;
      var l := LadderTop(side);
      SideOfLevels(Now());
      if l == NPOS {
        view := None;
      } else {
        LevelShows(Now(), directory.lookup.Contents(), directory.bids.members, directory.asks.members, l);
        view := Some(LevelViewOf(directory.levels[l]));
        BestShown(view.value, State().orders, side);
      }
    }

    method BestBid() returns (view: Option<LevelView>)
      requires Valid()
      ensures Valid()
      ensures ShowsBest(view, State().orders, Buy)
    {
      hide *;
      view := BestOf(Buy);
    }

    method BestAsk() returns (view: Option<LevelView>)
      requires Valid()
      ensures Valid()
      ensures ShowsBest(view, State().orders, Sell)
    {
      hide *;
      view := BestOf(Sell);
    }

    method Levels() returns (views: seq<LevelView>)
      requires Valid()
      ensures Valid()
      ensures Aggregates(views, State().orders) && LevelsByPrice(views, State().orders)
      ensures AllKnown(views, directory.lookup.Contents())
    {
      hide Snapshot.Ok, Probes, HeapOk, FreeList, Directory, BookOf, Collected, LevelsSorted, Aggregates, LevelsByPrice;
      ghost var s := Now();
      var found: seq<LevelView> := [];
      ghost var from: seq<nat> := [];
      NoneCollected(s.levels);
      var l := 0;
      while l < directory.levels.Length
        invariant 0 <= l <= directory.levels.Length && Collected(s.levels, l, found, from)
      {
        CollectedNext(s.levels, l, found, from);
        if directory.levels[l].active {
          found := found + [LevelViewOf(directory.levels[l])];
          from := from + [l];
        }
        l := l + 1;
      }
      CollectedKeys(s, directory.lookup.Contents(), directory.bids.members, directory.asks.members, found, from);
      views := SortLevels(found);
      CollectedAggregates(s, directory.lookup.Contents(), directory.bids.members, directory.asks.members, found, from,
        views);
      AggregatesByPrice(views, State().orders);
    }

    /** The orders of a level, oldest first. */
    method WalkLevel(l: nat) returns (listed: seq<OrderView>)
      requires Valid() && l < directory.levels.Length
      ensures l < |queues| && QueueListed(Now(), l, |queues[l]|, listed)
    {
      hide Snapshot.Ok, Probes, HeapOk, FreeList, Directory, BookOf;
      ghost var s := Now();
      QueueLinks(s, l);
      listed := [];
      var o := directory.levels[l].head;
      ghost var n := 0;
      while o != NPOS
        invariant 0 <= n <= |s.queues[l]| && QueueListed(s, l, n, listed)
        invariant o == if n < |s.queues[l]| then s.queues[l][n] else NPOS
        decreases |s.queues[l]| - n
      {
        assert LinkedAt(s, l, n);
        listed := listed + [OrderViewOf(orders[o])];
        o := orders[o].next;
        n := n + 1;
      }
    }

    method LevelOrderIds(side: Side, price: Price) returns (ids: seq<OrderId>)
      requires Valid()
      ensures Valid()
      ensures Queues(ids, State().orders, side, price)
    {
      hide Snapshot.Ok, Probes, HeapOk, FreeList, BookOf, QueueListed, Directory, Queues;
      ghost var s, index := Now(), directory.lookup.Contents();
      OkBook(s);
      var l := directory.Find(side, price);
      if l == NPOS {
        ids := [];
        NoOrdersAt(s, index, directory.bids.members, directory.asks.members, side, price);
      } else {
        FoundLevel(s.levels, index, directory.bids.members, directory.asks.members, side, price);
        var listed := WalkLevel(l);
        ids := seq(|listed|, i requires 0 <= i < |listed| => listed[i].id);
        LevelIdsListed(s, index, directory.bids.members, directory.asks.members, l, listed, ids);
      }
    }

    method AppendLevel(views: seq<LevelView>, n: nat, listedWas: seq<OrderView>) returns (listed: seq<OrderView>)
      requires Valid() && n < |views| && LevelsSorted(views)
        && (views[n].side, views[n].priceTicks) in directory.lookup.Contents()
      requires forall id :: id in lookup.Contents() ==> lookup.Contents()[id] < orders.Length
      requires Walked(Now(), directory.lookup.Contents(), views, n, listedWas)
      ensures Walked(Now(), directory.lookup.Contents(), views, n + 1, listed)
    {
      hide Snapshot.Ok, Probes, HeapOk, FreeList, Directory, BookOf, QueueListed, Walked, LevelsSorted;
      ghost var s, index := Now(), directory.lookup.Contents();
      var l := directory.Find(views[n].side, views[n].priceTicks);
      FoundLevel(s.levels, index, directory.bids.members, directory.asks.members, views[n].side, views[n].priceTicks);
      var queue := WalkLevel(l);
      WalkedNext(s, index, directory.bids.members, directory.asks.members, views, n, listedWas, l, queue);
      listed := listedWas + queue;
    }

    method OrdersInPriority() returns (listed: seq<OrderView>)
      requires Valid()
      ensures Valid()
      ensures Lists(listed, State().orders) && OrdersByPriority(listed, State().orders)
    {
      hide Snapshot.Ok, Probes, HeapOk, FreeList, Directory, BookOf, Lists, LevelsSorted, LevelsByPrice,
           OrdersByPriority;
      var views := Levels();
      assert State() == old(State());
      listed := WalkLevels(views, State().orders);
      ListsByPriority(listed, State().orders);
    }

    /** Lists the orders level by level. */
    method WalkLevels(views: seq<LevelView>, ghost all: Reference.Orders) returns (listed: seq<OrderView>)
      requires Valid() && AllKnown(views, directory.lookup.Contents()) && all == State().orders
        && Aggregates(views, all)
      ensures Lists(listed, all)
    {
      hide Snapshot.Ok, Probes, HeapOk, FreeList, Directory, BookOf, Walked, Lists, LevelsSorted;
      ghost var s := Now();
      OkBook(s);
      listed := [];
      NoneWalked(s, directory.lookup.Contents(), views);
      var n := 0;
      while n < |views|
        invariant 0 <= n <= |views| && Walked(s, directory.lookup.Contents(), views, n, listed)
      {
        listed := AppendLevel(views, n, listed);
        n := n + 1;
      }
      WalkedAll(s, directory.lookup.Contents(), views, listed);
    }
  }

  lemma LevelIsLive(s: Snapshot, req: OrderRequest, l: nat)
    requires BestLevel(s.levels, req, l)
    ensures l < |s.levels| && s.levels[l].active && s.levels[l].side == Opposite(req.side)
    ensures Reference.Crosses(req, s.levels[l].price)
  {
  }

  lemma LevelHead(s: Snapshot, req: OrderRequest, l: nat)
    requires s.Ok(-1, -1, -1) && BestLevel(s.levels, req, l)
    ensures l < |s.levels| && s.levels[l].head < |s.orders| <= NPOS
  {
    LevelIsLive(s, req, l);
    QueueHead(s, l);
    hide AllListed, Covered, Loose, Indexed, FreeList, Sound, Populated;
  }

  /** After its head is gone, a level that still has orders stays the best. */
  lemma HeadGone(s: Snapshot, t: Snapshot, req: OrderRequest, l: nat)
    requires s.Ok(-1, -1, -1) && t.Ok(-1, -1, -1) && BestLevel(s.levels, req, l) && Shrunk(s.levels, t.levels)
    requires l < |s.queues| && |s.queues[l]| > 0 && t.queues == s.queues[l := Without(s.queues[l], 0)]
    ensures |s.queues[l]| > 1 ==> BestLevel(t.levels, req, l) && t.levels[l].head == s.queues[l][1]
  {
    hide Snapshot.Ok;
    if |s.queues[l]| > 1 {
      StillLive(t, l);
      QueueHead(t, l);
      BestLevelStays(s.levels, t.levels, req, l);
    }
  }

  lemma StillLive(t: Snapshot, l: nat)
    requires t.Ok(-1, -1, -1) && l < |t.queues| && t.queues[l] != []
    ensures l < |t.levels| && t.levels[l].active
  {
    hide AllListed, Covered, Loose, Indexed, FreeList, Sound;
  }

  lemma NotThere(orders: Reference.Orders, id: OrderId)
    ensures id !in orders ==> orders - {id} == orders
  {
  }

  lemma NotAtTarget(orders: Reference.Orders, event: MarketDataEvent)
    ensures
      event.orderId in orders
        && (orders[event.orderId].side != event.side || orders[event.orderId].price != event.priceTicks) ==>
        (OrderAt(orders - {event.orderId}, event.side, event.priceTicks) <==>
          OrderAt(orders, event.side, event.priceTicks))
  {
    if id :|
      && id in orders && id != event.orderId
      && orders[id].side == event.side && orders[id].price == event.priceTicks {
      assert id in orders - {event.orderId} && (orders - {event.orderId})[id].side == event.side;
    }
  }

  predicate Moves(st: Reference.State, event: MarketDataEvent) {
    && event.orderId in st.orders
    && (st.orders[event.orderId].side != event.side || st.orders[event.orderId].price != event.priceTicks)
  }

  /** Where an event rests an order, if it does. */
  function RestingPrice(st: Reference.State, event: MarketDataEvent): Option<LevelKey> {
    match event.kind
    case Add => Some((event.side, event.priceTicks))
    case Modify =>
      if Moves(st, event) then Some((event.side, event.priceTicks)) else None
    case Replace =>
      if event.orderId in st.orders then Some((st.orders[event.orderId].side, event.priceTicks)) else None
    case Cancel => None
    case Trade => None
    case Reduce => None
  }
}
