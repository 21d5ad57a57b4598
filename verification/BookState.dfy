/** The contents of a book's pools, queues and order index at one moment, and
    the invariant that ties them together. Each step of an operation is one
    lemma about these values. */
module BookStates {
  import opened MarketTypes
  import opened Ladders
  import opened Fifos
  import opened FreeLists
  import opened LevelDirectories
  import opened Sums
  import Reference

  ghost function OrderLinks(orders: seq<Order>): (r: seq<nat>)
    ensures |r| == |orders| && forall i :: 0 <= i < |r| ==> r[i] == orders[i].nextFree
  {
    seq(|orders|, i requires 0 <= i < |orders| => orders[i].nextFree)
  }

  ghost function OrderLives(orders: seq<Order>): (r: seq<bool>)
    ensures |r| == |orders| && forall i :: 0 <= i < |r| ==> r[i] == orders[i].active
  {
    seq(|orders|, i requires 0 <= i < |orders| => orders[i].active)
  }

  /** Every live order but `loose` waits in the queue of its level. */
  ghost predicate Covered(orders: seq<Order>, queues: seq<seq<nat>>, loose: int) {
    forall o :: 0 <= o < |orders| && orders[o].active && o != loose ==>
      orders[o].level < |queues| && o in queues[orders[o].level]
  }

  /** `loose`, unless negative, is a live order that waits in no queue. */
  ghost predicate Loose(orders: seq<Order>, queues: seq<seq<nat>>, loose: int) {
    loose >= 0 ==>
      && loose < |orders| && orders[loose].active
      && forall l :: 0 <= l < |queues| ==> loose !in queues[l]
  }

  /** A level is live exactly when an order waits in it, except perhaps `pending`. */
  ghost predicate Populated(levels: seq<Level>, queues: seq<seq<nat>>, pending: int) {
    && |levels| == |queues|
    && (forall l :: 0 <= l < |levels| && l != pending ==> (levels[l].active <==> queues[l] != []))
    && (0 <= pending < |levels| ==> levels[pending].active)
  }

  /** The index maps exactly the live orders' ids to them, except for `unindexed`. */
  ghost predicate Indexed(orders: seq<Order>, index: map<OrderId, nat>, unindexed: int) {
    && (forall id :: id in index ==>
          index[id] < |orders| && orders[index[id]].active && orders[index[id]].id == id && index[id] != unindexed)
    && (forall o :: 0 <= o < |orders| && orders[o].active && o != unindexed ==>
          orders[o].id in index && index[orders[o].id] == o)
  }

  ghost predicate Sound(orders: seq<Order>, nextPriority: nat) {
    forall o :: 0 <= o < |orders| && orders[o].active ==> orders[o].quantity > 0 && orders[o].priority < nextPriority
  }

  datatype Snapshot = Snapshot(
    orders: seq<Order>,
    levels: seq<Level>,
    queues: seq<seq<nat>>,
    index: map<OrderId, nat>,
    freeOrders: seq<nat>,
    freeOrder: nat,
    activeOrders: nat,
    nextPriority: nat)
  {
    /** The invariant between the steps of an operation: `loose` is a live order
        outside every queue, `pending` a live level whose queue may be empty,
        `unindexed` a live order the index does not know yet; each is negative
        when there is none. */
    ghost predicate Ok(loose: int, pending: int, unindexed: int) {
      && 0 < |orders| == |levels| <= NPOS
      && AllListed(orders, levels, queues)
      && Covered(orders, queues, loose)
      && Loose(orders, queues, loose)
      && Populated(levels, queues, pending)
      && Indexed(orders, index, unindexed)
      && FreeList(freeOrders, freeOrder, OrderLinks(orders), OrderLives(orders))
      && Sound(orders, nextPriority)
      && activeOrders == |index|
      && Waiting(queues) + (if loose >= 0 then 1 else 0) + |freeOrders| == |orders|
      && |index| + (if unindexed >= 0 then 1 else 0) + |freeOrders| == |orders|
    }

    /** The abstract book: what is indexed, by id. */
    ghost function Book(): (b: Reference.Orders)
      requires forall id :: id in index ==> index[id] < |orders|
      ensures b.Keys == index.Keys
    {
      BookOf(orders, index)
    }
  }

  function Shown(order: Order): RefOrder {
    RefOrder(order.side, order.price, order.quantity, order.priority)
  }

  ghost function BookOf(orders: seq<Order>, index: map<OrderId, nat>): (b: Reference.Orders)
    requires forall id :: id in index ==> index[id] < |orders|
    ensures b.Keys == index.Keys
  {
    map id | id in index :: Shown(orders[index[id]])
  }

  lemma OkBook(s: Snapshot)
    requires s.Ok(-1, -1, -1)
    ensures forall id :: id in s.index ==> s.index[id] < |s.orders| <= NPOS
    ensures |s.Book()| == |s.index|
  {
    hide AllListed, Covered, Loose, Populated, FreeList, Sound;
    assert |s.Book().Keys| == |s.Book()|;
    assert |s.index.Keys| == |s.index|;
  }

  /** Relinking orders changes nothing the index, the free list or the book can see. */
  lemma LinksUnseen(was: seq<Order>, now: seq<Order>, index: map<OrderId, nat>, unindexed: int, nextPriority: nat)
    requires OnlyLinks(was, now)
    requires Indexed(was, index, unindexed) && Sound(was, nextPriority)
    ensures Indexed(now, index, unindexed) && Sound(now, nextPriority)
    ensures OrderLinks(now) == OrderLinks(was) && OrderLives(now) == OrderLives(was)
    ensures forall id :: id in index ==> Shown(now[index[id]]) == Shown(was[index[id]])
  {
  }

  // ---------- taking an order out of its queue ----------

  ghost function Detached(s: Snapshot, l: nat, at: nat): Snapshot
    requires l < |s.queues| == |s.levels| && at < |s.queues[l]| && s.queues[l][at] < |s.orders|
    requires
      var order := s.orders[s.queues[l][at]];
      && (order.prev != NPOS ==> order.prev < |s.orders|)
      && (order.next != NPOS ==> order.next < |s.orders|)
      && s.levels[l].totalQuantity >= order.quantity && s.levels[l].orderCount > 0
  {
    var o := s.queues[l][at];
    s.(orders := DetachedOrders(s.orders, o),
       levels := s.levels[l := DetachedLevel(s.levels[l], s.orders[o])],
       queues := s.queues[l := Without(s.queues[l], at)])
  }

  lemma DetachedCover(orders: seq<Order>, queues: seq<seq<nat>>, now: seq<Order>, l: nat, at: nat)
    requires Covered(orders, queues, -1) && OnlyLinks(orders, now)
    requires l < |queues| && at < |queues[l]| && Ranked(orders, queues[l])
    requires forall m, i :: 0 <= m < |queues| && 0 <= i < |queues[m]| ==>
      queues[m][i] < |orders| && orders[queues[m][i]].level == m
    requires orders[queues[l][at]].active
    ensures Covered(now, queues[l := Without(queues[l], at)], queues[l][at])
    ensures Loose(now, queues[l := Without(queues[l], at)], queues[l][at])
  {
    var q, o, rest := queues[l], queues[l][at], Without(queues[l], at);
    forall x | 0 <= x < |now| && now[x].active && x != o && now[x].level == l
      ensures x in rest
    {
      var i :| 0 <= i < |q| && q[i] == x;
      assert rest[if i < at then i else i - 1] == x;
    }
    forall i | 0 <= i < |rest|
      ensures rest[i] != o
    {
      hide Without;
      RankedApart(orders, q, at, if i < at then i else i + 1);
    }
    hide Ranked, Without;
  }

  lemma DetachOk(s: Snapshot, l: nat, at: nat)
    requires s.Ok(-1, -1, -1) && l < |s.queues| && at < |s.queues[l]|
    ensures
      && s.queues[l][at] < |s.orders| && |s.queues| == |s.levels|
      && var order := s.orders[s.queues[l][at]];
      && order.level == l && order.active
      && (order.prev != NPOS ==> order.prev < |s.orders|)
      && (order.next != NPOS ==> order.next < |s.orders|)
      && s.levels[l].totalQuantity >= order.quantity && s.levels[l].orderCount > 0
      && s.levels[l].active
    ensures Detached(s, l, at).Ok(s.queues[l][at], l, -1)
    ensures OnlyLinks(s.orders, Detached(s, l, at).orders)
    ensures Detached(s, l, at).levels[l].orderCount == |s.queues[l]| - 1
  {
    hide AllListed, Covered, Loose, Populated, Indexed, FreeList, Sound, OnlyLinks, Without, DetachedOrders, Ranked;
    var q := s.queues[l];
    var o := q[at];
    QueueMembers(s.orders, s.levels, s.queues);
    DetachAll(s.orders, s.levels, s.queues, l, at);
    var now := DetachedOrders(s.orders, o);
    WaitingUpdated(s.queues, l, Without(q, at));
    DetachedCover(s.orders, s.queues, now, l, at);
    PopulatedChange(s.levels, s.queues, -1, l, DetachedLevel(s.levels[l], s.orders[o]), Without(q, at));
    LinksUnseen(s.orders, now, s.index, -1, s.nextPriority);
  }

  /** While level `l` is pending its queue and list fields may be anything. */
  lemma PopulatedChange(levels: seq<Level>, queues: seq<seq<nat>>, pending: int, l: nat, level: Level, q: seq<nat>)
    requires Populated(levels, queues, pending) && (pending < 0 || pending == l)
    requires l < |levels| && (queues[l] != [] || pending == l) && OnlyList(levels[l], level)
    ensures levels[l].active
    ensures Populated(levels[l := level], queues[l := q], l)
  {
  }

  lemma QueueMembers(orders: seq<Order>, levels: seq<Level>, queues: seq<seq<nat>>)
    requires AllListed(orders, levels, queues)
    ensures |queues| == |levels|
    ensures forall m, i :: 0 <= m < |queues| && 0 <= i < |queues[m]| ==>
      queues[m][i] < |orders| && orders[queues[m][i]].level == m && orders[queues[m][i]].active
    ensures forall m :: 0 <= m < |queues| ==> Ranked(orders, queues[m]) && levels[m].orderCount == |queues[m]|
  {
    forall m | 0 <= m < |queues|
      ensures Listed(orders, levels[m], queues[m], m)
    {
    }
    hide Ranked;
  }

  // ---------- putting an order at the end of its queue ----------

  ghost function Appended(s: Snapshot, l: nat, o: nat): Snapshot
    requires l < |s.queues| == |s.levels| && o < |s.orders|
    requires s.levels[l].tail != NPOS ==> s.levels[l].tail < |s.orders|
  {
    s.(orders := AppendedOrders(s.orders, s.levels[l].tail, o),
       levels := s.levels[l := AppendedLevel(s.levels[l], o, s.orders[o].quantity)],
       queues := s.queues[l := s.queues[l] + [o]])
  }

  ghost predicate Newest(orders: seq<Order>, o: nat) {
    && o < |orders|
    && forall x :: 0 <= x < |orders| && x != o && orders[x].active ==> orders[x].priority < orders[o].priority
  }

  lemma AppendedCover(orders: seq<Order>, queues: seq<seq<nat>>, now: seq<Order>, l: nat, o: nat)
    requires Covered(orders, queues, o) && OnlyLinks(orders, now)
    requires l < |queues| && o < |orders| && orders[o].level == l
    ensures Covered(now, queues[l := queues[l] + [o]], -1)
  {
    var q := queues[l] + [o];
    assert q[|q| - 1] == o;
  }

  lemma NewestInQueue(orders: seq<Order>, q: seq<nat>, o: nat)
    requires Newest(orders, o) && o !in q
    requires forall i :: 0 <= i < |q| ==> q[i] < |orders| && orders[q[i]].active
    ensures forall i :: 0 <= i < |q| ==> q[i] < |orders| && orders[q[i]].priority < orders[o].priority
  {
  }

  lemma AppendOk(s: Snapshot, l: nat, o: nat, unindexed: int)
    requires s.Ok(o, l, unindexed) && l < |s.levels| && o < |s.orders|
    requires s.orders[o].level == l && s.orders[o].side == s.levels[l].side && s.orders[o].price == s.levels[l].price
    requires Newest(s.orders, o)
    ensures |s.queues| == |s.levels| && (s.levels[l].tail != NPOS ==> s.levels[l].tail < |s.orders|)
    ensures Appended(s, l, o).Ok(-1, -1, unindexed)
    ensures OnlyLinks(s.orders, Appended(s, l, o).orders) && s.levels[l].active
  {
    hide AllListed, Covered, Loose, Populated, Indexed, FreeList, Sound, OnlyLinks, AppendedOrders, Ranked, Newest;
    QueueMembers(s.orders, s.levels, s.queues);
    LooseOutside(s.orders, s.queues, o, l);
    NewestInQueue(s.orders, s.queues[l], o);
    AppendAll(s.orders, s.levels, s.queues, l, o);
    var now := AppendedOrders(s.orders, s.levels[l].tail, o);
    AppendedCover(s.orders, s.queues, now, l, o);
    WaitingUpdated(s.queues, l, s.queues[l] + [o]);
    PopulatedChange(s.levels, s.queues, l, l, AppendedLevel(s.levels[l], o, s.orders[o].quantity), s.queues[l] + [o]);
    PendingFilled(Appended(s, l, o).levels, Appended(s, l, o).queues, l);
    LinksUnseen(s.orders, now, s.index, unindexed, s.nextPriority);
    NoneLoose(now, Appended(s, l, o).queues);
  }

  lemma LooseOutside(orders: seq<Order>, queues: seq<seq<nat>>, loose: nat, l: nat)
    requires Loose(orders, queues, loose) && l < |queues|
    ensures loose < |orders| && orders[loose].active && loose !in queues[l]
  {
  }

  lemma NoneLoose(orders: seq<Order>, queues: seq<seq<nat>>)
    ensures Loose(orders, queues, -1)
  {
  }

  lemma PendingFilled(levels: seq<Level>, queues: seq<seq<nat>>, l: nat)
    requires Populated(levels, queues, l) && l < |queues| && queues[l] != []
    ensures Populated(levels, queues, -1)
  {
  }

  // ---------- levels coming and going ----------

  lemma SettleOk(s: Snapshot, loose: int, l: nat, unindexed: int)
    requires s.Ok(loose, l, unindexed) && l < |s.queues| && s.queues[l] != []
    ensures s.Ok(loose, -1, unindexed)
  {
    hide AllListed, Covered, Loose, Populated, Indexed, FreeList, Sound;
    PendingFilled(s.levels, s.queues, l);
  }

  lemma CloseOk(s: Snapshot, loose: int, l: nat, unindexed: int, now: seq<Level>)
    requires s.Ok(loose, l, unindexed) && l < |s.queues| && s.queues[l] == []
    requires Closed(s.levels, now, l)
    ensures s.(levels := now).Ok(loose, -1, unindexed)
  {
    hide AllListed, Covered, Loose, Populated, Indexed, FreeList, Sound, Closed;
    ClosedLevels(s.levels, s.queues, l, now);
    hide SameQueue, SameFace;
    LevelsChanged(s.orders, s.levels, now, s.queues);
  }

  lemma ClosedLevels(levels: seq<Level>, queues: seq<seq<nat>>, l: nat, now: seq<Level>)
    requires Populated(levels, queues, l) && l < |queues| && queues[l] == [] && Closed(levels, now, l)
    ensures |now| == |levels| && Populated(now, queues, -1)
    ensures forall m :: 0 <= m < |now| ==>
      SameQueue(levels[m], now[m]) && (queues[m] != [] ==> SameFace(levels[m], now[m]))
  {
  }

  lemma OpenOk(s: Snapshot, loose: int, unindexed: int, now: seq<Level>, r: nat)
    requires s.Ok(loose, -1, unindexed) && Opened(s.levels, now, r)
    requires r == NPOS || (r < |now| && now[r].active)
    ensures s.(levels := now).Ok(loose, if r == NPOS then -1 else r, unindexed)
  {
    hide AllListed, Covered, Loose, Populated, Indexed, FreeList, Sound, Opened;
    OpenedLevels(s.levels, s.queues, r, now);
    hide SameQueue, SameFace;
    LevelsChanged(s.orders, s.levels, now, s.queues);
  }

  lemma OpenedLevels(levels: seq<Level>, queues: seq<seq<nat>>, r: nat, now: seq<Level>)
    requires Populated(levels, queues, -1) && Opened(levels, now, r) && |levels| <= NPOS
    requires r == NPOS || (r < |now| && now[r].active)
    ensures |now| == |levels| && Populated(now, queues, if r == NPOS then -1 else r)
    ensures forall m :: 0 <= m < |now| ==>
      SameQueue(levels[m], now[m]) && (queues[m] != [] ==> SameFace(levels[m], now[m]))
  {
  }

  // ---------- taking a slot, and giving it back ----------

  function NewOrder(id: OrderId, side: Side, price: Price, quantity: Quantity, priority: nat, level: nat): Order {
    Order(id, price, quantity, priority, level, NPOS, NPOS, NPOS, side, true)
  }

  ghost function Taken(s: Snapshot, order: Order): Snapshot
    requires s.freeOrder < |s.orders| && |s.freeOrders| > 0
  {
    s.(orders := s.orders[s.freeOrder := order],
       freeOrders := s.freeOrders[1..],
       freeOrder := s.orders[s.freeOrder].nextFree,
       nextPriority := s.nextPriority + 1)
  }

  lemma TakeOk(s: Snapshot, pending: int, order: Order)
    requires s.Ok(-1, pending, -1) && s.freeOrder != NPOS
    requires order.active && order.quantity > 0 && order.priority == s.nextPriority
    ensures s.freeOrder < |s.orders| && |s.freeOrders| > 0 && !s.orders[s.freeOrder].active
    ensures Taken(s, order).Ok(s.freeOrder, pending, s.freeOrder)
    ensures Newest(Taken(s, order).orders, s.freeOrder)
    ensures forall id :: id in s.index ==> s.index[id] < |s.orders| && s.index[id] != s.freeOrder
  {
    hide AllListed, Covered, Loose, Populated, Indexed, FreeList, Sound, Newest;
    var i := s.freeOrder;
    QueueMembers(s.orders, s.levels, s.queues);
    TakenFree(s.orders, s.freeOrders, i, order);
    TakenIndexed(s.orders, s.index, i, order, s.nextPriority);
    ReplacedLoose(s.orders, s.queues, i, order, -1);
    RecordChanged(s.orders, s.levels, s.queues, i, order);
  }

  lemma TakenFree(orders: seq<Order>, free: seq<nat>, i: nat, order: Order)
    requires FreeList(free, i, OrderLinks(orders), OrderLives(orders)) && |orders| <= NPOS && i != NPOS
    requires order.active
    ensures i < |orders| && |free| > 0 && !orders[i].active
    ensures FreeList(free[1..], orders[i].nextFree, OrderLinks(orders[i := order]), OrderLives(orders[i := order]))
  {
    Popped(free, i, OrderLinks(orders), OrderLives(orders), order.nextFree);
    hide FreeList;
    assert OrderLinks(orders[i := order]) == OrderLinks(orders)[i := order.nextFree];
    assert OrderLives(orders[i := order]) == OrderLives(orders)[i := true];
  }

  lemma TakenIndexed(orders: seq<Order>, index: map<OrderId, nat>, i: nat, order: Order, priority: nat)
    requires Indexed(orders, index, -1) && Sound(orders, priority) && i < |orders| && !orders[i].active
    requires order.active && order.quantity > 0 && order.priority == priority
    ensures Indexed(orders[i := order], index, i) && Sound(orders[i := order], priority + 1)
    ensures Newest(orders[i := order], i)
    ensures forall id :: id in index ==> index[id] < |orders| && index[id] != i
  {
  }

  /** Rewriting a record that is in no queue makes it the loose one. */
  lemma ReplacedLoose(orders: seq<Order>, queues: seq<seq<nat>>, i: nat, order: Order, loose: int)
    requires Covered(orders, queues, loose) && i < |orders| && order.active
    requires loose == i || (loose < 0 && !orders[i].active)
    requires forall m, k :: 0 <= m < |queues| && 0 <= k < |queues[m]| ==>
      queues[m][k] < |orders| && orders[queues[m][k]].active
    requires loose == i ==> Loose(orders, queues, loose)
    ensures Covered(orders[i := order], queues, i)
    ensures Loose(orders[i := order], queues, i)
    ensures forall m :: 0 <= m < |queues| ==> i !in queues[m]
  {
  }

  lemma RecordChanged(orders: seq<Order>, levels: seq<Level>, queues: seq<seq<nat>>, i: nat, order: Order)
    requires AllListed(orders, levels, queues) && i < |orders|
    requires forall m :: 0 <= m < |queues| ==> i !in queues[m]
    ensures AllListed(orders[i := order], levels, queues)
  {
    forall m | 0 <= m < |levels|
      ensures Listed(orders[i := order], levels[m], queues[m], m)
    {
      assert Listed(orders, levels[m], queues[m], m);
      ListedSame(orders, orders[i := order], levels[m], queues[m], m);
    }
  }

  lemma EnterOk(s: Snapshot, o: nat)
    requires s.Ok(-1, -1, o) && o < |s.orders| && s.orders[o].active && s.orders[o].id !in s.index
    ensures s.(index := s.index[s.orders[o].id := o], activeOrders := s.activeOrders + 1).Ok(-1, -1, -1)
  {
    hide AllListed, Covered, Loose, Populated, FreeList, Sound;
  }

  ghost function Dropped(s: Snapshot, o: nat): Snapshot
    requires o < |s.orders| && s.activeOrders > 0
  {
    s.(orders := s.orders[o := s.orders[o].(active := false, nextFree := s.freeOrder)],
       index := s.index - {s.orders[o].id},
       freeOrders := [o] + s.freeOrders,
       freeOrder := o,
       activeOrders := s.activeOrders - 1)
  }

  lemma DropOk(s: Snapshot, o: nat)
    requires s.Ok(o, -1, -1)
    ensures o < |s.orders| && s.orders[o].active && s.activeOrders > 0
    ensures s.orders[o].id in s.index && s.index[s.orders[o].id] == o
    ensures Dropped(s, o).Ok(-1, -1, -1)
  {
    hide AllListed, Covered, Loose, Populated, Indexed, FreeList, Sound;
    QueuesAvoid(s.orders, s.queues, o);
    var order := s.orders[o].(active := false, nextFree := s.freeOrder);
    var now := s.orders[o := order];
    DroppedFree(s.orders, s.freeOrders, s.freeOrder, o);
    DroppedIndexed(s.orders, s.queues, s.index, o, order, s.nextPriority);
    RecordChanged(s.orders, s.levels, s.queues, o, order);
    NoneLoose(now, s.queues);
    OneFewer(s.index, order.id);
  }

  lemma QueuesAvoid(orders: seq<Order>, queues: seq<seq<nat>>, loose: nat)
    requires Loose(orders, queues, loose)
    ensures forall m :: 0 <= m < |queues| ==> loose !in queues[m]
    ensures loose < |orders| && orders[loose].active
  {
  }

  lemma DroppedFree(orders: seq<Order>, free: seq<nat>, head: nat, o: nat)
    requires FreeList(free, head, OrderLinks(orders), OrderLives(orders)) && |orders| <= NPOS
    requires o < |orders| && orders[o].active
    ensures
      var now := orders[o := orders[o].(active := false, nextFree := head)];
      FreeList([o] + free, o, OrderLinks(now), OrderLives(now))
  {
    var now := orders[o := orders[o].(active := false, nextFree := head)];
    Pushed(free, head, OrderLinks(orders), OrderLives(orders), o);
    hide FreeList;
    assert OrderLinks(now) == OrderLinks(orders)[o := head];
    assert OrderLives(now) == OrderLives(orders)[o := false];
  }

  lemma DroppedIndexed(orders: seq<Order>, queues: seq<seq<nat>>, index: map<OrderId, nat>, o: nat, order: Order,
                       nextPriority: nat)
    requires Indexed(orders, index, -1) && Sound(orders, nextPriority) && Covered(orders, queues, o)
    requires o < |orders| && orders[o].active && !order.active && order.id == orders[o].id
    ensures order.id in index && index[order.id] == o
    ensures Indexed(orders[o := order], index - {order.id}, -1)
    ensures Sound(orders[o := order], nextPriority)
    ensures Covered(orders[o := order], queues, -1)
  {
  }

  // ---------- changing a record in place ----------

  ghost function Resized(s: Snapshot, o: nat, quantity: nat): Snapshot
    requires o < |s.orders| && s.orders[o].level < |s.levels|
    requires s.levels[s.orders[o].level].totalQuantity >= s.orders[o].quantity
  {
    var l := s.orders[o].level;
    s.(orders := s.orders[o := s.orders[o].(quantity := quantity)],
       levels := s.levels[l := s.levels[l].(
         totalQuantity := s.levels[l].totalQuantity - s.orders[o].quantity + quantity)])
  }

  lemma ResizeOk(s: Snapshot, o: nat, quantity: nat)
    requires s.Ok(-1, -1, -1) && o < |s.orders| && s.orders[o].active && quantity > 0
    ensures s.orders[o].level < |s.levels| && s.levels[s.orders[o].level].totalQuantity >= s.orders[o].quantity
    ensures s.levels[s.orders[o].level].active
    ensures Resized(s, o, quantity).Ok(-1, -1, -1)
  {
    hide AllListed, Covered, Loose, Populated, Indexed, FreeList, Sound;
    QueueMembers(s.orders, s.levels, s.queues);
    var l, at := QueuePlace(s.orders, s.queues, -1, o);
    ResizeAll(s.orders, s.levels, s.queues, l, at, quantity);
    var order := s.orders[o].(quantity := quantity);
    var now := s.orders[o := order];
    var level := Resized(s, o, quantity).levels[l];
    PopulatedChange(s.levels, s.queues, -1, l, level, s.queues[l]);
    PendingFilled(s.levels[l := level], s.queues[l := s.queues[l]], l);
    assert s.queues[l := s.queues[l]] == s.queues;
    RecordResized(s.orders, s.queues, s.index, o, order, s.nextPriority);
    NoneLoose(now, s.queues);
  }

  lemma QueuePlace(orders: seq<Order>, queues: seq<seq<nat>>, loose: int, o: nat) returns (l: nat, at: nat)
    requires Covered(orders, queues, loose) && o != loose && o < |orders| && orders[o].active
    ensures l == orders[o].level < |queues| && at < |queues[l]| && queues[l][at] == o
  {
    l := orders[o].level;
    at :| at < |queues[l]| && queues[l][at] == o;
  }

  lemma RecordResized(orders: seq<Order>, queues: seq<seq<nat>>, index: map<OrderId, nat>, o: nat, order: Order,
                      nextPriority: nat)
    requires Covered(orders, queues, -1) && Indexed(orders, index, -1) && Sound(orders, nextPriority)
    requires o < |orders| && orders[o].active && order == orders[o].(quantity := order.quantity) && order.quantity > 0
    ensures Covered(orders[o := order], queues, -1)
    ensures Indexed(orders[o := order], index, -1)
    ensures Sound(orders[o := order], nextPriority)
    ensures OrderLinks(orders[o := order]) == OrderLinks(orders) && OrderLives(orders[o := order]) == OrderLives(orders)
  {
  }

  ghost function Remade(s: Snapshot, o: nat, order: Order): Snapshot
    requires o < |s.orders|
  {
    s.(orders := s.orders[o := order], nextPriority := s.nextPriority + 1)
  }

  lemma RemakeOk(s: Snapshot, o: nat, pending: int, order: Order)
    requires s.Ok(o, pending, -1)
    requires o < |s.orders| && order.active && order.quantity > 0 && order.priority == s.nextPriority
    requires order.id == s.orders[o].id && order.nextFree == s.orders[o].nextFree
    ensures Remade(s, o, order).Ok(o, pending, -1)
    ensures Newest(s.orders[o := order], o)
  {
    hide AllListed, Covered, Loose, Populated, Indexed, FreeList, Sound, Newest;
    QueuesAvoid(s.orders, s.queues, o);
    QueueMembers(s.orders, s.levels, s.queues);
    ReplacedLoose(s.orders, s.queues, o, order, o);
    RecordChanged(s.orders, s.levels, s.queues, o, order);
    RecordRemade(s.orders, s.index, o, order, s.nextPriority);
  }

  lemma RecordRemade(orders: seq<Order>, index: map<OrderId, nat>, o: nat, order: Order, priority: nat)
    requires Indexed(orders, index, -1) && Sound(orders, priority)
    requires o < |orders| && orders[o].active && order.active && order.quantity > 0 && order.priority == priority
    requires order.id == orders[o].id && order.nextFree == orders[o].nextFree
    ensures Indexed(orders[o := order], index, -1) && Sound(orders[o := order], priority + 1)
    ensures Newest(orders[o := order], o)
    ensures OrderLinks(orders[o := order]) == OrderLinks(orders) && OrderLives(orders[o := order]) == OrderLives(orders)
  {
  }

  // ---------- capacity ----------

  /** The order pool is exhausted exactly when the book is full. */
  lemma OrdersExhausted(s: Snapshot)
    requires s.Ok(-1, -1, -1)
    ensures s.freeOrder == NPOS <==> |s.index| == |s.orders|
  {
    FreeHead(s.freeOrders, s.freeOrder, OrderLinks(s.orders), OrderLives(s.orders));
    hide FreeList, AllListed, Covered, Loose, Populated, Indexed, Sound;
  }

  /** Live levels never outnumber waiting orders: unless every order of the pool
      waits in a queue, some level is free. */
  lemma LevelToSpare(s: Snapshot, loose: int)
    requires s.Ok(loose, -1, -1) && (loose >= 0 || s.freeOrder != NPOS)
    ensures exists l :: 0 <= l < |s.levels| && !s.levels[l].active
  {
    hide FreeList, AllListed, Covered, Loose, Indexed, Sound;
    FreeHead(s.freeOrders, s.freeOrder, OrderLinks(s.orders), OrderLives(s.orders));
    if forall l :: 0 <= l < |s.queues| ==> s.queues[l] != [] {
      WaitingEverywhere(s.queues);
    }
  }

  /** If every level is live, each holds a single order. */
  lemma LevelsExhausted(s: Snapshot, l: nat)
    requires s.Ok(-1, -1, -1) && l < |s.levels| && forall m :: 0 <= m < |s.levels| ==> s.levels[m].active
    ensures s.levels[l].orderCount == 1
  {
    hide FreeList, AllListed, Covered, Loose, Indexed, Sound, Ranked;
    QueueMembers(s.orders, s.levels, s.queues);
    WaitingEverywhere(s.queues);
  }

  // ---------- what an operation leaves of the levels ----------

  /** The levels that are still live have kept their side and price. */
  ghost predicate Shrunk(was: seq<Level>, now: seq<Level>) {
    |was| == |now| && forall l :: 0 <= l < |now| && now[l].active ==> SameFace(was[l], now[l])
  }

  lemma ListFieldsShrunk(was: seq<Level>, l: nat, level: Level)
    requires l < |was| && OnlyList(was[l], level)
    ensures Shrunk(was, was[l := level])
  {
  }

  lemma ClosedShrunk(was: seq<Level>, now: seq<Level>, l: nat)
    requires Closed(was, now, l)
    ensures Shrunk(was, now)
  {
  }

  lemma ShrunkTwice(was: seq<Level>, between: seq<Level>, now: seq<Level>)
    requires Shrunk(was, between) && Shrunk(between, now)
    ensures Shrunk(was, now)
  {
  }

  lemma FilledQueue(s: Snapshot, loose: int, l: nat)
    requires s.Ok(loose, l, -1) && l < |s.levels| && s.levels[l].orderCount > 0
    ensures l < |s.queues| && s.queues[l] != []
  {
    hide AllListed, Covered, Loose, Indexed, FreeList, Sound, Ranked;
    QueueMembers(s.orders, s.levels, s.queues);
  }

  lemma EmptyQueueBlank(s: Snapshot, loose: int, l: nat)
    requires s.Ok(loose, l, -1) && l < |s.levels| && s.levels[l].orderCount == 0
    ensures l < |s.queues| && s.queues[l] == [] && Blank(s.levels[l]) && s.levels[l].active
  {
    assert Listed(s.orders, s.levels[l], s.queues[l], l);
    hide AllListed, Covered, Loose, Indexed, FreeList, Sound, Linked, Ranked, Priced;
  }

  lemma IndexedSize(s: Snapshot, unindexed: int)
    requires s.Ok(-1, -1, unindexed)
    ensures |s.index| <= |s.orders|
  {
    hide AllListed, Covered, Loose, Populated, Indexed, FreeList, Sound;
  }

  // ---------- what a step does to the book ----------

  lemma OnlyLinksAt(was: seq<Order>, now: seq<Order>, o: nat)
    requires OnlyLinks(was, now) && o < |was|
    ensures now[o].id == was[o].id && now[o].active == was[o].active && Shown(now[o]) == Shown(was[o])
    ensures now[o].level == was[o].level
  {
  }

  lemma LinksBook(s: Snapshot, t: Snapshot)
    requires Indexed(s.orders, s.index, -1) && OnlyLinks(s.orders, t.orders) && t.index == s.index
    ensures Indexed(t.orders, t.index, -1)
    ensures forall id :: id in s.index ==> s.index[id] < |s.orders|
    ensures t.Book() == s.Book()
  {
  }

  lemma RestedBook(s: Snapshot, pending: int, order: Order, t: Snapshot)
    requires s.Ok(-1, pending, -1) && s.freeOrder < |s.orders| && !s.orders[s.freeOrder].active
    requires OnlyLinks(s.orders[s.freeOrder := order], t.orders)
    requires t.index == s.index[order.id := s.freeOrder]
    ensures forall id :: id in s.index ==> s.index[id] < |s.orders|
    ensures forall id :: id in t.index ==> t.index[id] < |t.orders|
    ensures t.Book() == s.Book()[order.id := Shown(order)]
  {
    hide AllListed, Covered, Loose, Populated, FreeList, Sound;
  }

  lemma DroppedBook(s: Snapshot, o: nat)
    requires Indexed(s.orders, s.index, -1) && o < |s.orders| && s.orders[o].active && s.activeOrders > 0
    ensures forall id :: id in s.index ==> s.index[id] < |s.orders|
    ensures Dropped(s, o).Book() == s.Book() - {s.orders[o].id}
  {
  }

  lemma ResizedBook(s: Snapshot, o: nat, quantity: nat)
    requires s.Ok(-1, -1, -1) && o < |s.orders| && s.orders[o].active
    requires s.orders[o].level < |s.levels| && s.levels[s.orders[o].level].totalQuantity >= s.orders[o].quantity
    ensures forall id :: id in s.index ==> s.index[id] < |s.orders|
    ensures s.orders[o].id in s.index
    ensures Resized(s, o, quantity).Book() == s.Book()[s.orders[o].id := Shown(s.orders[o]).(quantity := quantity)]
  {
    hide AllListed, Covered, Loose, Populated, FreeList, Sound;
  }

  /** Some resting order has this side and price. */
  ghost predicate OrderAt(orders: Reference.Orders, side: Side, price: Price) {
    exists id :: id in orders && orders[id].side == side && orders[id].price == price
  }

  /** Some indexed order other than `loose` rests at this side and price. */
  ghost predicate UsedLevel(s: Snapshot, loose: int, side: Side, price: Price)
    requires forall id :: id in s.index ==> s.index[id] < |s.orders|
  {
    exists id :: id in s.index && s.index[id] != loose && s.orders[s.index[id]].side == side
      && s.orders[s.index[id]].price == price
  }

  /** The level index knows a key exactly when some order waits there. */
  lemma LevelKnown(s: Snapshot, loose: int, index: map<LevelKey, nat>, bids: set<nat>, asks: set<nat>, side: Side,
                   price: Price)
    requires s.Ok(loose, -1, -1) && Directory(s.levels, index, bids, asks)
    ensures forall id :: id in s.index ==> s.index[id] < |s.orders|
    ensures (side, price) in index <==> UsedLevel(s, loose, side, price)
  {
    hide FreeList, Sound, AllListed, Covered, Ranked, Blank, Loose;
    QueueMembers(s.orders, s.levels, s.queues);
    if (side, price) in index {
      var l := index[(side, price)];
      QueuePriced(s, l);
      var o := s.queues[l][0];
      if loose >= 0 {
        LooseOutside(s.orders, s.queues, loose, l);
      }
      assert s.index[s.orders[o].id] == o;
    }
    if id :|
      && id in s.index && s.index[id] != loose
      && s.orders[s.index[id]].side == side && s.orders[s.index[id]].price == price {
      var l, at := QueuePlace(s.orders, s.queues, loose, s.index[id]);
      QueuePriced(s, l);
      assert KeyOf(s.levels[l]) == (side, price);
    }
  }

  lemma UsedOrderAt(s: Snapshot, loose: int, side: Side, price: Price)
    requires forall id :: id in s.index ==> s.index[id] < |s.orders|
    requires 0 <= loose < |s.orders| ==> s.orders[loose].side != side || s.orders[loose].price != price
    ensures UsedLevel(s, loose, side, price) <==> OrderAt(s.Book(), side, price)
  {
    if id :| id in s.Book() && s.Book()[id].side == side && s.Book()[id].price == price {
      assert s.index[id] != loose;
    }
    if id :|
      && id in s.index && s.index[id] != loose
      && s.orders[s.index[id]].side == side && s.orders[s.index[id]].price == price {
      assert s.Book()[id].side == side;
    }
  }

  lemma QueuePriced(s: Snapshot, l: nat)
    requires AllListed(s.orders, s.levels, s.queues) && l < |s.levels|
    ensures l < |s.queues| && Priced(s.orders, s.levels[l], s.queues[l])
  {
    assert Listed(s.orders, s.levels[l], s.queues[l], l);
    hide Linked, Ranked, Cached;
  }

  /** What `Unlink` followed by `Drop` does to the book. */
  lemma UnlinkedBook(s: Snapshot, t: Snapshot, o: nat)
    requires s.Ok(-1, -1, -1) && t.Ok(o, -1, -1)
    requires OnlyLinks(s.orders, t.orders) && t.index == s.index
    ensures o < |t.orders| && t.activeOrders > 0 && t.orders[o].id == s.orders[o].id
    ensures Dropped(t, o).Ok(-1, -1, -1)
    ensures forall id :: id in s.index ==> s.index[id] < |s.orders|
    ensures Dropped(t, o).Book() == s.Book() - {s.orders[o].id}
  {
    DropOk(t, o);
    hide AllListed, Covered, Loose, Populated, Indexed, FreeList, Sound, BookOf;
    LinksBook(s, t);
    DroppedBook(t, o);
    hide Snapshot.Ok;
    OkBook(Dropped(t, o));
    OnlyLinksAt(s.orders, t.orders, o);
  }

  /** An indexed order's place in its queue. */
  lemma OrderPlace(s: Snapshot, id: OrderId) returns (at: nat)
    requires s.Ok(-1, -1, -1) && id in s.index
    ensures s.index[id] < |s.orders| && s.orders[s.index[id]].active && s.orders[s.index[id]].id == id
    ensures s.orders[s.index[id]].level < |s.queues| == |s.levels|
    ensures at < |s.queues[s.orders[s.index[id]].level]| && s.queues[s.orders[s.index[id]].level][at] == s.index[id]
  {
    hide AllListed, Loose, FreeList, Sound;
    var l;
    l, at := QueuePlace(s.orders, s.queues, -1, s.index[id]);
  }

  lemma ShownInBook(s: Snapshot, id: OrderId)
    requires s.Ok(-1, -1, -1) && id in s.index
    ensures forall id :: id in s.index ==> s.index[id] < |s.orders|
    ensures s.Book()[id] == Shown(s.orders[s.index[id]])
    ensures s.orders[s.index[id]].active && s.orders[s.index[id]].id == id && s.orders[s.index[id]].quantity > 0
    ensures s.orders[s.index[id]].level < |s.levels|
  {
    var at := OrderPlace(s, id);
    hide AllListed, Covered, Loose, Populated, FreeList;
  }

  /** What `Unlink`, a rewrite and `LinkTail` together do to the book. */
  lemma MovedBook(s: Snapshot, t: Snapshot, o: nat, order: Order, u: Snapshot)
    requires s.Ok(-1, -1, -1) && o < |s.orders| && s.orders[o].active && order.id == s.orders[o].id
    requires OnlyLinks(s.orders, t.orders) && OnlyLinks(t.orders[o := order], u.orders)
    requires t.index == s.index == u.index
    ensures forall id :: id in s.index ==> s.index[id] < |s.orders|
    ensures forall id :: id in u.index ==> u.index[id] < |u.orders|
    ensures u.Book() == s.Book()[order.id := Shown(order)]
  {
    hide AllListed, Covered, Loose, Populated, FreeList, Sound;
  }

  lemma UsedAfterLinks(s: Snapshot, t: Snapshot, loose: int, side: Side, price: Price)
    requires forall id :: id in s.index ==> s.index[id] < |s.orders|
    requires OnlyLinks(s.orders, t.orders) && t.index == s.index
    ensures UsedLevel(t, loose, side, price) <==> UsedLevel(s, loose, side, price)
  {
    if id :|
      && id in s.index && s.index[id] != loose
      && s.orders[s.index[id]].side == side && s.orders[s.index[id]].price == price {
      assert t.orders[t.index[id]].side == side;
    }
    if id :|
      && id in t.index && t.index[id] != loose
      && t.orders[t.index[id]].side == side && t.orders[t.index[id]].price == price {
      assert s.orders[s.index[id]].side == side;
    }
  }

  /** A snapshot with a loose order is not one without. */
  lemma NotWhole(s: Snapshot, loose: nat)
    requires s.Ok(loose, -1, -1)
    ensures !s.Ok(-1, -1, -1)
  {
    hide AllListed, Covered, Loose, Populated, Indexed, FreeList, Sound;
  }

  /** Orders other than `o` wait at level `l`, all of them known to the index. */
  ghost predicate StillWaiting(orders: seq<Order>, queues: seq<seq<nat>>, l: nat, index: map<OrderId, nat>, o: nat) {
    && l < |queues| && o !in queues[l]
    && forall w :: w in queues[l] ==>
         && w < |orders| && orders[w].active && orders[w].level == l
         && orders[w].id in index && index[orders[w].id] == w
  }

  /** A level led to the orders that wait there and does so no longer. */
  ghost predicate Beheaded(was: Level, now: Level, q: seq<nat>) {
    q != [] && was.head == q[0] && now.head == now.tail == NPOS
  }

  /** What unlinking a stray order does to the level it names. */
  ghost predicate UnlinkedAgain(was: seq<Level>, now: seq<Level>, queues: seq<seq<nat>>, stray: Order) {
    && |was| == |now| == |queues| && stray.level < |was|
    && var l := stray.level;
    && (Beheaded(was[l], now[l], queues[l]) <==> was[l].active)
    && now[l].head == now[l].tail == NPOS
    && now[l].totalQuantity == Minus(was[l].totalQuantity, stray.quantity)
    && now[l].orderCount == Minus(|queues[l]|, 1)
    && (now[l].active <==> |queues[l]| > 1)
    && forall m :: 0 <= m < |now| && m != l ==> (now[m].active <==> was[m].active)
  }

  /** The level that a stray order names. */
  lemma StrayLevel(s: Snapshot, o: nat)
    requires s.Ok(o, -1, -1) && o < |s.orders| && s.orders[o].level < |s.levels|
    ensures |s.queues| == |s.levels| && StillWaiting(s.orders, s.queues, s.orders[o].level, s.index, o)
    ensures
      var l := s.orders[o].level;
      && s.levels[l].orderCount == |s.queues[l]|
      && (s.levels[l].active <==> s.queues[l] != [])
      && (s.queues[l] != [] ==> s.levels[l].head == s.queues[l][0])
  {
    hide FreeList, Sound, Covered;
    var l := s.orders[o].level;
    assert Listed(s.orders, s.levels[l], s.queues[l], l);
  }

  /** All orders at the side and price of `o` name one level. */
  ghost predicate OneLevel(orders: seq<Order>, o: nat) {
    && o < |orders|
    && forall w ::
         && 0 <= w < |orders| && orders[w].active
         && orders[w].side == orders[o].side && orders[w].price == orders[o].price
         ==> orders[w].level == orders[o].level
  }

  lemma KeysOnce(s: Snapshot, index: map<LevelKey, nat>, bids: set<nat>, asks: set<nat>, o: nat)
    requires s.Ok(-1, -1, -1) && Directory(s.levels, index, bids, asks) && o < |s.orders| && s.orders[o].active
    ensures OneLevel(s.orders, o)
  {
    hide FreeList, Sound, Blank, AllListed;
    forall w | 0 <= w < |s.orders| && s.orders[w].active
      ensures
        var l := s.orders[w].level;
        l < |s.levels| && s.levels[l].active && KeyOf(s.levels[l]) == (s.orders[w].side, s.orders[w].price)
    {
      QueuePriced(s, s.orders[w].level);
    }
  }

  lemma ClosedLives(was: seq<Level>, now: seq<Level>, l: nat)
    requires |was| == |now| && l < |was| && Closed(Emptied(was, l), Emptied(now, l), l)
    ensures forall m :: 0 <= m < |now| && m != l ==> (now[m].active <==> was[m].active)
  {
  }

  /** The level a stray order has left is live if and only if another order rests
      at its price. */
  lemma LeftLevelLive(s: Snapshot, t: Snapshot, o: nat)
    requires s.Ok(-1, -1, -1) && t.Ok(o, -1, -1) && OnlyLinks(s.orders, t.orders) && t.index == s.index
    requires o < |s.orders| && OneLevel(s.orders, o) && s.orders[o].active && s.orders[o].level < |t.levels|
    requires forall id :: id in s.index ==> s.index[id] < |s.orders|
    ensures t.levels[s.orders[o].level].active <==>
      OrderAt(s.Book() - {s.orders[o].id}, s.orders[o].side, s.orders[o].price)
  {
    hide Snapshot.Ok, OrderAt, OnlyLinks, OneLevel, BookOf;
    var l := s.orders[o].level;
    if t.levels[l].active {
      LiveMeansOther(s, t, o);
    }
    if OrderAt(s.Book() - {s.orders[o].id}, s.orders[o].side, s.orders[o].price) {
      OtherMeansLive(s, t, o);
    }
  }

  lemma LiveMeansOther(s: Snapshot, t: Snapshot, o: nat)
    requires s.Ok(-1, -1, -1) && t.Ok(o, -1, -1) && OnlyLinks(s.orders, t.orders) && t.index == s.index
    requires o < |s.orders| && s.orders[o].active && s.orders[o].level < |t.levels|
    requires t.levels[s.orders[o].level].active
    requires forall id :: id in s.index ==> s.index[id] < |s.orders|
    ensures OrderAt(s.Book() - {s.orders[o].id}, s.orders[o].side, s.orders[o].price)
  {
    hide Snapshot.Ok, OnlyLinks;
    OnlyLinksSize(s.orders, t.orders);
    OnlyLinksAt(s.orders, t.orders, o);
    StrayLevel(t, o);
    var w := t.queues[s.orders[o].level][0];
    assert w in t.queues[s.orders[o].level];
    OnlyLinksAt(s.orders, t.orders, w);
    ShownAtLevel(s, -1, w);
    ShownAtLevel(s, -1, o);
    assert s.orders[w].id in s.Book() - {s.orders[o].id};
  }

  lemma OnlyLinksSize(was: seq<Order>, now: seq<Order>)
    requires OnlyLinks(was, now)
    ensures |was| == |now|
  {
  }

  lemma ShownAtLevel(s: Snapshot, loose: int, w: nat)
    requires s.Ok(loose, -1, -1) && w < |s.orders| && s.orders[w].active && w != loose
    ensures s.orders[w].level < |s.levels| && s.levels[s.orders[w].level].active
    ensures KeyOf(s.levels[s.orders[w].level]) == (s.orders[w].side, s.orders[w].price)
    ensures s.orders[w].id in s.index && s.index[s.orders[w].id] == w
  {
    hide FreeList, Sound, AllListed;
    QueuePriced(s, s.orders[w].level);
  }

  lemma IndexedOrder(s: Snapshot, id: OrderId)
    requires s.Ok(-1, -1, -1) && id in s.index
    ensures s.index[id] < |s.orders| && s.orders[s.index[id]].active && s.orders[s.index[id]].id == id
  {
    hide FreeList, Sound, AllListed, Covered, Loose, Populated;
  }

  lemma OtherMeansLive(s: Snapshot, t: Snapshot, o: nat)
    requires s.Ok(-1, -1, -1) && t.Ok(o, -1, -1) && OnlyLinks(s.orders, t.orders) && t.index == s.index
    requires OneLevel(s.orders, o) && s.orders[o].active && s.orders[o].level < |t.levels|
    requires forall id :: id in s.index ==> s.index[id] < |s.orders|
    requires OrderAt(s.Book() - {s.orders[o].id}, s.orders[o].side, s.orders[o].price)
    ensures t.levels[s.orders[o].level].active
  {
    hide Snapshot.Ok, OnlyLinks;
    var order := s.orders[o];
    var id :|
      && id in s.Book() - {order.id}
      && s.Book()[id].side == order.side && s.Book()[id].price == order.price;
    var w := s.index[id];
    IndexedOrder(s, id);
    OnlyLinksSize(s.orders, t.orders);
    OnlyLinksAt(s.orders, t.orders, w);
    ShownAtLevel(t, o, w);
  }
}
