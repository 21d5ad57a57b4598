/** The order pool and the doubly linked price-time queue of every level, as
    facts about the contents of the two pools. `q[l]` is the queue of level
    `l`: the indices of its orders, oldest first. */
module Fifos {
  import opened MarketTypes
  import opened Ladders

  datatype Order = Order(
    id: OrderId,
    price: Price,
    quantity: Quantity,
    priority: nat,
    level: nat,
    prev: nat,
    next: nat,
    nextFree: nat,
    side: Side,
    active: bool)

  // ---------- one queue ----------

  /** The orders of a queue are live, belong to level `l` and are linked in queue order. */
  ghost predicate Linked(orders: seq<Order>, q: seq<nat>, l: nat) {
    && (forall i :: 0 <= i < |q| ==> q[i] < |orders| && orders[q[i]].active && orders[q[i]].level == l)
    && (forall i {:trigger Node(orders, q, i)} :: 0 <= i < |q| ==> Node(orders, q, i))
  }

  ghost predicate Node(orders: seq<Order>, q: seq<nat>, i: nat)
    requires i < |q|
  {
    && q[i] < |orders|
    && orders[q[i]].prev == (if i == 0 then NPOS else q[i - 1])
    && orders[q[i]].next == (if i + 1 < |q| then q[i + 1] else NPOS)
  }

  /** The oldest order comes first. */
  ghost predicate Ranked(orders: seq<Order>, q: seq<nat>) {
    && (forall i :: 0 <= i < |q| ==> q[i] < |orders|)
    && (forall i, j :: 0 <= i < j < |q| ==> orders[q[i]].priority < orders[q[j]].priority)
  }

  ghost function Total(orders: seq<Order>, q: seq<nat>): nat
    requires forall i :: 0 <= i < |q| ==> q[i] < |orders|
  {
    if q == [] then 0 else Total(orders, q[..|q| - 1]) + orders[q[|q| - 1]].quantity
  }

  /** A level's record agrees with its queue. */
  ghost predicate Cached(orders: seq<Order>, level: Level, q: seq<nat>) {
    && (forall i :: 0 <= i < |q| ==> q[i] < |orders|)
    && level.head == (if q == [] then NPOS else q[0])
    && level.tail == (if q == [] then NPOS else q[|q| - 1])
    && level.orderCount == |q|
    && level.totalQuantity == Total(orders, q)
  }

  /** The orders of a queue carry their level's side and price. */
  ghost predicate Priced(orders: seq<Order>, level: Level, q: seq<nat>) {
    forall i :: 0 <= i < |q| ==> q[i] < |orders| && orders[q[i]].side == level.side && orders[q[i]].price == level.price
  }

  ghost predicate Listed(orders: seq<Order>, level: Level, q: seq<nat>, l: nat) {
    && Linked(orders, q, l)
    && Ranked(orders, q)
    && Cached(orders, level, q)
    && Priced(orders, level, q)
  }

  lemma RankedApart(orders: seq<Order>, q: seq<nat>, i: nat, j: nat)
    requires Ranked(orders, q) && i < |q| && j < |q| && i != j
    ensures q[i] != q[j]
  {
  }

  /** Everything but the links is the same. */
  ghost predicate OnlyLinks(was: seq<Order>, now: seq<Order>) {
    && |was| == |now|
    && forall i :: 0 <= i < |was| ==> now[i] == was[i].(prev := now[i].prev, next := now[i].next)
  }

  /** Orders outside the queue do not matter to it. */
  ghost predicate SameOn(was: seq<Order>, now: seq<Order>, q: seq<nat>) {
    |was| == |now| && forall i :: 0 <= i < |q| ==> q[i] < |was| && now[q[i]] == was[q[i]]
  }

  lemma {:induction false} TotalSame(was: seq<Order>, now: seq<Order>, q: seq<nat>)
    requires |was| == |now|
    requires forall i :: 0 <= i < |q| ==> q[i] < |was| && now[q[i]].quantity == was[q[i]].quantity
    ensures Total(now, q) == Total(was, q)
  {
    if q != [] {
      TotalSame(was, now, q[..|q| - 1]);
    }
  }

  lemma ListedSame(was: seq<Order>, now: seq<Order>, level: Level, q: seq<nat>, l: nat)
    requires Listed(was, level, q, l) && SameOn(was, now, q)
    ensures Listed(now, level, q, l)
  {
    TotalSame(was, now, q);
    forall i | 0 <= i < |q|
      ensures Node(now, q, i)
    {
      assert Node(was, q, i);
    }
  }

  function Without(q: seq<nat>, i: nat): (r: seq<nat>)
    requires i < |q|
    ensures |r| == |q| - 1
    ensures forall k :: 0 <= k < |r| ==> r[k] == q[if k < i then k else k + 1]
  {
    q[..i] + q[i + 1..]
  }

  lemma {:induction false} TotalWithout(orders: seq<Order>, q: seq<nat>, i: nat)
    requires i < |q| && forall i :: 0 <= i < |q| ==> q[i] < |orders|
    ensures Total(orders, q) == Total(orders, Without(q, i)) + orders[q[i]].quantity
  {
    if i + 1 == |q| {
      assert Without(q, i) == q[..|q| - 1];
    } else {
      TotalWithout(orders, q[..|q| - 1], i);
      assert Without(q, i)[..|q| - 2] == Without(q[..|q| - 1], i);
    }
  }

  // ---------- every queue ----------

  ghost predicate AllListed(orders: seq<Order>, levels: seq<Level>, queues: seq<seq<nat>>) {
    |queues| == |levels| && forall l :: 0 <= l < |levels| ==> Listed(orders, levels[l], queues[l], l)
  }

  // ---------- appending an order to its level ----------

  function AppendedOrders(orders: seq<Order>, tail: nat, o: nat): (r: seq<Order>)
    requires o < |orders| && (tail != NPOS ==> tail < |orders|)
    ensures |r| == |orders|
    ensures forall x :: 0 <= x < |orders| && x != o && (tail == NPOS || x != tail) ==> r[x] == orders[x]
    ensures tail != o ==> r[o] == orders[o].(prev := tail, next := NPOS)
    ensures tail != o && tail != NPOS ==> r[tail] == orders[tail].(next := o)
  {
    var linked := orders[o := orders[o].(prev := tail, next := NPOS)];
    if tail != NPOS then linked[tail := linked[tail].(next := o)] else linked
  }

  function AppendedLevel(level: Level, o: nat, quantity: nat): Level {
    level.(
      head := if level.tail != NPOS then level.head else o,
      tail := o,
      totalQuantity := level.totalQuantity + quantity,
      orderCount := level.orderCount + 1)
  }

  lemma AppendNode(orders: seq<Order>, q: seq<nat>, l: nat, o: nat, tail: nat, k: nat)
    requires Linked(orders, q, l) && Ranked(orders, q) && |orders| <= NPOS && k < |q|
    requires tail == q[|q| - 1]
    requires o < |orders| && o !in q
    ensures tail < |orders|
    ensures AppendedOrders(orders, tail, o)[q[k]] == orders[q[k]].(next := if k + 1 == |q| then o else q[k + 1])
  {
    assert Node(orders, q, k);
    if k + 1 != |q| {
      RankedApart(orders, q, k, |q| - 1);
    }
    hide Ranked, AppendedOrders;
  }

  lemma AppendLinked(orders: seq<Order>, q: seq<nat>, l: nat, o: nat, tail: nat)
    requires Linked(orders, q, l) && Ranked(orders, q) && |orders| <= NPOS
    requires tail == if q == [] then NPOS else q[|q| - 1]
    requires o < |orders| && o !in q && orders[o].active && orders[o].level == l
    ensures tail != NPOS ==> tail < |orders|
    ensures Linked(AppendedOrders(orders, tail, o), q + [o], l)
  {
    hide Ranked, AppendedOrders;
    var now, p := AppendedOrders(orders, tail, o), q + [o];
    forall k | 0 <= k < |p|
      ensures p[k] < |now| && now[p[k]].active && now[p[k]].level == l && Node(now, p, k)
    {
      if k < |q| {
        AppendNode(orders, q, l, o, tail, k);
        assert Node(orders, q, k);
      } else {
        assert now[o] == orders[o].(prev := tail, next := NPOS);
      }
    }
  }

  lemma AppendRanked(orders: seq<Order>, q: seq<nat>, o: nat, now: seq<Order>)
    requires Ranked(orders, q) && OnlyLinks(orders, now) && o < |orders|
    requires forall i :: 0 <= i < |q| ==> orders[q[i]].priority < orders[o].priority
    ensures Ranked(now, q + [o])
  {
  }

  lemma AppendCached(orders: seq<Order>, level: Level, q: seq<nat>, o: nat, now: seq<Order>)
    requires Cached(orders, level, q) && Priced(orders, level, q) && OnlyLinks(orders, now)
    requires |orders| <= NPOS && o < |orders| && orders[o].side == level.side && orders[o].price == level.price
    ensures Cached(now, AppendedLevel(level, o, orders[o].quantity), q + [o])
    ensures Priced(now, AppendedLevel(level, o, orders[o].quantity), q + [o])
  {
    assert (q + [o])[..|q|] == q;
    TotalSame(orders, now, q);
  }

  lemma AppendListed(orders: seq<Order>, level: Level, q: seq<nat>, l: nat, o: nat)
    requires Listed(orders, level, q, l) && |orders| <= NPOS
    requires o < |orders| && o !in q && orders[o].active && orders[o].level == l
    requires orders[o].side == level.side && orders[o].price == level.price
    requires forall i :: 0 <= i < |q| ==> orders[q[i]].priority < orders[o].priority
    ensures level.tail != NPOS ==> level.tail < |orders|
    ensures OnlyLinks(orders, AppendedOrders(orders, level.tail, o))
    ensures Listed(AppendedOrders(orders, level.tail, o), AppendedLevel(level, o, orders[o].quantity), q + [o], l)
  {
    AppendLinked(orders, q, l, o, level.tail);
    var now := AppendedOrders(orders, level.tail, o);
    hide Linked, AppendedOrders;
    AppendRanked(orders, q, o, now);
    hide Ranked;
    AppendCached(orders, level, q, o, now);
  }

  // ---------- taking an order out of its level ----------

  function DetachedOrders(orders: seq<Order>, o: nat): (r: seq<Order>)
    requires o < |orders|
    requires orders[o].prev != NPOS ==> orders[o].prev < |orders|
    requires orders[o].next != NPOS ==> orders[o].next < |orders|
    ensures |r| == |orders|
    ensures forall x :: 0 <= x < |orders| && x != o ==>
      r[x] == orders[x].(
        next := if x == orders[o].prev != NPOS then orders[o].next else orders[x].next,
        prev := if x == orders[o].next != NPOS then orders[o].prev else orders[x].prev)
    ensures r[o] == orders[o].(prev := NPOS, next := NPOS)
  {
    var order := orders[o];
    var s := if order.prev != NPOS then orders[order.prev := orders[order.prev].(next := order.next)] else orders;
    var t := if order.next != NPOS then s[order.next := s[order.next].(prev := order.prev)] else s;
    t[o := t[o].(prev := NPOS, next := NPOS)]
  }

  /** Subtraction on the 64-bit totals and counts, which go round below zero. */
  function Minus(a: nat, b: nat): nat {
    if b <= a then a - b else (a - b) % 0x1_0000_0000_0000_0000
  }

  function DetachedLevel(level: Level, order: Order): Level {
    level.(
      head := if order.prev != NPOS then level.head else order.next,
      tail := if order.next != NPOS then level.tail else order.prev,
      totalQuantity := Minus(level.totalQuantity, order.quantity),
      orderCount := Minus(level.orderCount, 1))
  }

  lemma NodeOf(orders: seq<Order>, q: seq<nat>, l: nat, i: nat)
    requires Linked(orders, q, l) && i < |q|
    ensures Node(orders, q, i)
  {
  }

  lemma DetachNode(orders: seq<Order>, q: seq<nat>, l: nat, i: nat, k: nat)
    requires Linked(orders, q, l) && Ranked(orders, q) && |orders| <= NPOS && i < |q| && k < |q| - 1
    requires orders[q[i]].prev != NPOS ==> orders[q[i]].prev < |orders|
    requires orders[q[i]].next != NPOS ==> orders[q[i]].next < |orders|
    ensures
      var rest := Without(q, i);
      Node(DetachedOrders(orders, q[i]), rest, k)
  {
    hide DetachedOrders, Linked, Without, Ranked;
    var j := if k < i then k else k + 1;
    NodeOf(orders, q, l, j);
    NodeOf(orders, q, l, i);
    RankedApart(orders, q, i, j);
    if 0 < i && j != i - 1 {
      RankedApart(orders, q, i - 1, j);
    }
    if i + 1 < |q| && j != i + 1 {
      RankedApart(orders, q, i + 1, j);
    }
  }

  lemma DetachLinked(orders: seq<Order>, q: seq<nat>, l: nat, i: nat)
    requires Linked(orders, q, l) && Ranked(orders, q) && |orders| <= NPOS && i < |q|
    ensures orders[q[i]].prev != NPOS ==> orders[q[i]].prev < |orders|
    ensures orders[q[i]].next != NPOS ==> orders[q[i]].next < |orders|
    ensures Linked(DetachedOrders(orders, q[i]), Without(q, i), l)
    ensures OnlyLinks(orders, DetachedOrders(orders, q[i]))
  {
    var rest := Without(q, i);
    assert Node(orders, q, i);
    var now := DetachedOrders(orders, q[i]);
    hide DetachedOrders;
    hide Node;
    forall k | 0 <= k < |rest|
      ensures rest[k] < |now| && now[rest[k]].active && now[rest[k]].level == l && Node(now, rest, k)
    {
      DetachNode(orders, q, l, i, k);
    }
  }

  lemma DetachListed(orders: seq<Order>, level: Level, q: seq<nat>, l: nat, i: nat)
    requires Listed(orders, level, q, l) && |orders| <= NPOS && i < |q|
    ensures orders[q[i]].prev != NPOS ==> orders[q[i]].prev < |orders|
    ensures orders[q[i]].next != NPOS ==> orders[q[i]].next < |orders|
    ensures level.totalQuantity >= orders[q[i]].quantity && level.orderCount > 0
    ensures Listed(DetachedOrders(orders, q[i]), DetachedLevel(level, orders[q[i]]), Without(q, i), l)
    ensures OnlyLinks(orders, DetachedOrders(orders, q[i]))
  {
    DetachLinked(orders, q, l, i);
    assert Node(orders, q, i);
    var now := DetachedOrders(orders, q[i]);
    hide Linked, DetachedOrders, Without;
    DetachRanked(orders, q, i, now);
    DetachCached(orders, level, q, i, now);
    hide Ranked, Cached, Priced;
  }

  lemma DetachCached(orders: seq<Order>, level: Level, q: seq<nat>, i: nat, now: seq<Order>)
    requires Cached(orders, level, q) && Priced(orders, level, q) && OnlyLinks(orders, now)
    requires |orders| <= NPOS && i < |q| && Node(orders, q, i)
    ensures level.totalQuantity >= orders[q[i]].quantity && level.orderCount > 0
    ensures Cached(now, DetachedLevel(level, orders[q[i]]), Without(q, i))
    ensures Priced(now, DetachedLevel(level, orders[q[i]]), Without(q, i))
  {
    TotalWithout(orders, q, i);
    hide Without;
    TotalSame(orders, now, Without(q, i));
  }

  lemma DetachRanked(orders: seq<Order>, q: seq<nat>, i: nat, now: seq<Order>)
    requires Ranked(orders, q) && OnlyLinks(orders, now) && i < |q|
    ensures Ranked(now, Without(q, i))
  {
    hide Without;
  }

  // ---------- the same, over every queue ----------

  /** `level` is the same up to its list fields. */
  ghost predicate OnlyList(was: Level, now: Level) {
    now == was.(head := now.head, tail := now.tail, totalQuantity := now.totalQuantity, orderCount := now.orderCount)
  }

  lemma OthersListed(was: seq<Order>, now: seq<Order>, level: Level, q: seq<nat>, l: nat, changed: nat)
    requires Listed(was, level, q, l) && l != changed && |was| == |now|
    requires forall x :: 0 <= x < |was| && was[x].level != changed ==> now[x] == was[x]
    ensures Listed(now, level, q, l)
  {
    ListedSame(was, now, level, q, l);
  }

  lemma AppendAll(orders: seq<Order>, levels: seq<Level>, queues: seq<seq<nat>>, l: nat, o: nat)
    requires AllListed(orders, levels, queues) && |orders| <= NPOS && l < |levels|
    requires o < |orders| && o !in queues[l] && orders[o].active && orders[o].level == l
    requires orders[o].side == levels[l].side && orders[o].price == levels[l].price
    requires forall i :: 0 <= i < |queues[l]| ==>
      queues[l][i] < |orders| && orders[queues[l][i]].priority < orders[o].priority
    ensures levels[l].tail != NPOS ==> levels[l].tail < |orders|
    ensures OnlyLinks(orders, AppendedOrders(orders, levels[l].tail, o))
    ensures AllListed(
      AppendedOrders(orders, levels[l].tail, o),
      levels[l := AppendedLevel(levels[l], o, orders[o].quantity)],
      queues[l := queues[l] + [o]])
  {
    var level, q := levels[l], queues[l];
    assert Listed(orders, level, q, l);
    AppendListed(orders, level, q, l, o);
    var now := AppendedOrders(orders, level.tail, o);
    assert level.tail != NPOS ==> orders[level.tail].level == l;
    assert forall x :: 0 <= x < |orders| && orders[x].level != l ==> now[x] == orders[x];
    hide Listed, AppendedOrders, AppendedLevel, OnlyLinks;
    forall m | 0 <= m < |levels| && m != l
      ensures Listed(now, levels[m], queues[m], m)
    {
      OthersListed(orders, now, levels[m], queues[m], m, l);
    }
  }

  lemma DetachAll(orders: seq<Order>, levels: seq<Level>, queues: seq<seq<nat>>, l: nat, i: nat)
    requires AllListed(orders, levels, queues) && |orders| <= NPOS && l < |levels| && i < |queues[l]|
    ensures queues[l][i] < |orders| && orders[queues[l][i]].level == l
    ensures
      var o := queues[l][i];
      && (orders[o].prev != NPOS ==> orders[o].prev < |orders|)
      && (orders[o].next != NPOS ==> orders[o].next < |orders|)
      && levels[l].totalQuantity >= orders[o].quantity && levels[l].orderCount > 0
      && OnlyLinks(orders, DetachedOrders(orders, o))
      && AllListed(
           DetachedOrders(orders, o),
           levels[l := DetachedLevel(levels[l], orders[o])],
           queues[l := Without(queues[l], i)])
  {
    var level, q := levels[l], queues[l];
    assert Listed(orders, level, q, l);
    var o := q[i];
    DetachListed(orders, level, q, l, i);
    var now := DetachedOrders(orders, o);
    DetachedElsewhere(orders, level, q, l, i);
    hide Listed, DetachedOrders, DetachedLevel, OnlyLinks, Without;
    forall m | 0 <= m < |levels| && m != l
      ensures Listed(now, levels[m], queues[m], m)
    {
      OthersListed(orders, now, levels[m], queues[m], m, l);
    }
  }

  lemma DetachedElsewhere(orders: seq<Order>, level: Level, q: seq<nat>, l: nat, i: nat)
    requires Listed(orders, level, q, l) && |orders| <= NPOS && i < |q|
    requires orders[q[i]].prev != NPOS ==> orders[q[i]].prev < |orders|
    requires orders[q[i]].next != NPOS ==> orders[q[i]].next < |orders|
    ensures forall x :: 0 <= x < |orders| && orders[x].level != l ==> DetachedOrders(orders, q[i])[x] == orders[x]
  {
    assert Node(orders, q, i);
    hide DetachedOrders;
  }

  /** Levels may change their directory fields while their queue is empty. */
  lemma LevelsChanged(orders: seq<Order>, was: seq<Level>, now: seq<Level>, queues: seq<seq<nat>>)
    requires AllListed(orders, was, queues) && |was| == |now|
    requires forall l :: 0 <= l < |was| ==> SameQueue(was[l], now[l]) && (queues[l] != [] ==> SameFace(was[l], now[l]))
    ensures AllListed(orders, now, queues)
  {
    forall l | 0 <= l < |now|
      ensures Listed(orders, now[l], queues[l], l)
    {
      assert Listed(orders, was[l], queues[l], l);
      hide Linked, Ranked, AllListed;
    }
  }

  ghost predicate SameQueue(a: Level, b: Level) {
    a.head == b.head && a.tail == b.tail && a.totalQuantity == b.totalQuantity && a.orderCount == b.orderCount
  }

  ghost predicate SameFace(a: Level, b: Level) {
    a.side == b.side && a.price == b.price && a.active == b.active
  }

  // ---------- changing the quantity of a waiting order ----------

  lemma ResizeListed(orders: seq<Order>, level: Level, q: seq<nat>, l: nat, at: nat, quantity: nat)
    requires Listed(orders, level, q, l) && at < |q|
    ensures level.totalQuantity >= orders[q[at]].quantity
    ensures
      var o := q[at];
      Listed(orders[o := orders[o].(quantity := quantity)],
             level.(totalQuantity := level.totalQuantity - orders[o].quantity + quantity), q, l)
  {
    var o := q[at];
    var now := orders[o := orders[o].(quantity := quantity)];
    TotalResized(orders, q, at, quantity);
    forall i | 0 <= i < |q|
      ensures Node(now, q, i)
    {
      assert Node(orders, q, i);
    }
    hide Total;
  }

  lemma TotalResized(orders: seq<Order>, q: seq<nat>, at: nat, quantity: nat)
    requires Ranked(orders, q) && at < |q|
    ensures Total(orders, q) >= orders[q[at]].quantity
    ensures Total(orders[q[at] := orders[q[at]].(quantity := quantity)], q)
      == Total(orders, q) - orders[q[at]].quantity + quantity
  {
    var now, rest := orders[q[at] := orders[q[at]].(quantity := quantity)], Without(q, at);
    TotalWithout(orders, q, at);
    TotalWithout(now, q, at);
    forall i | 0 <= i < |rest|
      ensures rest[i] < |orders| && now[rest[i]].quantity == orders[rest[i]].quantity
    {
      hide Without;
      RankedApart(orders, q, at, if i < at then i else i + 1);
    }
    TotalSame(orders, now, rest);
  }

  lemma ResizeAll(orders: seq<Order>, levels: seq<Level>, queues: seq<seq<nat>>, l: nat, at: nat, quantity: nat)
    requires AllListed(orders, levels, queues) && l < |levels| && at < |queues[l]|
    ensures queues[l][at] < |orders| && levels[l].totalQuantity >= orders[queues[l][at]].quantity
    ensures
      var o := queues[l][at];
      AllListed(orders[o := orders[o].(quantity := quantity)],
                levels[l := levels[l].(totalQuantity := levels[l].totalQuantity - orders[o].quantity + quantity)],
                queues)
  {
    assert Listed(orders, levels[l], queues[l], l);
    var o := queues[l][at];
    assert orders[o].level == l;
    ResizeListed(orders, levels[l], queues[l], l, at, quantity);
    var now := orders[o := orders[o].(quantity := quantity)];
    hide Listed;
    forall m | 0 <= m < |levels| && m != l
      ensures Listed(now, levels[m], queues[m], m)
    {
      OthersListed(orders, now, levels[m], queues[m], m, l);
    }
  }
}
