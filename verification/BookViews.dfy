/** What the snapshots of a book show, in terms of the reference's map. */
module BookViews {
  import opened MarketTypes
  import opened Sums
  import Reference

  /** The quantities that rest at one price, by id. */
  function QuantitiesAt(orders: Reference.Orders, side: Side, price: Price): map<OrderId, nat> {
    map id | id in orders && orders[id].side == side && orders[id].price == price :: orders[id].quantity
  }

  /** One level as the aggregation of its orders. */
  ghost function LevelOf(orders: Reference.Orders, side: Side, price: Price): LevelView {
    LevelView(side, price, Sum(QuantitiesAt(orders, side, price)), |QuantitiesAt(orders, side, price)|)
  }

  /** Bids before asks, and on each side the better price first. */
  predicate LevelFirst(a: LevelView, b: LevelView) {
    if a.side != b.side then a.side == Buy else BetterPrice(a.side, a.priceTicks, b.priceTicks)
  }

  ghost predicate LevelsSorted(views: seq<LevelView>) {
    forall i, j :: 0 <= i < j < |views| ==> LevelFirst(views[i], views[j])
  }

  /** `views` aggregates the book: one view for each price with an order, sorted. */
  ghost predicate Aggregates(views: seq<LevelView>, orders: Reference.Orders) {
    && LevelsSorted(views)
    && (forall v :: v in views ==> v == LevelOf(orders, v.side, v.priceTicks) && v.orderCount > 0)
    && (forall id :: id in orders ==> LevelOf(orders, orders[id].side, orders[id].price) in views)
  }

  predicate OrderFirst(a: OrderView, b: OrderView) {
    if a.side != b.side then a.side == Buy
    else BetterPrice(a.side, a.priceTicks, b.priceTicks) || (a.priceTicks == b.priceTicks && a.priority < b.priority)
  }

  ghost function ViewOf(orders: Reference.Orders, id: OrderId): OrderView
    requires id in orders
  {
    OrderView(id, orders[id].side, orders[id].price, orders[id].quantity, orders[id].priority)
  }

  /** `views` lists the book: every order once, by side, price and priority. */
  ghost predicate Lists(views: seq<OrderView>, orders: Reference.Orders) {
    && (forall i, j :: 0 <= i < j < |views| ==> OrderFirst(views[i], views[j]))
    && (forall v :: v in views ==> v.id in orders && v == ViewOf(orders, v.id))
    && (forall id :: id in orders ==> ViewOf(orders, id) in views)
  }

  lemma {:induction false} ListsSize(a: seq<OrderView>, orders: Reference.Orders)
    requires Lists(a, orders)
    ensures |a| == |orders|
    decreases |a|
  {
    if a == [] {
      assert orders == map[];
    } else {
      assert a[0] in a;
      OneFewer(orders, a[0].id);
      ListsTail(a, orders);
      hide Lists;
      ListsSize(a[1..], orders - {a[0].id});
    }
  }

  lemma SameFirst(a: seq<OrderView>, b: seq<OrderView>, orders: Reference.Orders)
    requires Lists(a, orders) && Lists(b, orders) && a != [] && b != []
    ensures a[0] == b[0]
  {
    assert a[0] in a && b[0] in b;
    assert a[0] in b && b[0] in a;
  }

  /** There is only one way to list a book: the listing determines the sequence. */
  lemma {:induction false} ListsUnique(a: seq<OrderView>, b: seq<OrderView>, orders: Reference.Orders)
    requires Lists(a, orders) && Lists(b, orders)
    ensures a == b
    decreases |a|
  {
    hide Lists;
    ListsSize(a, orders);
    ListsSize(b, orders);
    if a != [] {
      SameFirst(a, b, orders);
      ListsTail(a, orders);
      ListsTail(b, orders);
      ListsUnique(a[1..], b[1..], orders - {a[0].id});
    }
  }

  lemma ListsTail(a: seq<OrderView>, orders: Reference.Orders)
    requires Lists(a, orders) && a != []
    ensures Lists(a[1..], orders - {a[0].id})
  {
    forall v | v in a[1..]
      ensures v.id in orders - {a[0].id} && v == ViewOf(orders - {a[0].id}, v.id)
    {
      assert v in a;
      assert OrderFirst(a[0], v);
    }
    forall id | id in orders - {a[0].id}
      ensures ViewOf(orders - {a[0].id}, id) in a[1..]
    {
      assert ViewOf(orders, id) in a;
      assert ViewOf(orders, id) != a[0];
    }
  }

  /** `ids` are the orders at one price, oldest first. */
  ghost predicate Queues(ids: seq<OrderId>, orders: Reference.Orders, side: Side, price: Price) {
    && (forall id :: id in ids <==> id in orders && orders[id].side == side && orders[id].price == price)
    && (forall i, j :: 0 <= i < j < |ids| ==>
          ids[i] in orders && ids[j] in orders && orders[ids[i]].priority < orders[ids[j]].priority)
  }

  // ---------- the snapshots in prices and quantities ----------

  /** The orders of a side at a price, by id, with their quantities. */
  ghost predicate RestAt(at: map<OrderId, nat>, orders: Reference.Orders, side: Side, price: Price) {
    && (forall id :: id in at <==> id in orders && orders[id].side == side && orders[id].price == price)
    && (forall id :: id in at ==> at[id] == orders[id].quantity)
  }

  /** A view counts and sums up just the orders of its side and price. */
  ghost predicate SumsUp(v: LevelView, orders: Reference.Orders) {
    exists at: map<OrderId, nat> ::
      RestAt(at, orders, v.side, v.priceTicks) && v.orderCount == |at| && v.totalQuantity == Sum(at)
  }

  lemma LevelSumsUp(v: LevelView, orders: Reference.Orders)
    requires v == LevelOf(orders, v.side, v.priceTicks)
    ensures SumsUp(v, orders)
  {
    assert RestAt(QuantitiesAt(orders, v.side, v.priceTicks), orders, v.side, v.priceTicks);
  }

  /** Bids before asks, bids from the highest and asks from the lowest price. */
  predicate Above(aside: Side, aprice: Price, bside: Side, bprice: Price) {
    || (aside == Buy && bside == Sell)
    || (aside == Buy && bside == Buy && aprice > bprice)
    || (aside == Sell && bside == Sell && aprice < bprice)
  }

  /** One view for each price with an order, bids down and asks up. */
  ghost predicate LevelsByPrice(views: seq<LevelView>, orders: Reference.Orders) {
    && (forall i, j :: 0 <= i < j < |views| ==>
          Above(views[i].side, views[i].priceTicks, views[j].side, views[j].priceTicks))
    && (forall v :: v in views ==> v.orderCount > 0 && SumsUp(v, orders))
    && (forall id :: id in orders ==>
          exists v :: v in views && v.side == orders[id].side && v.priceTicks == orders[id].price)
  }

  lemma AggregatesByPrice(views: seq<LevelView>, orders: Reference.Orders)
    requires Aggregates(views, orders)
    ensures LevelsByPrice(views, orders)
  {
    hide SumsUp;
    forall v | v in views
      ensures v.orderCount > 0 && SumsUp(v, orders)
    {
      LevelSumsUp(v, orders);
    }
  }

  /** Every order once, at its own side, price, quantity and priority, bids down and
      asks up, and the older first at one price. */
  ghost predicate OrdersByPriority(views: seq<OrderView>, orders: Reference.Orders) {
    && |views| == |orders|
    && (forall v :: v in views ==>
          && v.id in orders && v.side == orders[v.id].side && v.priceTicks == orders[v.id].price
          && v.quantity == orders[v.id].quantity && v.priority == orders[v.id].priority)
    && (forall id :: id in orders ==> exists v :: v in views && v.id == id)
    && (forall i, j :: 0 <= i < j < |views| ==>
          || Above(views[i].side, views[i].priceTicks, views[j].side, views[j].priceTicks)
          || (views[i].side == views[j].side && views[i].priceTicks == views[j].priceTicks
              && views[i].priority < views[j].priority))
  }

  lemma ListsByPriority(views: seq<OrderView>, orders: Reference.Orders)
    requires Lists(views, orders)
    ensures OrdersByPriority(views, orders)
  {
    ListsSize(views, orders);
  }

  /** The touch of a side: no order there is at a higher bid or a lower ask, and the
      view sums up those at its price. Without a view the side is empty. */
  ghost predicate ShowsBest(view: Option<LevelView>, orders: Reference.Orders, side: Side) {
    if view.None? then forall id :: id in orders ==> orders[id].side != side
    else
      && view.value.side == side && view.value.orderCount > 0 && SumsUp(view.value, orders)
      && (side == Buy ==>
            forall id :: id in orders && orders[id].side == Buy ==> orders[id].price <= view.value.priceTicks)
      && (side == Sell ==>
            forall id :: id in orders && orders[id].side == Sell ==> orders[id].price >= view.value.priceTicks)
  }

  lemma BestShown(v: LevelView, orders: Reference.Orders, side: Side)
    requires v == LevelOf(orders, side, v.priceTicks) && v.orderCount > 0
    requires forall id :: id in orders && orders[id].side == side ==> !BetterPrice(side, orders[id].price, v.priceTicks)
    ensures ShowsBest(Some(v), orders, side)
  {
    hide SumsUp;
    LevelSumsUp(v, orders);
  }

  // ---------- sorting level views ----------

  /** Stands for the library sort: level views with different keys, in order. */
  method SortLevels(views: seq<LevelView>) returns (sorted: seq<LevelView>)
    requires forall i, j :: 0 <= i < j < |views| ==> LevelFirst(views[i], views[j]) || LevelFirst(views[j], views[i])
    ensures LevelsSorted(sorted) && forall v :: v in sorted <==> v in views
  {
    sorted := [];
    for k := 0 to |views|
      invariant LevelsSorted(sorted)
      invariant forall v :: v in sorted <==> v in views[..k]
    {
      var i := 0;
      while i < |sorted| && LevelFirst(sorted[i], views[k])
        invariant 0 <= i <= |sorted|
        invariant forall j :: 0 <= j < i ==> LevelFirst(sorted[j], views[k])
      {
        i := i + 1;
      }
      if i < |sorted| {
        assert sorted[i] in views[..k];
      }
      InsertSorted(sorted, i, views[k]);
      sorted := sorted[..i] + [views[k]] + sorted[i..];
      assert views[..k + 1] == views[..k] + [views[k]];
    }
    assert views[..|views|] == views;
  }

  lemma InsertSorted(sorted: seq<LevelView>, i: nat, v: LevelView)
    requires LevelsSorted(sorted) && i <= |sorted|
    requires forall j :: 0 <= j < i ==> LevelFirst(sorted[j], v)
    requires i < |sorted| ==> LevelFirst(v, sorted[i])
    ensures LevelsSorted(sorted[..i] + [v] + sorted[i..])
    ensures forall x :: x in sorted[..i] + [v] + sorted[i..] <==> x in sorted || x == v
  {
    assert sorted == sorted[..i] + sorted[i..];
  }

  /** Nothing rests on this side. */
  predicate OneSided(orders: Reference.Orders, side: Side) {
    forall id :: id in orders ==> orders[id].side != side
  }
}
