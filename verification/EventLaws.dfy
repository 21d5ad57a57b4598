/** What an applied event does to the orders, one law for each kind of event, in
    terms of the orders before and after. Together with `OrderBook.ProcessEvent`
    these are laws of the book. */
module EventLaws {
  import opened MarketTypes
  import Reference

  /** All orders but those named are as they were. */
  ghost predicate OthersKept(was: Reference.Orders, now: Reference.Orders, named: set<OrderId>) {
    forall id :: id !in named ==> (id in now <==> id in was) && (id in was ==> now[id] == was[id])
  }

  /** An added order rests behind all others, with just the fields of the event. It is
      refused for no quantity, for an id that is taken, or for want of room, checked in
      that order; nothing else refuses it and a refusal changes nothing. */
  lemma Added(capacity: nat, st: Reference.State, event: MarketDataEvent)
    requires event.kind == Add
    ensures
      var (r, after) := Reference.Process(capacity, st, event);
      && (r == InvalidQuantity <==> event.quantity == 0)
      && (r == DuplicateOrderId <==> event.quantity > 0 && event.orderId in st.orders)
      && (r == CapacityExhausted <==>
            event.quantity > 0 && event.orderId !in st.orders && |st.orders| == capacity)
      && (r == Applied <==> event.quantity > 0 && event.orderId !in st.orders && |st.orders| != capacity)
      && (r != Applied ==> after == st)
      && (r == Applied ==>
            && event.orderId in after.orders
            && after.orders[event.orderId].side == event.side
            && after.orders[event.orderId].price == event.priceTicks
            && after.orders[event.orderId].quantity == event.quantity
            && after.orders[event.orderId].priority == st.nextPriority
            && after.nextPriority == st.nextPriority + 1 && after.fillSequence == st.fillSequence
            && OthersKept(st.orders, after.orders, {event.orderId}))
  {
  }

  /** A modified order is the event's in side, price and quantity. It keeps its
      priority if side and price stay as they were and goes behind all others if not,
      so that in a book whose priorities were all handed out it keeps its priority if
      and only if they stay. */
  lemma Modified(capacity: nat, st: Reference.State, event: MarketDataEvent)
    requires event.kind == Modify
    ensures
      var (r, after) := Reference.Process(capacity, st, event);
      var id := event.orderId;
      && (r == InvalidQuantity <==> event.quantity == 0)
      && (r == OrderNotFound <==> event.quantity > 0 && id !in st.orders)
      && (r == Applied <==> event.quantity > 0 && id in st.orders)
      && (r != Applied ==> after == st)
      && (r == Applied ==>
            && id in after.orders
            && after.orders[id].side == event.side && after.orders[id].price == event.priceTicks
            && after.orders[id].quantity == event.quantity
            && after.fillSequence == st.fillSequence && OthersKept(st.orders, after.orders, {id}))
      && (r == Applied && event.side == st.orders[id].side && event.priceTicks == st.orders[id].price ==>
            after.orders[id].priority == st.orders[id].priority && after.nextPriority == st.nextPriority)
      && (r == Applied && !(event.side == st.orders[id].side && event.priceTicks == st.orders[id].price) ==>
            after.orders[id].priority == st.nextPriority && after.nextPriority == st.nextPriority + 1)
      && (r == Applied && st.orders[id].priority < st.nextPriority ==>
            (after.orders[id].priority == st.orders[id].priority <==>
               event.side == st.orders[id].side && event.priceTicks == st.orders[id].price))
  {
  }

  /** A cancelled order is gone. */
  lemma Cancelled(capacity: nat, st: Reference.State, event: MarketDataEvent)
    requires event.kind == Cancel
    ensures
      var (r, after) := Reference.Process(capacity, st, event);
      && (r == Applied <==> event.orderId in st.orders)
      && (r == OrderNotFound <==> event.orderId !in st.orders)
      && event.orderId !in after.orders && OthersKept(st.orders, after.orders, {event.orderId})
      && after.nextPriority == st.nextPriority && after.fillSequence == st.fillSequence
  {
  }

  /** A trade and a reduction take exactly the event's quantity off the order, which is
      gone if and only if that was all of it. Side, price and priority stay. */
  lemma Executed(capacity: nat, st: Reference.State, event: MarketDataEvent)
    requires event.kind == Trade || event.kind == Reduce
    ensures
      var (r, after) := Reference.Process(capacity, st, event);
      var id := event.orderId;
      && (r == OrderNotFound <==> event.quantity > 0 && id !in st.orders)
      && (r == InvalidQuantity <==>
            event.quantity == 0 || (id in st.orders && event.quantity > st.orders[id].quantity))
      && (r == Applied <==> id in st.orders && 0 < event.quantity <= st.orders[id].quantity)
      && (r != Applied ==> after == st)
      && (r == Applied ==>
            && (id !in after.orders <==> event.quantity == st.orders[id].quantity)
            && (id in after.orders ==>
                  && after.orders[id].quantity + event.quantity == st.orders[id].quantity
                  && after.orders[id].side == st.orders[id].side && after.orders[id].price == st.orders[id].price
                  && after.orders[id].priority == st.orders[id].priority)
            && OthersKept(st.orders, after.orders, {id})
            && after.nextPriority == st.nextPriority && after.fillSequence == st.fillSequence)
  {
  }

  /** A replacement rests on the side of the order it replaces, behind all others, at
      the event's price and quantity, and the replaced order is gone. */
  lemma Replaced(capacity: nat, st: Reference.State, event: MarketDataEvent)
    requires event.kind == Replace
    ensures
      var (r, after) := Reference.Process(capacity, st, event);
      var (id, newId) := (event.orderId, event.newOrderId);
      && (r == InvalidQuantity <==> event.quantity == 0)
      && (r == OrderNotFound <==> event.quantity > 0 && id !in st.orders)
      && (r == DuplicateOrderId <==>
            event.quantity > 0 && id in st.orders && newId != id && newId in st.orders)
      && (r == Applied <==>
            event.quantity > 0 && id in st.orders && (newId == id || newId !in st.orders))
      && (r != Applied ==> after == st)
      && (r == Applied ==>
            && newId in after.orders && (newId != id ==> id !in after.orders)
            && after.orders[newId].side == st.orders[id].side
            && after.orders[newId].price == event.priceTicks
            && after.orders[newId].quantity == event.quantity
            && after.orders[newId].priority == st.nextPriority
            && after.nextPriority == st.nextPriority + 1 && after.fillSequence == st.fillSequence
            && OthersKept(st.orders, after.orders, {id, newId}))
  {
  }
}
