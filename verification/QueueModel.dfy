/** The queue-position model: an estimate of how much rests ahead of one
    hypothetical passive order, and of how much of that order would have filled. It
    sees every event together with the book before the event. */
module QueueModels {
  import opened MarketTypes
  import opened Sums
  import opened BookViews
  import opened OrderBooks
  import opened Ladders
  import opened FreeLists
  import opened LevelDirectories
  import opened ProbeTables
  import opened BookStates
  import Reference
  import MatchingLaws

  /** `cohort` are the orders that rested at the price when the model was posted. */
  datatype Estimate = Estimate(side: Side, price: Price, size: Quantity, ahead: real, filled: Quantity,
    cohort: set<OrderId>)

  predicate AtLevel(e: Estimate, orders: Reference.Orders, id: OrderId) {
    id in orders && orders[id].side == e.side && orders[id].price == e.price
  }

  function Least(a: real, b: real): real {
    if a <= b then a else b
  }

  function Advance(e: Estimate, quantity: Quantity): Estimate {
    e.(ahead := if e.ahead - quantity as real <= 0.0 then 0.0 else e.ahead - quantity as real)
  }

  /** An execution consumes what is ahead; what is left of it fills the order. */
  function Consume(e: Estimate, quantity: Quantity): Estimate
    requires e.filled < e.size
  {
    var consumed := Least(quantity as real, e.ahead);
    var overflow := quantity as real - consumed;
    var room := (e.size - e.filled) as real;
    e.(ahead := e.ahead - consumed,
       filled := if overflow > 0.0 then e.filled + Least(overflow, room).Floor else e.filled)
  }

  function React(e: Estimate, event: MarketDataEvent, orders: Reference.Orders): Estimate {
    if e.filled >= e.size || !AtLevel(e, orders, event.orderId) then e
    else
      match event.kind
      case Trade => Consume(e, event.quantity)
      case Reduce => if event.orderId in e.cohort then Advance(e, event.quantity) else e
      case Cancel => if event.orderId in e.cohort then Advance(e, orders[event.orderId].quantity) else e
      case Replace => if event.orderId in e.cohort then Advance(e, orders[event.orderId].quantity) else e
      case Add => e
      case Modify => e
  }

  lemma FullStays(e: Estimate, event: MarketDataEvent, orders: Reference.Orders)
    requires e.filled >= e.size
    ensures React(e, event, orders) == e
  {
  }

  class QueueModel {
    const side: Side
    const price: Price
    const size: Quantity
    const cohort: set<OrderId>
    const arrivalNs: nat
    var ahead: real
    var filled: Quantity

    ghost function Now(): Estimate
      reads this
    {
      Estimate(side, price, size, ahead, filled, cohort)
    }

    constructor (side: Side, price: Price, size: Quantity, displayedAhead: Quantity, multiplier: real,
                 cohort: set<OrderId>, arrivalNs: nat)
      ensures Now() == Estimate(side, price, size, displayedAhead as real * multiplier, 0, cohort)
      ensures this.arrivalNs == arrivalNs
    {
      this.side, this.price, this.size := side, price, size;
      this.cohort, this.arrivalNs := cohort, arrivalNs;
      ahead, filled := displayedAhead as real * multiplier, 0;
    }

    /** Reacts to an event, with the book as it was before it. */
    method OnEvent(event: MarketDataEvent, book: OrderBook)
      requires book.Valid()
      modifies this`ahead, this`filled
      ensures Now() == React(old(Now()), event, old(book.State().orders))
    {
      hide Snapshot.Ok, Probes, HeapOk, FreeList, Directory, BookOf, React, AtLevel;
      ghost var orders := book.State().orders;
      if filled < size {
        var order := OrderAtOurLevel(event.orderId, book);
        assert book.State() == old(book.State());
        Apply(event, order, orders);
      } else {
        FullStays(Now(), event, orders);
      }
    }

    method Apply(event: MarketDataEvent, order: Option<OrderView>, ghost orders: Reference.Orders)
      requires filled < size
      requires order == if AtLevel(Now(), orders, event.orderId) then Some(ViewOf(orders, event.orderId)) else None
      modifies this`ahead, this`filled
      ensures Now() == React(old(Now()), event, orders)
    {
      match event.kind {
        case Trade =>
          if order.Some? {
            var q := event.quantity as real;
            var consumed := Least(q, ahead);
            ahead := ahead - consumed;
            var overflow := q - consumed;
            if overflow > 0.0 {
              var room := (size - filled) as real;
              filled := filled + Least(overflow, room).Floor;
            }
          }
        case Reduce =>
          if order.Some? && event.orderId in cohort {
            StepForward(event.quantity);
          }
        case Cancel =>
          if order.Some? && event.orderId in cohort {
            StepForward(order.value.quantity);
          }
        case Replace =>
          if order.Some? && event.orderId in cohort {
            StepForward(order.value.quantity);
          }
        case Add =>
        case Modify =>
      }
    }

    method StepForward(quantity: Quantity)
      modifies this`ahead
      ensures Now() == Advance(old(Now()), quantity)
    {
      ahead := if ahead - quantity as real <= 0.0 then 0.0 else ahead - quantity as real;
    }

    method OrderAtOurLevel(id: OrderId, book: OrderBook) returns (order: Option<OrderView>)
      requires book.Valid()
      ensures book.Valid()
      ensures order == if AtLevel(Now(), book.State().orders, id) then Some(ViewOf(book.State().orders, id)) else None
    {
      order := book.FindOrder(id);
      if order.Some? && (order.value.side != side || order.value.priceTicks != price) {
        order := None;
      }
    }
  }

  // ---------- what any feed does ----------

  /** One event, and the orders of the book before it. */
  datatype Seen = Seen(event: MarketDataEvent, orders: Reference.Orders)

  function Follow(e: Estimate, feed: seq<Seen>): Estimate {
    if feed == [] then e
    else
      var last := feed[|feed| - 1];
      React(Follow(e, feed[..|feed| - 1]), last.event, last.orders)
  }

  /** Same order, same cohort, but more presumed ahead and no more filled. */
  ghost predicate Slower(slow: Estimate, fast: Estimate) {
    && slow.(ahead := fast.ahead, filled := fast.filled) == fast
    && slow.filled <= fast.filled
    && (fast.filled < fast.size ==> fast.ahead <= slow.ahead)
  }

  lemma LeastFloor(overflow: real, room: nat)
    requires overflow > 0.0
    ensures Least(overflow, room as real).Floor == if overflow.Floor <= room then overflow.Floor else room
  {
  }

  lemma ReactKeepsSlower(slow: Estimate, fast: Estimate, event: MarketDataEvent, orders: Reference.Orders)
    requires Slower(slow, fast)
    ensures Slower(React(slow, event, orders), React(fast, event, orders))
  {
    if event.kind == Trade && fast.filled < fast.size {
      var q := event.quantity as real;
      var less, more := q - Least(q, slow.ahead), q - Least(q, fast.ahead);
      if more > 0.0 {
        LeastFloor(more, fast.size - fast.filled);
      }
      if less > 0.0 {
        LeastFloor(less, slow.size - slow.filled);
      }
      hide Least;
    }
  }

  /** Of two models that differ only in what they presume ahead, the one that
      presumes more never has more filled, at any point of any feed. */
  lemma {:induction false} MoreAheadFillsLater(slow: Estimate, fast: Estimate, feed: seq<Seen>)
    requires slow.(ahead := fast.ahead) == fast && fast.ahead <= slow.ahead
    ensures Slower(Follow(slow, feed), Follow(fast, feed))
  {
    if feed != [] {
      var last := feed[|feed| - 1];
      MoreAheadFillsLater(slow, fast, feed[..|feed| - 1]);
      ReactKeepsSlower(Follow(slow, feed[..|feed| - 1]), Follow(fast, feed[..|feed| - 1]), last.event, last.orders);
    }
  }

  /** Filling never goes back or beyond the size, and nothing negative is ahead. */
  lemma {:induction false} FillsMonotone(e: Estimate, feed: seq<Seen>, n: nat)
    requires e.ahead >= 0.0 && e.filled <= e.size && n <= |feed|
    ensures Follow(e, feed[..n]).filled <= Follow(e, feed).filled <= e.size
    ensures 0.0 <= Follow(e, feed).ahead <= Follow(e, feed[..n]).ahead
    ensures Follow(e, feed).(ahead := e.ahead, filled := e.filled) == e
    decreases |feed|
  {
    if n < |feed| {
      var init, last := feed[..|feed| - 1], feed[|feed| - 1];
      assert init[..n] == feed[..n];
      FillsMonotone(e, init, n);
      ReactMonotone(Follow(e, init), last.event, last.orders);
    } else {
      assert feed[..n] == feed;
      if feed != [] {
        var init, last := feed[..|feed| - 1], feed[|feed| - 1];
        FillsMonotone(e, init, 0);
        ReactMonotone(Follow(e, init), last.event, last.orders);
      }
    }
  }

  lemma ReactMonotone(e: Estimate, event: MarketDataEvent, orders: Reference.Orders)
    requires e.ahead >= 0.0 && e.filled <= e.size
    ensures
      var after := React(e, event, orders);
      e.filled <= after.filled <= e.size && 0.0 <= after.ahead <= e.ahead
      && after.(ahead := e.ahead, filled := e.filled) == e
  {
  }

  // ---------- the closed form of any feed ----------

  predicate AtPrice(e: Estimate, seen: Seen) {
    var id := seen.event.orderId;
    id in seen.orders && seen.orders[id].side == e.side && seen.orders[id].price == e.price
  }

  /** What one event takes from the queue ahead, were it long enough: what it executes
      at the price, or what it takes away of an order of the cohort. */
  function Taken(e: Estimate, seen: Seen): nat {
    var event := seen.event;
    if !AtPrice(e, seen) then 0
    else if event.kind == Trade then event.quantity
    else if event.orderId !in e.cohort then 0
    else if event.kind == Reduce then event.quantity
    else if event.kind == Cancel || event.kind == Replace then seen.orders[event.orderId].quantity
    else 0
  }

  function Gone(e: Estimate, feed: seq<Seen>): nat {
    if feed == [] then 0 else Gone(e, feed[..|feed| - 1]) + Taken(e, feed[|feed| - 1])
  }

  predicate Executes(e: Estimate, seen: Seen) {
    seen.event.kind == Trade && AtPrice(e, seen)
  }

  /** What the executions at the price left over once the queue ahead was served. */
  function Beyond(e: Estimate, feed: seq<Seen>): real {
    if feed == [] then 0.0
    else
      var init, last := feed[..|feed| - 1], feed[|feed| - 1];
      Beyond(e, init)
      + if Executes(e, last) then Positive(last.event.quantity as real - Positive(e.ahead - Gone(e, init) as real))
        else 0.0
  }

  function Positive(x: real): real {
    if x >= 0.0 then x else 0.0
  }

  function Capped(n: int, size: nat): int {
    if n <= size then n else size
  }

  lemma {:induction false} BeyondNeedsAllGone(e: Estimate, feed: seq<Seen>)
    ensures Beyond(e, feed) >= 0.0
    ensures Beyond(e, feed) > 0.0 ==> Gone(e, feed) as real >= e.ahead
  {
    if feed != [] {
      BeyondNeedsAllGone(e, feed[..|feed| - 1]);
    }
  }

  /** Whatever the feed and whatever is presumed ahead: what is still ahead is what was
      ahead at the start less all that has gone, and the filled quantity is what the
      executions left over, rounded down and no more than the size. */
  lemma {:induction false} ClosedForm(e: Estimate, feed: seq<Seen>)
    requires e.ahead >= 0.0 && e.filled == 0
    ensures
      var after := Follow(e, feed);
      && after.filled == Capped(Beyond(e, feed).Floor, e.size)
      && (after.filled < e.size ==> after.ahead == Positive(e.ahead - Gone(e, feed) as real))
      && after.(ahead := e.ahead, filled := e.filled) == e
  {
    BeyondNeedsAllGone(e, feed);
    if feed != [] {
      var init, last := feed[..|feed| - 1], feed[|feed| - 1];
      ClosedForm(e, init);
      BeyondNeedsAllGone(e, init);
      ReactClosedForm(e, Follow(e, init), last, Gone(e, init), Beyond(e, init));
    }
  }

  /** One event, with `gone` gone before it and `beyond` left over. */
  lemma ReactClosedForm(e: Estimate, now: Estimate, seen: Seen, gone: nat, beyond: real)
    requires e.ahead >= 0.0 && beyond >= 0.0 && (beyond > 0.0 ==> gone as real >= e.ahead)
    requires now.filled == Capped(beyond.Floor, e.size) && now.(ahead := e.ahead, filled := e.filled) == e
    requires now.filled < e.size ==> now.ahead == Positive(e.ahead - gone as real)
    ensures
      var after := React(now, seen.event, seen.orders);
      var more := if Executes(e, seen) then Positive(seen.event.quantity as real - Positive(e.ahead - gone as real))
                  else 0.0;
      && after.filled == Capped((beyond + more).Floor, e.size)
      && (after.filled < e.size ==> after.ahead == Positive(e.ahead - (gone + Taken(e, seen)) as real))
      && after.(ahead := e.ahead, filled := e.filled) == e
  {
    if Executes(e, seen) {
      var q := seen.event.quantity;
      var more := Positive(q as real - Positive(e.ahead - gone as real));
      if beyond > 0.0 {
        assert more == q as real;
        assert (beyond + q as real).Floor == beyond.Floor + q;
      }
    }
  }

  // ---------- when nothing ahead is cancelled ----------

  /** No order of the cohort leaves the price other than by execution. */
  predicate TradesOnly(e: Estimate, feed: seq<Seen>) {
    forall i :: 0 <= i < |feed| && AtPrice(e, feed[i]) && feed[i].event.orderId in e.cohort
      ==> feed[i].event.kind == Trade || feed[i].event.kind == Add || feed[i].event.kind == Modify
  }

  /** The quantity executed at the model's price. */
  function Executed(e: Estimate, feed: seq<Seen>): nat {
    if feed == [] then 0
    else
      var last := feed[|feed| - 1];
      Executed(e, feed[..|feed| - 1]) + if Executes(e, last) then last.event.quantity else 0
  }

  /** The filled quantity is what was executed beyond the quantity ahead at the
      start, rounded down and no more than the size. */
  lemma TradesOnlyClosedForm(e: Estimate, feed: seq<Seen>)
    requires e.ahead >= 0.0 && e.filled == 0 && TradesOnly(e, feed)
    ensures
      var after, executed := Follow(e, feed), Executed(e, feed) as real;
      && after.filled == Capped(Positive(executed - e.ahead).Floor, e.size)
      && (after.filled < e.size ==> after.ahead == Positive(e.ahead - executed))
      && after.(ahead := e.ahead, filled := e.filled) == e
  {
    ClosedForm(e, feed);
    OnlyExecuted(e, feed);
  }

  lemma {:induction false} OnlyExecuted(e: Estimate, feed: seq<Seen>)
    requires e.ahead >= 0.0 && TradesOnly(e, feed)
    ensures Gone(e, feed) == Executed(e, feed)
    ensures Beyond(e, feed) == Positive(Executed(e, feed) as real - e.ahead)
  {
    if feed != [] {
      OnlyExecuted(e, feed[..|feed| - 1]);
    }
  }

  // ---------- the model against the true book ----------

  /** The quantities of the cohort that still rest at the price. */
  function CohortAt(e: Estimate, orders: Reference.Orders): map<OrderId, nat> {
    map id | id in orders && id in e.cohort && AtLevel(e, orders, id) :: orders[id].quantity
  }

  /** The estimate is exact: what is ahead is what rests of the cohort, and nothing
      has filled while any of it rests. The cohort are the orders at the price that
      came before `horizon`. */
  ghost predicate Tracks(e: Estimate, st: Reference.State, horizon: nat) {
    && MatchingLaws.Ranked(st) && horizon <= st.nextPriority
    && (forall id :: AtLevel(e, st.orders, id) ==> (id in e.cohort <==> st.orders[id].priority < horizon))
    && (e.filled < e.size ==> e.ahead == Sum(CohortAt(e, st.orders)) as real)
    && (e.filled > 0 ==> CohortAt(e, st.orders) == map[])
  }

  /** What the feed of a real exchange keeps to: the book applies every event,
      executions hit the head of their level, ids are not reused, and nothing is
      modified in place. */
  ghost predicate Disciplined(e: Estimate, capacity: nat, st: Reference.State, event: MarketDataEvent) {
    && Reference.Process(capacity, st, event).0 == Applied
    && event.kind != Modify
    && (event.kind == Add ==> event.orderId !in e.cohort)
    && (event.kind == Replace ==> event.newOrderId !in e.cohort)
    && (event.kind == Trade && AtLevel(e, st.orders, event.orderId) ==>
          forall id :: AtLevel(e, st.orders, id) ==> st.orders[event.orderId].priority <= st.orders[id].priority)
  }

  lemma CohortAfter(e: Estimate, capacity: nat, st: Reference.State, event: MarketDataEvent)
    requires Disciplined(e, capacity, st, event)
    ensures event.kind != Modify
    ensures
      var id := event.orderId;
      var was, now := CohortAt(e, st.orders), CohortAt(e, Reference.Process(capacity, st, event).1.orders);
      && (event.kind == Add || id !in was ==> now == was)
      && (id in was ==>
            && (event.kind == Cancel || event.kind == Replace ==> now == was - {id})
            && (event.kind == Trade || event.kind == Reduce ==>
                  event.quantity <= was[id]
                    && now == if event.quantity == was[id] then was - {id} else was[id := was[id] - event.quantity]))
  {
  }

  lemma {:induction false} Shares(m: map<OrderId, nat>, id: OrderId)
    requires id in m
    ensures m[id] <= Sum(m)
  {
    SumWithout(m, id);
  }

  /** The head of the level is in the cohort as long as any of the cohort rests. */
  lemma HeadInCohort(e: Estimate, capacity: nat, st: Reference.State, event: MarketDataEvent, horizon: nat)
    requires Tracks(e, st, horizon) && Disciplined(e, capacity, st, event)
    requires event.kind == Trade && AtLevel(e, st.orders, event.orderId)
    ensures event.orderId in e.cohort || CohortAt(e, st.orders) == map[]
  {
    if id :| id in CohortAt(e, st.orders) {
      assert st.orders[event.orderId].priority <= st.orders[id].priority < horizon;
    }
  }

  lemma ProcessKeepsCohort(e: Estimate, capacity: nat, st: Reference.State, event: MarketDataEvent, horizon: nat)
    requires Tracks(e, st, horizon) && Disciplined(e, capacity, st, event)
    ensures
      var after := Reference.Process(capacity, st, event).1;
      && MatchingLaws.Ranked(after) && horizon <= after.nextPriority
      && forall id :: AtLevel(e, after.orders, id) ==> (id in e.cohort <==> after.orders[id].priority < horizon)
  {
    hide MatchingLaws.Ranked;
    MatchingLaws.ProcessKeepsRanked(capacity, st, event);
  }

  /** The estimate stays exact when `was`, the cohort that rests at the price,
      becomes `now`. */
  lemma StaysExact(e: Estimate, event: MarketDataEvent, orders: Reference.Orders, now: map<OrderId, nat>)
    requires
      var id, was := event.orderId, CohortAt(e, orders);
      && (e.filled < e.size ==> e.ahead == Sum(was) as real) && (e.filled > 0 ==> was == map[])
      && event.kind != Modify
      && (event.kind == Add || id !in was ==> now == was)
      && (id in was ==>
            && (event.kind == Cancel || event.kind == Replace ==> now == was - {id})
            && (event.kind == Trade || event.kind == Reduce ==>
                  event.quantity <= was[id]
                    && now == if event.quantity == was[id] then was - {id} else was[id := was[id] - event.quantity]))
      && (event.kind == Trade && AtLevel(e, orders, id) && id !in was ==> was == map[])
    ensures
      var next := React(e, event, orders);
      && (next.filled < next.size ==> next.ahead == Sum(now) as real) && (next.filled > 0 ==> now == map[])
  {
    var id, was := event.orderId, CohortAt(e, orders);
    if id in was {
      Shares(was, id);
      SumWithout(was, id);
      if event.quantity < was[id] {
        SumReplaced(was, id, was[id] - event.quantity);
      }
    }
    assert was == map[] ==> Sum(was) == 0;
    hide Sum;
  }

  lemma ReactKeepsTrack(e: Estimate, capacity: nat, st: Reference.State, event: MarketDataEvent, horizon: nat)
    requires Tracks(e, st, horizon) && Disciplined(e, capacity, st, event)
    ensures Tracks(React(e, event, st.orders), Reference.Process(capacity, st, event).1, horizon)
    ensures React(e, event, st.orders).(ahead := e.ahead, filled := e.filled) == e
  {
    hide React, Sum, MatchingLaws.Ranked, Reference.Process, Disciplined;
    var after := Reference.Process(capacity, st, event).1;
    ProcessKeepsCohort(e, capacity, st, event, horizon);
    CohortAfter(e, capacity, st, event);
    if event.kind == Trade && AtLevel(e, st.orders, event.orderId) {
      HeadInCohort(e, capacity, st, event, horizon);
    }
    StaysExact(e, event, st.orders, CohortAt(e, after.orders));
    SameOrder(e, event, st.orders);
    var next := React(e, event, st.orders);
    assert CohortAt(next, after.orders) == CohortAt(e, after.orders);
    assert forall id :: AtLevel(next, after.orders, id) <==> AtLevel(e, after.orders, id);
  }

  lemma SameOrder(e: Estimate, event: MarketDataEvent, orders: Reference.Orders)
    ensures React(e, event, orders).(ahead := e.ahead, filled := e.filled) == e
  {
  }

  // ---------- whole feeds ----------

  /** The model before the book, event by event. */
  function Observe(e: Estimate, capacity: nat, st: Reference.State, events: seq<MarketDataEvent>): (Estimate,
                   Reference.State) {
    if events == [] then (e, st)
    else
      var (before, stBefore) := Observe(e, capacity, st, events[..|events| - 1]);
      var event := events[|events| - 1];
      (React(before, event, stBefore.orders), Reference.Process(capacity, stBefore, event).1)
  }

  ghost predicate DisciplinedFeed(e: Estimate, capacity: nat, st: Reference.State, events: seq<MarketDataEvent>) {
    events == []
    || (DisciplinedFeed(e, capacity, st, events[..|events| - 1])
        && Disciplined(e, capacity, Observe(e, capacity, st, events[..|events| - 1]).1, events[|events| - 1]))
  }

  /** A model posted behind a level with multiplier 1 stays exact over a whole feed:
      until it is full, what it takes to be ahead is what rests of its cohort, and it
      fills only once none of the cohort is left. */
  lemma {:induction false} EstimateIsExact(e: Estimate, capacity: nat, st: Reference.State,
                                           events: seq<MarketDataEvent>, horizon: nat)
    requires Tracks(e, st, horizon) && DisciplinedFeed(e, capacity, st, events)
    ensures
      var (after, book) := Observe(e, capacity, st, events);
      Tracks(after, book, horizon) && after.(ahead := e.ahead, filled := e.filled) == e
  {
    if events != [] {
      var init, event := events[..|events| - 1], events[|events| - 1];
      EstimateIsExact(e, capacity, st, init, horizon);
      var (before, book) := Observe(e, capacity, st, init);
      assert Disciplined(before, capacity, book, event) by {
        SameDiscipline(e, before, capacity, book, event);
      }
      ReactKeepsTrack(before, capacity, book, event, horizon);
    }
  }

  lemma SameDiscipline(a: Estimate, b: Estimate, capacity: nat, st: Reference.State, event: MarketDataEvent)
    requires Disciplined(a, capacity, st, event) && a.side == b.side && a.price == b.price && a.cohort == b.cohort
    ensures Disciplined(b, capacity, st, event)
  {
    assert forall id :: AtLevel(a, st.orders, id) <==> AtLevel(b, st.orders, id);
  }

  // ---------- posting ----------

  /** A new model behind everything that rests at the best price of a side. */
  ghost function Posted(st: Reference.State, side: Side, price: Price, size: Quantity, multiplier: real): Estimate {
    Estimate(side, price, size, LevelOf(st.orders, side, price).totalQuantity as real * multiplier, 0,
             QuantitiesAt(st.orders, side, price).Keys)
  }

  lemma PostedTracks(st: Reference.State, side: Side, price: Price, size: Quantity)
    requires MatchingLaws.Ranked(st)
    ensures Tracks(Posted(st, side, price, size, 1.0), st, st.nextPriority)
  {
    var e := Posted(st, side, price, size, 1.0);
    assert CohortAt(e, st.orders) == QuantitiesAt(st.orders, side, price);
  }

  /** A model before anything has happened to it: at the best price of its side, behind
      the multiple of all that rests there, and with the orders there as its cohort. */
  ghost predicate AtTouch(e: Estimate, orders: Reference.Orders, size: Quantity, multiplier: real) {
    && e.size == size && e.filled == 0
    && (exists at: map<OrderId, nat> :: RestAt(at, orders, e.side, e.price) && e.cohort == at.Keys && at != map[]
          && e.ahead == multiplier * Sum(at) as real)
    && (e.side == Buy ==> forall id :: id in orders && orders[id].side == Buy ==> orders[id].price <= e.price)
    && (e.side == Sell ==> forall id :: id in orders && orders[id].side == Sell ==> orders[id].price >= e.price)
  }

  lemma PostedAtTouch(st: Reference.State, side: Side, price: Price, size: Quantity, multiplier: real)
    requires
      var v := LevelOf(st.orders, side, price);
      v.orderCount > 0 && ShowsBest(Some(v), st.orders, side)
    ensures AtTouch(Posted(st, side, price, size, multiplier), st.orders, size, multiplier)
  {
    hide SumsUp;
    var at := QuantitiesAt(st.orders, side, price);
    assert RestAt(at, st.orders, side, price);
    assert at != map[];
  }

  /** Posts a model at the touch of a side, if anything rests there. */
  method Post(book: OrderBook, side: Side, size: Quantity, multiplier: real,
              nowNs: nat) returns (model: Option<QueueModel>)
    requires book.Valid()
    ensures book.Valid()
    ensures model.None? ==> OneSided(book.State().orders, side)
    ensures model.Some? ==>
      && fresh(model.value)
      && model.value.Now() == Posted(book.State(), side, model.value.price, size, multiplier)
      && AtTouch(model.value.Now(), book.State().orders, size, multiplier) && model.value.side == side
      && model.value.arrivalNs == nowNs
  {
    hide Snapshot.Ok, Probes, HeapOk, FreeList, Directory, BookOf, LevelOf, Queues, QuantitiesAt, AtTouch,
         ShowsBest, SumsUp;
    ghost var st := book.State();
    var top := book.BestOf(side);
    if top.None? {
      model := None;
    } else {
      var price := top.value.priceTicks;
      var ids := book.LevelOrderIds(side, price);
      var cohort := set id | id in ids;
      assert book.State() == st;
      CohortListed(ids, st.orders, side, price);
      var posted := new QueueModel(side, price, size, top.value.totalQuantity, multiplier, cohort, nowNs);
      model := Some(posted);
      PostedAtTouch(st, side, price, size, multiplier);
    }
  }

  lemma CohortListed(ids: seq<OrderId>, orders: Reference.Orders, side: Side, price: Price)
    requires Queues(ids, orders, side, price)
    ensures (set id | id in ids) == QuantitiesAt(orders, side, price).Keys
  {
  }
}
