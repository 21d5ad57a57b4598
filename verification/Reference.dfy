/** The simple books the engine must agree with: a map from order id to order,
    a priority counter and a fill counter. `Process` applies an event the
    exchange has decided; `Submit` matches a request by scanning for the best
    price and then the lowest priority. */
module Reference {
  import opened MarketTypes
  import opened Sums

  type Orders = map<OrderId, RefOrder>

  datatype State = State(orders: Orders, nextPriority: nat, fillSequence: nat)

  const EMPTY := State(map[], 0, 0)

  // ---------- apply mode ----------

  function Process(capacity: nat, st: State, event: MarketDataEvent): (ProcessResult, State) {
    match event.kind
    case Add => Rest(capacity, st, event.orderId, event.side, event.priceTicks, event.quantity)
    case Modify => Amend(st, event)
    case Cancel =>
      if event.orderId !in st.orders then (OrderNotFound, st)
      else (Applied, st.(orders := st.orders - {event.orderId}))
    case Trade => Execute(st, event.orderId, event.quantity)
    case Reduce => Execute(st, event.orderId, event.quantity)
    case Replace => Swap(st, event)
  }

  function Amend(st: State, event: MarketDataEvent): (ProcessResult, State) {
    if event.quantity == 0 then (InvalidQuantity, st)
    else if event.orderId !in st.orders then (OrderNotFound, st)
    else
      var order := st.orders[event.orderId];
      var stays := order.side == event.side && order.price == event.priceTicks;
      var priority := if stays then order.priority else st.nextPriority;
      (Applied, st.(
        orders := st.orders[event.orderId := RefOrder(event.side, event.priceTicks, event.quantity, priority)],
        nextPriority := if stays then st.nextPriority else st.nextPriority + 1))
  }

  function Swap(st: State, event: MarketDataEvent): (ProcessResult, State) {
    if event.quantity == 0 then (InvalidQuantity, st)
    else if event.orderId !in st.orders then (OrderNotFound, st)
    else if event.newOrderId != event.orderId && event.newOrderId in st.orders then (DuplicateOrderId, st)
    else
      var order := RefOrder(st.orders[event.orderId].side, event.priceTicks, event.quantity, st.nextPriority);
      (Applied, st.(
        orders := (st.orders - {event.orderId})[event.newOrderId := order],
        nextPriority := st.nextPriority + 1))
  }

  function Rest(capacity: nat, st: State, id: OrderId, side: Side, price: Price, quantity: Quantity): (ProcessResult,
                State) {
    if quantity == 0 then (InvalidQuantity, st)
    else if id in st.orders then (DuplicateOrderId, st)
    else if |st.orders| == capacity then (CapacityExhausted, st)
    else (Applied, st.(orders := st.orders[id := RefOrder(side, price, quantity, st.nextPriority)],
                       nextPriority := st.nextPriority + 1))
  }

  lemma RestCases(capacity: nat, st: State, id: OrderId, side: Side, price: Price, quantity: Quantity)
    ensures
      var rested := Rest(capacity, st, id, side, price, quantity);
      && (quantity == 0 ==> rested == (InvalidQuantity, st))
      && (quantity > 0 && id in st.orders ==> rested == (DuplicateOrderId, st))
      && (quantity > 0 && id !in st.orders && |st.orders| == capacity ==> rested == (CapacityExhausted, st))
      && (quantity > 0 && id !in st.orders && |st.orders| != capacity ==>
            rested == (Applied, st.(orders := st.orders[id := RefOrder(side, price, quantity, st.nextPriority)],
                                    nextPriority := st.nextPriority + 1)))
  {
  }

  function Execute(st: State, id: OrderId, quantity: Quantity): (ProcessResult, State) {
    if quantity == 0 then (InvalidQuantity, st)
    else if id !in st.orders then (OrderNotFound, st)
    else
      var order := st.orders[id];
      if quantity > order.quantity then (InvalidQuantity, st)
      else if quantity == order.quantity then (Applied, st.(orders := st.orders - {id}))
      else (Applied, st.(orders := st.orders[id := order.(quantity := order.quantity - quantity)]))
  }

  // ---------- match mode ----------

  predicate Crosses(req: OrderRequest, price: Price) {
    || req.orderType == Market
    || (if req.side == Buy then req.priceTicks >= price else req.priceTicks <= price)
  }

  predicate Candidate(orders: Orders, req: OrderRequest, id: OrderId) {
    id in orders && orders[id].side == Opposite(req.side) && Crosses(req, orders[id].price)
  }

  /** `a` is matched before `b`: better price, then lower priority, then the
      scan's own order. */
  predicate Precedes(side: Side, orders: Orders, a: OrderId, b: OrderId)
    requires a in orders && b in orders
  {
    || BetterPrice(side, orders[a].price, orders[b].price)
    || (orders[a].price == orders[b].price && orders[a].priority < orders[b].priority)
    || (orders[a].price == orders[b].price && orders[a].priority == orders[b].priority && a < b)
  }

  ghost predicate IsBest(orders: Orders, req: OrderRequest, id: OrderId) {
    && Candidate(orders, req, id)
    && forall other :: Candidate(orders, req, other) && other != id ==> Precedes(Opposite(req.side), orders, id, other)
  }

  ghost function BestMaker(orders: Orders, req: OrderRequest): (best: Option<OrderId>)
    ensures best.Some? ==> IsBest(orders, req, best.value)
    ensures best.None? ==> forall id :: !IsBest(orders, req, id)
  {
    if id :| IsBest(orders, req, id) then Some(id) else None
  }

  datatype Matched = Matched(fills: seq<Fill>, orders: Orders, remaining: Quantity)

  function Smaller(a: nat, b: nat): nat {
    if a <= b then a else b
  }

  /** One trade of `quantity` against the maker `id`. */
  function Hit(orders: Orders, id: OrderId, quantity: Quantity): Orders
    requires id in orders && quantity <= orders[id].quantity
  {
    if quantity == orders[id].quantity then orders - {id}
    else orders[id := orders[id].(quantity := orders[id].quantity - quantity)]
  }

  ghost function Match(orders: Orders, req: OrderRequest, remaining: Quantity, sequence: nat): Matched
    decreases |orders|, remaining
  {
    var best := BestMaker(orders, req);
    if remaining == 0 || best == None then Matched([], orders, remaining)
    else
      var traded := Smaller(remaining, orders[best.value].quantity);
      var fill := Fill(req.id, best.value, req.side, orders[best.value].price, traded, sequence);
      var rest := Match(Hit(orders, best.value, traded), req, remaining - traded, sequence + 1);
      rest.(fills := [fill] + rest.fills)
  }

  /** What the orders of `ids` offer to the request, by id. */
  function Offered(orders: Orders, req: OrderRequest, ids: set<OrderId>): map<OrderId, nat> {
    map id | id in ids && Candidate(orders, req, id) :: orders[id].quantity
  }

  ghost function Fillable(orders: Orders, req: OrderRequest): nat {
    Sum(Offered(orders, req, orders.Keys))
  }

  predicate MayRest(req: OrderRequest) {
    req.orderType == Limit && req.tif == GTC
  }

  ghost function Submit(capacity: nat, st: State, req: OrderRequest): (SubmitResult, seq<Fill>, State) {
    if req.kind == CancelOrder then
      if req.id in st.orders then (Canceled, [], st.(orders := st.orders - {req.id}))
      else (RejectedInvalid, [], st)
    else if req.quantity == 0 then (RejectedInvalid, [], st)
    else if MayRest(req) && req.id in st.orders then (RejectedDuplicate, [], st)
    else if req.tif == FOK && Fillable(st.orders, req) < req.quantity then (RejectedFOK, [], st)
    else
      var m := Match(st.orders, req, req.quantity, st.fillSequence);
      var after := State(m.orders, st.nextPriority, st.fillSequence + |m.fills|);
      if m.remaining == 0 then (FilledComplete, m.fills, after)
      else if MayRest(req) then
        var (rested, done) := Rest(capacity, after, req.id, req.side, req.priceTicks, m.remaining);
        if rested == CapacityExhausted then (RejectedCapacity, m.fills, after)
        else (if m.remaining == req.quantity then RestedNoFill else PartialFillRested, m.fills, done)
      else (if m.remaining == req.quantity then NoFillKilled else PartialFillKilled, m.fills, after)
  }

  // ---------- whole runs ----------

  datatype Action = Event(event: MarketDataEvent) | Request(request: OrderRequest)

  datatype Outcome = Processed(result: ProcessResult) | Submitted(outcome: SubmitResult, fills: seq<Fill>)

  ghost function Step(capacity: nat, st: State, action: Action): (Outcome, State) {
    match action
    case Event(event) =>
      var (r, after) := Process(capacity, st, event);
      (Processed(r), after)
    case Request(request) =>
      var (r, fills, after) := Submit(capacity, st, request);
      (Submitted(r, fills), after)
  }

  ghost function Run(capacity: nat, st: State, actions: seq<Action>): (seq<Outcome>, State) {
    if actions == [] then ([], st)
    else
      var (outcomes, before) := Run(capacity, st, actions[..|actions| - 1]);
      var (outcome, after) := Step(capacity, before, actions[|actions| - 1]);
      (outcomes + [outcome], after)
  }

  // ---------- stepping through a match ----------

  lemma BestUnique(orders: Orders, req: OrderRequest, a: OrderId, b: OrderId)
    requires IsBest(orders, req, a) && IsBest(orders, req, b)
    ensures a == b
  {
  }

  lemma MatchHits(orders: Orders, req: OrderRequest, remaining: Quantity, sequence: nat, id: OrderId)
    requires remaining > 0 && IsBest(orders, req, id)
    ensures
      var traded := Smaller(remaining, orders[id].quantity);
      var rest := Match(Hit(orders, id, traded), req, remaining - traded, sequence + 1);
      Match(orders, req, remaining, sequence)
      == rest.(fills := [Fill(req.id, id, req.side, orders[id].price, traded, sequence)] + rest.fills)
  {
    BestUnique(orders, req, id, BestMaker(orders, req).value);
  }

  lemma MatchStops(orders: Orders, req: OrderRequest, remaining: Quantity, sequence: nat)
    requires remaining == 0 || forall id :: !Candidate(orders, req, id)
    ensures Match(orders, req, remaining, sequence) == Matched([], orders, remaining)
  {
  }

  /** A match that is under way: the fills so far, then what matching the rest gives. */
  ghost predicate UnderWay(whole: Matched, fills: seq<Fill>, rest: Matched) {
    whole == rest.(fills := fills + rest.fills)
  }

  lemma UnderWayStep(whole: Matched, fills: seq<Fill>, orders: Orders, req: OrderRequest, remaining: Quantity,
                     sequence: nat, id: OrderId)
    requires remaining > 0 && IsBest(orders, req, id)
    requires UnderWay(whole, fills, Match(orders, req, remaining, sequence))
    ensures
      var traded := Smaller(remaining, orders[id].quantity);
      var fill := Fill(req.id, id, req.side, orders[id].price, traded, sequence);
      UnderWay(whole, fills + [fill], Match(Hit(orders, id, traded), req, remaining - traded, sequence + 1))
  {
    MatchHits(orders, req, remaining, sequence, id);
    var traded := Smaller(remaining, orders[id].quantity);
    var fill := Fill(req.id, id, req.side, orders[id].price, traded, sequence);
    var rest := Match(Hit(orders, id, traded), req, remaining - traded, sequence + 1);
    assert fills + ([fill] + rest.fills) == (fills + [fill]) + rest.fills;
  }

  // ---------- what the book can offer ----------

  lemma OfferWithout(orders: Orders, req: OrderRequest, ids: set<OrderId>, id: OrderId)
    requires id in ids
    ensures Sum(Offered(orders, req, ids))
         == Sum(Offered(orders, req, ids - {id})) + if Candidate(orders, req, id) then orders[id].quantity else 0
  {
    var offered := Offered(orders, req, ids);
    if Candidate(orders, req, id) {
      SumWithout(offered, id);
    }
    assert Offered(orders, req, ids - {id}) == offered - {id};
    assert !Candidate(orders, req, id) ==> offered - {id} == offered;
  }

  /** Matching only takes orders out. */
  lemma {:induction false} MatchKeys(orders: Orders, req: OrderRequest, remaining: Quantity, sequence: nat)
    ensures Match(orders, req, remaining, sequence).orders.Keys <= orders.Keys
    ensures Match(orders, req, remaining, sequence).remaining <= remaining
    decreases |orders|, remaining
  {
    var best := BestMaker(orders, req);
    if remaining > 0 && best.Some? {
      var traded := Smaller(remaining, orders[best.value].quantity);
      MatchKeys(Hit(orders, best.value, traded), req, remaining - traded, sequence + 1);
    }
  }
}
