/** What matching promises, for every book and every request: who is filled,
    at what price, how much, and what is left. */
module MatchingLaws {
  import opened MarketTypes
  import opened Sums
  import opened Reference
  import Matching
  import BookStates

  // ---------- there is a best maker whenever there is a candidate ----------

  lemma {:induction false} BestAmong(orders: Orders, req: OrderRequest, ids: set<OrderId>) returns (best: OrderId)
    requires ids != {} && ids <= orders.Keys && forall id :: id in ids ==> Candidate(orders, req, id)
    ensures best in ids
    ensures forall id :: id in ids && id != best ==> Precedes(Opposite(req.side), orders, best, id)
    decreases |ids|
  {
    var id :| id in ids;
    if ids == {id} {
      best := id;
    } else {
      var least := BestAmong(orders, req, ids - {id});
      best := if Precedes(Opposite(req.side), orders, id, least) then id else least;
      forall other | other in ids && other != best
        ensures Precedes(Opposite(req.side), orders, best, other)
      {
        assert other != id ==> other in ids - {id};
      }
    }
  }

  lemma BestExists(orders: Orders, req: OrderRequest)
    ensures BestMaker(orders, req).None? <==> forall id :: !Candidate(orders, req, id)
  {
    var candidates := set id | id in orders && Candidate(orders, req, id);
    if candidates != {} {
      var best := BestAmong(orders, req, candidates);
      forall other | Candidate(orders, req, other) && other != best
        ensures Precedes(Opposite(req.side), orders, best, other)
      {
        assert other in candidates;
      }
      assert IsBest(orders, req, best);
    } else {
      assert forall id :: Candidate(orders, req, id) ==> id in candidates;
    }
  }

  // ---------- how much is matched ----------

  lemma HitOffer(orders: Orders, req: OrderRequest, id: OrderId, traded: nat)
    requires Candidate(orders, req, id) && traded <= orders[id].quantity
    ensures Fillable(Hit(orders, id, traded), req) == Fillable(orders, req) - traded
    ensures Fillable(orders, req) >= traded
  {
    var offered, hit := Offered(orders, req, orders.Keys), Hit(orders, id, traded);
    SumWithout(offered, id);
    if traded == orders[id].quantity {
      assert Offered(hit, req, hit.Keys) == offered - {id};
    } else {
      SumReplaced(offered, id, orders[id].quantity - traded);
      assert Offered(hit, req, hit.Keys) == offered[id := orders[id].quantity - traded];
    }
  }

  /** Matching takes all it can: the whole request, or all that the book offers. */
  lemma {:induction false} MatchTakesAll(orders: Orders, req: OrderRequest, remaining: Quantity, sequence: nat)
    ensures Match(orders, req, remaining, sequence).remaining
         == if Fillable(orders, req) >= remaining then 0 else remaining - Fillable(orders, req)
    decreases |orders|, remaining
  {
    BestExists(orders, req);
    var best := BestMaker(orders, req);
    if best.None? {
      assert Offered(orders, req, orders.Keys) == map[];
    } else if remaining > 0 {
      var traded := Smaller(remaining, orders[best.value].quantity);
      HitOffer(orders, req, best.value, traded);
      MatchTakesAll(Hit(orders, best.value, traded), req, remaining - traded, sequence + 1);
    }
  }

  /** A fill-or-kill request is filled completely or does nothing at all. */
  lemma FillOrKill(capacity: nat, st: State, req: OrderRequest)
    requires req.kind == New && req.quantity > 0 && req.tif == FOK
    ensures
      var (r, fills, after) := Submit(capacity, st, req);
      if Fillable(st.orders, req) < req.quantity then r == RejectedFOK && fills == [] && after == st
      else r == FilledComplete && Filled(fills) == req.quantity
  {
    if Fillable(st.orders, req) >= req.quantity {
      MatchTakesAll(st.orders, req, req.quantity, st.fillSequence);
      FillsAddUp(st.orders, req, req.quantity, st.fillSequence);
    }
  }

  // ---------- conservation ----------

  ghost function Filled(fills: seq<Fill>): nat {
    if fills == [] then 0 else fills[0].quantity + Filled(fills[1..])
  }

  lemma {:induction false} FillsAddUp(orders: Orders, req: OrderRequest, remaining: Quantity, sequence: nat)
    ensures
      var m := Match(orders, req, remaining, sequence);
      Filled(m.fills) + m.remaining == remaining
    decreases |orders|, remaining
  {
    var best := BestMaker(orders, req);
    if remaining > 0 && best.Some? {
      var traded := Smaller(remaining, orders[best.value].quantity);
      FillsAddUp(Hit(orders, best.value, traded), req, remaining - traded, sequence + 1);
      var m := Match(orders, req, remaining, sequence);
      assert m.fills[1..] == Match(Hit(orders, best.value, traded), req, remaining - traded, sequence + 1).fills;
    }
  }

  /** The quantities that rest on one side, by id. */
  function OnSide(orders: Orders, side: Side): map<OrderId, nat> {
    map id | id in orders && orders[id].side == side :: orders[id].quantity
  }

  /** The opposite side shrinks by exactly the fills; the request's own side is untouched. */
  lemma {:induction false} MatchConserves(orders: Orders, req: OrderRequest, remaining: Quantity, sequence: nat)
    ensures
      var m := Match(orders, req, remaining, sequence);
      && Sum(OnSide(orders, Opposite(req.side))) == Sum(OnSide(m.orders, Opposite(req.side))) + Filled(m.fills)
      && OnSide(m.orders, req.side) == OnSide(orders, req.side)
    decreases |orders|, remaining
  {
    hide OnSide, Sum, BestMaker;
    var best := BestMaker(orders, req);
    if remaining > 0 && best.Some? {
      var id := best.value;
      var traded := Smaller(remaining, orders[id].quantity);
      var hit := Hit(orders, id, traded);
      MatchConserves(hit, req, remaining - traded, sequence + 1);
      HitShrinks(orders, id, traded);
      var m := Match(orders, req, remaining, sequence);
      hide Match, OnSide, Hit;
      assert m.fills[1..] == Match(hit, req, remaining - traded, sequence + 1).fills;
    }
  }

  lemma HitShrinks(orders: Orders, id: OrderId, traded: nat)
    requires id in orders && traded <= orders[id].quantity
    ensures Sum(OnSide(orders, orders[id].side)) == Sum(OnSide(Hit(orders, id, traded), orders[id].side)) + traded
    ensures OnSide(Hit(orders, id, traded), Opposite(orders[id].side)) == OnSide(orders, Opposite(orders[id].side))
  {
    var side, hit := orders[id].side, Hit(orders, id, traded);
    SumWithout(OnSide(orders, side), id);
    if traded == orders[id].quantity {
      assert OnSide(hit, side) == OnSide(orders, side) - {id};
    } else {
      SumReplaced(OnSide(orders, side), id, orders[id].quantity - traded);
      assert OnSide(hit, side) == OnSide(orders, side)[id := orders[id].quantity - traded];
    }
    assert OnSide(hit, Opposite(side)) == OnSide(orders, Opposite(side));
  }

  // ---------- price-time priority ----------

  /** The fills come in order: each maker precedes the next in price, then in
      time; each trades at its own price, which the request crosses; all but the
      last are filled completely; sequence numbers are consecutive. */
  ghost predicate InPriority(orders: Orders, req: OrderRequest, sequence: nat, fills: seq<Fill>) {
    && (forall i :: 0 <= i < |fills| ==>
          && Candidate(orders, req, fills[i].makerId)
          && fills[i].takerId == req.id && fills[i].takerSide == req.side
          && fills[i].priceTicks == orders[fills[i].makerId].price
          && fills[i].quantity <= orders[fills[i].makerId].quantity
          && fills[i].sequence == sequence + i)
    && (forall i :: 0 <= i < |fills| - 1 ==> fills[i].quantity == orders[fills[i].makerId].quantity)
    && (forall i, j :: 0 <= i < j < |fills| ==>
          fills[i].makerId != fills[j].makerId
            && Precedes(Opposite(req.side), orders, fills[i].makerId, fills[j].makerId))
  }

  lemma {:induction false} MatchInPriority(orders: Orders, req: OrderRequest, remaining: Quantity, sequence: nat)
    ensures InPriority(orders, req, sequence, Match(orders, req, remaining, sequence).fills)
    decreases |orders|, remaining
  {
    var best := BestMaker(orders, req);
    if remaining > 0 && best.Some? {
      var id := best.value;
      var traded := Smaller(remaining, orders[id].quantity);
      var rest := Match(Hit(orders, id, traded), req, remaining - traded, sequence + 1).fills;
      MatchInPriority(Hit(orders, id, traded), req, remaining - traded, sequence + 1);
      PriorityStep(orders, req, sequence, id, traded, rest,
        Fill(req.id, id, req.side, orders[id].price, traded, sequence));
    }
  }

  lemma PriorityStep(orders: Orders, req: OrderRequest, sequence: nat, id: OrderId, traded: nat, rest: seq<Fill>,
                     fill: Fill)
    requires IsBest(orders, req, id) && traded <= orders[id].quantity
    requires InPriority(Hit(orders, id, traded), req, sequence + 1, rest)
    requires traded < orders[id].quantity ==> rest == []
    requires fill == Fill(req.id, id, req.side, orders[id].price, traded, sequence)
    ensures InPriority(orders, req, sequence, [fill] + rest)
  {
  }

  // ---------- crossed books ----------

  ghost predicate Uncrossed(orders: Orders) {
    forall b, s :: b in orders && s in orders && orders[b].side == Buy && orders[s].side == Sell ==>
      orders[b].price < orders[s].price
  }

  /** A request that is not filled completely leaves nothing it could cross. */
  lemma {:induction false} MatchExhausts(orders: Orders, req: OrderRequest, remaining: Quantity, sequence: nat)
    ensures
      var m := Match(orders, req, remaining, sequence);
      m.remaining > 0 ==> forall id :: !Candidate(m.orders, req, id)
    decreases |orders|, remaining
  {
    BestExists(orders, req);
    var best := BestMaker(orders, req);
    if remaining > 0 && best.Some? {
      var traded := Smaller(remaining, orders[best.value].quantity);
      MatchExhausts(Hit(orders, best.value, traded), req, remaining - traded, sequence + 1);
    }
  }

  /** Matching changes no side, price or priority. */
  lemma {:induction false} MatchFaces(orders: Orders, req: OrderRequest, remaining: Quantity, sequence: nat)
    ensures
      var m := Match(orders, req, remaining, sequence);
      forall id :: id in m.orders ==> id in orders && m.orders[id] == orders[id].(quantity := m.orders[id].quantity)
    decreases |orders|, remaining
  {
    var best := BestMaker(orders, req);
    if remaining > 0 && best.Some? {
      var traded := Smaller(remaining, orders[best.value].quantity);
      MatchFaces(Hit(orders, best.value, traded), req, remaining - traded, sequence + 1);
    }
  }

  /** The four ways a request can leave the book. */
  lemma SubmitLeaves(capacity: nat, st: State, req: OrderRequest)
    ensures
      var after := Submit(capacity, st, req).2;
      var m := Match(st.orders, req, req.quantity, st.fillSequence);
      || after == st
      || (after.orders == st.orders - {req.id} && after.nextPriority == st.nextPriority)
      || (after.orders == m.orders && after.nextPriority == st.nextPriority)
      || (m.remaining > 0 && MayRest(req) && req.id !in m.orders && after.nextPriority == st.nextPriority + 1
          && after.orders == m.orders[req.id := RefOrder(req.side, req.priceTicks, m.remaining, st.nextPriority)])
  {
    hide Match, Fillable;
  }

  lemma SubmitKeepsUncrossed(capacity: nat, st: State, req: OrderRequest)
    requires Uncrossed(st.orders)
    ensures Uncrossed(Submit(capacity, st, req).2.orders)
  {
    SubmitLeaves(capacity, st, req);
    MatchFaces(st.orders, req, req.quantity, st.fillSequence);
    MatchExhausts(st.orders, req, req.quantity, st.fillSequence);
    var m := Match(st.orders, req, req.quantity, st.fillSequence);
    hide Match, Submit;
    assert Uncrossed(m.orders);
    if m.remaining > 0 && MayRest(req) {
      forall id | id in m.orders && m.orders[id].side == Opposite(req.side)
        ensures !Crosses(req, m.orders[id].price)
      {
        assert !Candidate(m.orders, req, id);
      }
    }
  }

  /** The same of the book itself, which keeps what was matched when the level index
      refuses the remainder. */
  lemma OutcomeKeepsUncrossed(capacity: nat, st: State, req: OrderRequest, r: SubmitResult, fills: seq<Fill>,
                              after: State, anyEmpty: bool)
    requires Uncrossed(st.orders) && Matching.SubmitOutcome(capacity, st, req, r, fills, after, anyEmpty)
    ensures Uncrossed(after.orders)
  {
    SubmitKeepsUncrossed(capacity, st, req);
    MatchFaces(st.orders, req, req.quantity, st.fillSequence);
    hide Match, Submit, Matching.Unrestable;
  }

  // ---------- capacity ----------

  /** A request that is matched but not completely has taken an order out. */
  lemma {:induction false} MatchMakesRoom(orders: Orders, req: OrderRequest, remaining: Quantity, sequence: nat)
    ensures
      var m := Match(orders, req, remaining, sequence);
      m.remaining > 0 ==> |m.orders| + |m.fills| == |orders|
    decreases |orders|, remaining
  {
    var best := BestMaker(orders, req);
    if remaining > 0 && best.Some? {
      var traded := Smaller(remaining, orders[best.value].quantity);
      MatchMakesRoom(Hit(orders, best.value, traded), req, remaining - traded, sequence + 1);
    }
  }

  /** The reference refuses a remainder for capacity only when nothing was filled: the
      book was full, and stays as it was. */
  lemma RefusedOnlyWhole(capacity: nat, st: State, req: OrderRequest)
    requires |st.orders| <= capacity
    ensures
      var (r, fills, after) := Submit(capacity, st, req);
      r == RejectedCapacity ==> fills == [] && after == st && |st.orders| == capacity
  {
    if req.kind == New {
      MatchMakesRoom(st.orders, req, req.quantity, st.fillSequence);
      NothingFilled(st.orders, req, req.quantity, st.fillSequence);
      MatchKeys(st.orders, req, req.quantity, st.fillSequence);
    }
  }

  /** The book itself may also lose a remainder behind fills, or from a book that is
      not full: exactly when its level index has no Empty slot and no order rests at
      the request's price. */
  lemma LostRemainder(capacity: nat, st: State, req: OrderRequest, r: SubmitResult, fills: seq<Fill>, after: State,
                      anyEmpty: bool)
    requires |st.orders| <= capacity && Matching.SubmitOutcome(capacity, st, req, r, fills, after, anyEmpty)
    ensures r == RejectedCapacity && (fills != [] || |st.orders| < capacity)
        <==> Matching.Unrestable(capacity, st, req, anyEmpty)
    ensures r == RejectedCapacity && |st.orders| == capacity && fills == [] ==> after == st
    ensures r == RejectedCapacity && |st.orders| < capacity ==>
      !anyEmpty && !BookStates.OrderAt(after.orders, req.side, req.priceTicks)
  {
    RefusedOnlyWhole(capacity, st, req);
    if Matching.Unrestable(capacity, st, req, anyEmpty) {
      RestingRoom(capacity, st, req);
    }
    hide Match, Submit, Fillable, BookStates.OrderAt;
  }

  /** A remainder rests only where there is room. */
  lemma RestingRoom(capacity: nat, st: State, req: OrderRequest)
    requires Submit(capacity, st, req).0 in {RestedNoFill, PartialFillRested}
    ensures Submit(capacity, st, req).1 == Match(st.orders, req, req.quantity, st.fillSequence).fills
    ensures |Match(st.orders, req, req.quantity, st.fillSequence).orders| != capacity
    ensures Submit(capacity, st, req).1 == [] ==> |st.orders| != capacity
  {
    NothingFilled(st.orders, req, req.quantity, st.fillSequence);
    MatchKeys(st.orders, req, req.quantity, st.fillSequence);
    hide Match, Fillable;
  }

  /** When the reference rests something. */
  lemma RestsWhen(capacity: nat, st: State, req: OrderRequest)
    ensures
      var m := Match(st.orders, req, req.quantity, st.fillSequence);
      Submit(capacity, st, req).0 in {RestedNoFill, PartialFillRested} <==>
        && req.kind == New && req.quantity > 0 && MayRest(req) && req.id !in st.orders
        && m.remaining > 0 && |m.orders| != capacity
  {
    hide Match, Fillable;
    MatchKeys(st.orders, req, req.quantity, st.fillSequence);
  }

  /** Behind a match that leaves a remainder there is room if there was room before or
      something was filled. */
  lemma RoomBehind(capacity: nat, orders: Orders, req: OrderRequest, sequence: nat)
    requires |orders| <= capacity && req.quantity > 0
    ensures
      var m := Match(orders, req, req.quantity, sequence);
      m.remaining > 0 ==> (|m.orders| != capacity <==> |orders| < capacity || exists id :: Candidate(orders, req, id))
  {
    BestExists(orders, req);
    MatchMakesRoom(orders, req, req.quantity, sequence);
    hide Candidate, Hit, IsBest;
  }

  /** Matching leaves the prices of the request's own side as they are. */
  lemma OwnPrices(orders: Orders, req: OrderRequest, sequence: nat, price: Price)
    ensures BookStates.OrderAt(Match(orders, req, req.quantity, sequence).orders, req.side, price)
        <==> BookStates.OrderAt(orders, req.side, price)
  {
    hide Match;
    var m := Match(orders, req, req.quantity, sequence);
    MatchFaces(orders, req, req.quantity, sequence);
    MatchConserves(orders, req, req.quantity, sequence);
    if id :| id in orders && orders[id].side == req.side && orders[id].price == price {
      assert id in OnSide(m.orders, req.side);
    }
  }

  /** The same condition as a caller could check it before the call: a limit order of
      a new id may rest, what it could match falls short of it, the book has room for
      the remainder or will have, no order of its side rests at its price, and the
      level index has no Empty slot. */
  lemma LostRemainderBefore(capacity: nat, st: State, req: OrderRequest, anyEmpty: bool)
    requires |st.orders| <= capacity
    ensures Matching.Unrestable(capacity, st, req, anyEmpty) <==>
      && req.kind == New && req.quantity > 0 && MayRest(req) && req.id !in st.orders
      && Fillable(st.orders, req) < req.quantity
      && (|st.orders| < capacity || exists id :: Candidate(st.orders, req, id))
      && !anyEmpty && !BookStates.OrderAt(st.orders, req.side, req.priceTicks)
  {
    hide Match, Fillable, Submit, Candidate, BookStates.OrderAt;
    RestsWhen(capacity, st, req);
    MatchTakesAll(st.orders, req, req.quantity, st.fillSequence);
    OwnPrices(st.orders, req, st.fillSequence, req.priceTicks);
    if req.quantity > 0 {
      RoomBehind(capacity, st.orders, req, st.fillSequence);
    }
  }

  lemma NothingFilled(orders: Orders, req: OrderRequest, remaining: Quantity, sequence: nat)
    ensures
      var m := Match(orders, req, remaining, sequence);
      m.fills == [] ==> m.orders == orders && m.remaining == remaining
  {
  }

  // ---------- whole runs ----------

  /** Resting orders have something left, and no two share a priority, so that
      price and priority alone decide which maker is best. */
  ghost predicate Ranked(st: State) {
    && (forall id :: id in st.orders ==> st.orders[id].quantity > 0 && st.orders[id].priority < st.nextPriority)
    && (forall a, b :: a in st.orders && b in st.orders && a != b ==> st.orders[a].priority != st.orders[b].priority)
  }

  lemma RankedWith(st: State, id: OrderId, order: RefOrder)
    requires Ranked(st) && order.quantity > 0
    ensures order.priority == st.nextPriority ==>
      Ranked(st.(orders := st.orders[id := order], nextPriority := st.nextPriority + 1))
    ensures id in st.orders && order.priority == st.orders[id].priority ==>
      Ranked(st.(orders := st.orders[id := order]))
  {
  }

  lemma RankedWithout(st: State, id: OrderId)
    requires Ranked(st)
    ensures Ranked(st.(orders := st.orders - {id}))
  {
  }

  lemma RestKeepsRanked(capacity: nat, st: State, id: OrderId, side: Side, price: Price, quantity: Quantity)
    requires Ranked(st)
    ensures Ranked(Rest(capacity, st, id, side, price, quantity).1)
  {
    if quantity > 0 {
      RankedWith(st, id, RefOrder(side, price, quantity, st.nextPriority));
    }
    hide Ranked;
  }

  lemma AmendKeepsRanked(st: State, event: MarketDataEvent)
    requires Ranked(st)
    ensures Ranked(Amend(st, event).1)
  {
    var id := event.orderId;
    if event.quantity > 0 && id in st.orders {
      RankedWith(st, id, RefOrder(event.side, event.priceTicks, event.quantity, st.nextPriority));
      RankedWith(st, id, RefOrder(event.side, event.priceTicks, event.quantity, st.orders[id].priority));
    }
    hide Ranked;
  }

  lemma SwapKeepsRanked(st: State, event: MarketDataEvent)
    requires Ranked(st)
    ensures Ranked(Swap(st, event).1)
  {
    var id := event.orderId;
    if event.quantity > 0 && id in st.orders {
      RankedWithout(st, id);
      RankedWith(st.(orders := st.orders - {id}), event.newOrderId,
                 RefOrder(st.orders[id].side, event.priceTicks, event.quantity, st.nextPriority));
    }
    hide Ranked;
  }

  lemma ExecuteKeepsRanked(st: State, id: OrderId, quantity: Quantity)
    requires Ranked(st)
    ensures Ranked(Execute(st, id, quantity).1)
  {
    RankedWithout(st, id);
    if id in st.orders && 0 < quantity < st.orders[id].quantity {
      RankedWith(st, id, st.orders[id].(quantity := st.orders[id].quantity - quantity));
    }
    hide Ranked;
  }

  lemma ProcessKeepsRanked(capacity: nat, st: State, event: MarketDataEvent)
    requires Ranked(st)
    ensures Ranked(Process(capacity, st, event).1)
  {
    hide Ranked, Rest, Amend, Swap, Execute;
    match event.kind
    case Add => RestKeepsRanked(capacity, st, event.orderId, event.side, event.priceTicks, event.quantity);
    case Modify => AmendKeepsRanked(st, event);
    case Cancel => RankedWithout(st, event.orderId);
    case Trade => ExecuteKeepsRanked(st, event.orderId, event.quantity);
    case Reduce => ExecuteKeepsRanked(st, event.orderId, event.quantity);
    case Replace => SwapKeepsRanked(st, event);
  }

  lemma {:induction false} MatchKeepsRanked(orders: Orders, req: OrderRequest, remaining: Quantity, sequence: nat)
    requires forall id :: id in orders ==> orders[id].quantity > 0
    ensures forall id :: id in Match(orders, req, remaining, sequence).orders ==>
      Match(orders, req, remaining, sequence).orders[id].quantity > 0
    decreases |orders|, remaining
  {
    var best := BestMaker(orders, req);
    if remaining > 0 && best.Some? {
      var traded := Smaller(remaining, orders[best.value].quantity);
      MatchKeepsRanked(Hit(orders, best.value, traded), req, remaining - traded, sequence + 1);
    }
  }

  lemma SubmitKeepsRanked(capacity: nat, st: State, req: OrderRequest)
    requires Ranked(st)
    ensures Ranked(Submit(capacity, st, req).2)
  {
    hide Match, Submit;
    SubmitLeaves(capacity, st, req);
    var m := Match(st.orders, req, req.quantity, st.fillSequence);
    MatchKeepsRanked(st.orders, req, req.quantity, st.fillSequence);
    MatchFaces(st.orders, req, req.quantity, st.fillSequence);
    var matched := st.(orders := m.orders);
    assert Ranked(matched);
    RankedWithout(st, req.id);
    if m.remaining > 0 {
      RankedWith(matched, req.id, RefOrder(req.side, req.priceTicks, m.remaining, st.nextPriority));
    }
  }

  lemma {:induction false} RunRanked(capacity: nat, st: State, actions: seq<Action>)
    requires Ranked(st)
    ensures Ranked(Run(capacity, st, actions).1)
  {
    if actions != [] {
      RunRanked(capacity, st, actions[..|actions| - 1]);
      var before := Run(capacity, st, actions[..|actions| - 1]).1;
      match actions[|actions| - 1]
      case Event(event) => ProcessKeepsRanked(capacity, before, event);
      case Request(request) => SubmitKeepsRanked(capacity, before, request);
    }
  }

  /** The answer to a request, and whether the level index had an Empty slot left. */
  datatype Answer = Answer(result: SubmitResult, fills: seq<Fill>, anyEmpty: bool)

  /** A book that takes nothing but requests is never crossed, whether they are
      answered as the reference does or a remainder is refused. */
  lemma {:induction false} RequestsKeepUncrossed(capacity: nat, books: seq<State>, requests: seq<OrderRequest>,
                                                 answers: seq<Answer>)
    requires |requests| == |answers| == |books| - 1 && Uncrossed(books[0].orders)
    requires forall i :: 0 <= i < |requests| ==>
      Matching.SubmitOutcome(capacity, books[i], requests[i], answers[i].result, answers[i].fills, books[i + 1],
                             answers[i].anyEmpty)
    ensures Uncrossed(books[|requests|].orders)
  {
    hide Uncrossed, Matching.SubmitOutcome;
    if requests != [] {
      var n := |requests| - 1;
      RequestsKeepUncrossed(capacity, books[..n + 1], requests[..n], answers[..n]);
      OutcomeKeepsUncrossed(capacity, books[n], requests[n], answers[n].result, answers[n].fills, books[n + 1],
                            answers[n].anyEmpty);
    }
  }

  /** In a ranked book the best maker is the one with the best price and, at that
      price, the lowest priority. */
  lemma BestByPriceAndPriority(st: State, req: OrderRequest, id: OrderId)
    requires Ranked(st)
    ensures IsBest(st.orders, req, id) <==>
      && Candidate(st.orders, req, id)
      && forall other :: Candidate(st.orders, req, other) && other != id ==>
           || BetterPrice(Opposite(req.side), st.orders[id].price, st.orders[other].price)
           || (st.orders[id].price == st.orders[other].price && st.orders[id].priority < st.orders[other].priority)
  {
  }
}
