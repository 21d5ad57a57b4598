/** What a client request may count on, in prices, quantities and ids alone: which
    answer it gets, whom it trades with, and what it leaves behind. All of it is said
    of `SubmitOutcome`, so it holds of the book itself, with its level index. */
module RequestLaws {
  import opened MarketTypes
  import opened Sums
  import Reference
  import Matching
  import MatchingLaws
  import BookStates

  /** What rests opposite the request, at its limit or better; for a market request
      everything opposite. */
  function InsideLimit(orders: Reference.Orders, req: OrderRequest): map<OrderId, nat> {
    map id |
      && id in orders && orders[id].side != req.side
      && (req.orderType == Limit && req.side == Buy ==> orders[id].price <= req.priceTicks)
      && (req.orderType == Limit && req.side == Sell ==> orders[id].price >= req.priceTicks)
      :: orders[id].quantity
  }

  lemma InsideIsOffered(orders: Reference.Orders, req: OrderRequest)
    ensures Reference.Fillable(orders, req) == Sum(InsideLimit(orders, req))
    ensures InsideLimit(orders, req) == map[] <==> forall id :: !Reference.Candidate(orders, req, id)
  {
    assert Reference.Offered(orders, req, orders.Keys) == InsideLimit(orders, req);
    if id :| Reference.Candidate(orders, req, id) {
      assert id in InsideLimit(orders, req);
    }
  }

  // ---------- which answer ----------

  /** Every answer but those for a remainder, by what the request is and what rests
      inside its limit. */
  lemma Answers(capacity: nat, st: Reference.State, req: OrderRequest, r: SubmitResult, fills: seq<Fill>,
                after: Reference.State, anyEmpty: bool)
    requires Matching.SubmitOutcome(capacity, st, req, r, fills, after, anyEmpty)
    ensures
      var offered := Sum(InsideLimit(st.orders, req));
      var rests := req.orderType == Limit && req.tif == GTC;
      var live := req.kind == New && req.quantity > 0 && !(rests && req.id in st.orders);
      var short := live && req.tif != FOK && offered < req.quantity;
      && (r == Canceled <==> req.kind == CancelOrder && req.id in st.orders)
      && (r == RejectedInvalid <==>
            (req.kind == CancelOrder && req.id !in st.orders) || (req.kind == New && req.quantity == 0))
      && (r == RejectedDuplicate <==> req.kind == New && req.quantity > 0 && rests && req.id in st.orders)
      && (r == RejectedFOK <==> live && req.tif == FOK && offered < req.quantity)
      && (r == FilledComplete <==> live && offered >= req.quantity)
      && (r == NoFillKilled <==> short && !rests && offered == 0)
      && (r == PartialFillKilled <==> short && !rests && offered > 0)
      && (r in {RestedNoFill, PartialFillRested, RejectedCapacity} <==> short && rests)
      && (r == RestedNoFill ==> offered == 0) && (r == PartialFillRested ==> offered > 0)
  {
    InsideIsOffered(st.orders, req);
    MatchingLaws.MatchTakesAll(st.orders, req, req.quantity, st.fillSequence);
    Reference.MatchKeys(st.orders, req, req.quantity, st.fillSequence);
    hide InsideLimit, Sum, Reference.Match, Reference.Fillable, BookStates.OrderAt;
  }

  /** A remainder that may rest is refused in two cases: the book is full and nothing
      rests inside the limit, or the level index has no Empty slot left and nothing of
      the request's side rests at its price. */
  lemma Refused(capacity: nat, st: Reference.State, req: OrderRequest, r: SubmitResult, fills: seq<Fill>,
                after: Reference.State, anyEmpty: bool)
    requires |st.orders| <= capacity && Matching.SubmitOutcome(capacity, st, req, r, fills, after, anyEmpty)
    requires r in {RestedNoFill, PartialFillRested, RejectedCapacity}
    ensures r == RejectedCapacity <==>
      || (|st.orders| == capacity && InsideLimit(st.orders, req) == map[])
      || (!anyEmpty && forall id :: id in st.orders && st.orders[id].side == req.side ==>
            st.orders[id].price != req.priceTicks)
  {
    Answers(capacity, st, req, r, fills, after, anyEmpty);
    InsideIsOffered(st.orders, req);
    MatchingLaws.LostRemainderBefore(capacity, st, req, anyEmpty);
    MatchingLaws.RestsWhen(capacity, st, req);
    MatchingLaws.RoomBehind(capacity, st.orders, req, st.fillSequence);
    MatchingLaws.MatchTakesAll(st.orders, req, req.quantity, st.fillSequence);
    hide InsideLimit, Sum, Reference.Match, Reference.Fillable, Reference.Submit, Reference.Candidate;
  }

  // ---------- whom it trades with ----------

  function Makers(fills: seq<Fill>): set<OrderId> {
    set fill | fill in fills :: fill.makerId
  }

  /** How a match goes: the fills come off their makers, and no other order changes. */
  ghost predicate Traded(orders: Reference.Orders, fills: seq<Fill>, now: Reference.Orders) {
    && now.Keys <= orders.Keys
    && (forall fill :: fill in fills ==> TradedAt(orders, fill, now))
    && (forall id :: id in orders && id !in Makers(fills) ==> id in now && now[id] == orders[id])
  }

  /** The maker of a fill was there, and exactly the fill has come off it. */
  ghost predicate TradedAt(orders: Reference.Orders, fill: Fill, now: Reference.Orders) {
    && fill.makerId in orders
    && fill.quantity <= orders[fill.makerId].quantity
    && (fill.makerId in now <==> fill.quantity < orders[fill.makerId].quantity)
    && (fill.makerId in now ==>
          now[fill.makerId] == orders[fill.makerId].(quantity := orders[fill.makerId].quantity - fill.quantity))
  }

  lemma {:induction false} MatchTrades(orders: Reference.Orders, req: OrderRequest, remaining: Quantity, sequence: nat)
    ensures
      var m := Reference.Match(orders, req, remaining, sequence);
      Traded(orders, m.fills, m.orders)
    decreases |orders|, remaining
  {
    hide Traded;
    var best := Reference.BestMaker(orders, req);
    if remaining > 0 && best.Some? {
      var id := best.value;
      var traded := Reference.Smaller(remaining, orders[id].quantity);
      var hit := Reference.Hit(orders, id, traded);
      var rest := Reference.Match(hit, req, remaining - traded, sequence + 1);
      var fill := Fill(req.id, id, req.side, orders[id].price, traded, sequence);
      MatchTrades(hit, req, remaining - traded, sequence + 1);
      if traded == orders[id].quantity {
        TradedWhole(orders, fill, rest.fills, rest.orders);
      } else {
        TradedPart(orders, fill);
        assert [fill] + rest.fills == [fill];
      }
    } else {
      NothingTraded(orders);
    }
  }

  lemma NothingTraded(orders: Reference.Orders)
    ensures Traded(orders, [], orders)
  {
  }

  lemma TradedWhole(orders: Reference.Orders, fill: Fill, rest: seq<Fill>, now: Reference.Orders)
    requires fill.makerId in orders && fill.quantity == orders[fill.makerId].quantity
    requires Traded(orders - {fill.makerId}, rest, now)
    ensures Traded(orders, [fill] + rest, now)
  {
    forall other | other in rest
      ensures TradedAt(orders, other, now)
    {
      assert TradedAt(orders - {fill.makerId}, other, now);
    }
    assert fill in [fill] + rest;
    assert forall id :: id in Makers(rest) ==> id in Makers([fill] + rest);
  }

  lemma TradedPart(orders: Reference.Orders, fill: Fill)
    requires fill.makerId in orders && fill.quantity < orders[fill.makerId].quantity
    ensures Traded(orders, [fill], Reference.Hit(orders, fill.makerId, fill.quantity))
  {
    assert fill in [fill];
    assert fill.makerId in Makers([fill]);
  }

  /** Every fill is a trade of the request with an order that rested opposite, at that
      order's price, inside the limit, for no more than it had. */
  lemma FillsInsideLimit(capacity: nat, st: Reference.State, req: OrderRequest, r: SubmitResult, fills: seq<Fill>,
                         after: Reference.State, anyEmpty: bool)
    requires Matching.SubmitOutcome(capacity, st, req, r, fills, after, anyEmpty)
    ensures forall i :: 0 <= i < |fills| ==>
      var fill := fills[i];
      && fill.takerId == req.id && fill.takerSide == req.side && fill.sequence == st.fillSequence + i
      && fill.makerId in st.orders && st.orders[fill.makerId].side != req.side
      && fill.priceTicks == st.orders[fill.makerId].price
      && fill.quantity <= st.orders[fill.makerId].quantity
      && (req.orderType == Limit && req.side == Buy ==> fill.priceTicks <= req.priceTicks)
      && (req.orderType == Limit && req.side == Sell ==> fill.priceTicks >= req.priceTicks)
    ensures after.fillSequence == st.fillSequence + |fills|
  {
    FillsOfMatch(capacity, st, req, r, fills, after, anyEmpty);
    MatchingLaws.MatchInPriority(st.orders, req, req.quantity, st.fillSequence);
    hide Reference.Match, Reference.Submit, Matching.SubmitOutcome, Reference.Precedes;
  }

  /** The fills are those of the match, or there are none. */
  lemma FillsOfMatch(capacity: nat, st: Reference.State, req: OrderRequest, r: SubmitResult, fills: seq<Fill>,
                     after: Reference.State, anyEmpty: bool)
    requires Matching.SubmitOutcome(capacity, st, req, r, fills, after, anyEmpty)
    ensures fills == [] || fills == Reference.Match(st.orders, req, req.quantity, st.fillSequence).fills
    ensures after.fillSequence == st.fillSequence + |fills|
    ensures r !in {Canceled, RejectedInvalid, RejectedDuplicate, RejectedFOK} ==>
      fills == Reference.Match(st.orders, req, req.quantity, st.fillSequence).fills
  {
    hide Reference.Match, Reference.Fillable, BookStates.OrderAt;
  }

  /** Better prices trade first, and at one price the order that came first; in a book
      whose priorities are all different that settles the order of the fills. All
      makers but the last are taken completely. */
  lemma FillsInOrder(capacity: nat, st: Reference.State, req: OrderRequest, r: SubmitResult, fills: seq<Fill>,
                     after: Reference.State, anyEmpty: bool)
    requires Matching.SubmitOutcome(capacity, st, req, r, fills, after, anyEmpty)
    ensures forall i, j :: 0 <= i < j < |fills| ==>
      && fills[i].makerId in st.orders && fills[j].makerId in st.orders && fills[i].makerId != fills[j].makerId
      && fills[i].quantity == st.orders[fills[i].makerId].quantity
      && (req.side == Buy ==> fills[i].priceTicks <= fills[j].priceTicks)
      && (req.side == Sell ==> fills[i].priceTicks >= fills[j].priceTicks)
      && (fills[i].priceTicks == fills[j].priceTicks ==>
            st.orders[fills[i].makerId].priority <= st.orders[fills[j].makerId].priority)
  {
    FillsOfMatch(capacity, st, req, r, fills, after, anyEmpty);
    MatchingLaws.MatchInPriority(st.orders, req, req.quantity, st.fillSequence);
    hide Reference.Match, Reference.Submit, Matching.SubmitOutcome;
  }

  // ---------- what it leaves behind ----------

  /** The orders behind a request: exactly its fills have come off their makers, and a
      remainder that rests is there with the last priority. Nothing else changes. */
  lemma LeavesBehind(capacity: nat, st: Reference.State, req: OrderRequest, r: SubmitResult, fills: seq<Fill>,
                     after: Reference.State, anyEmpty: bool)
    requires Matching.SubmitOutcome(capacity, st, req, r, fills, after, anyEmpty)
    ensures r == Canceled ==>
      && req.id in st.orders && req.id !in after.orders && fills == []
      && forall id :: id != req.id ==>
           (id in after.orders <==> id in st.orders) && (id in st.orders ==> after.orders[id] == st.orders[id])
    ensures r in {RejectedInvalid, RejectedDuplicate, RejectedFOK} ==> after == st && fills == []
    ensures r in {FilledComplete, NoFillKilled, PartialFillKilled, RejectedCapacity} ==>
      Traded(st.orders, fills, after.orders) && after.nextPriority == st.nextPriority
    ensures r in {RestedNoFill, PartialFillRested} ==>
      && req.id !in st.orders && req.id in after.orders
      && Traded(st.orders, fills, after.orders - {req.id})
      && after.orders[req.id].side == req.side && after.orders[req.id].price == req.priceTicks
      && after.orders[req.id].priority == st.nextPriority && after.nextPriority == st.nextPriority + 1
      && after.orders[req.id].quantity + MatchingLaws.Filled(fills) == req.quantity
      && after.orders[req.id].quantity > 0
  {
    hide Reference.Match, Matching.SubmitOutcome, Traded, MatchingLaws.Filled, Makers;
    StateBehind(capacity, st, req, r, fills, after, anyEmpty);
    MatchTrades(st.orders, req, req.quantity, st.fillSequence);
    MatchingLaws.FillsAddUp(st.orders, req, req.quantity, st.fillSequence);
    if r in {RestedNoFill, PartialFillRested} {
      var m := Reference.Match(st.orders, req, req.quantity, st.fillSequence);
      assert after.orders - {req.id} == m.orders;
    }
  }

  /** The same in terms of the match. */
  ghost predicate Behind(st: Reference.State, req: OrderRequest, m: Reference.Matched, r: SubmitResult,
                         fills: seq<Fill>, after: Reference.State) {
    && (r == Canceled ==>
          req.id in st.orders && fills == [] && after == st.(orders := st.orders - {req.id}))
    && (r in {RejectedInvalid, RejectedDuplicate, RejectedFOK} ==> after == st && fills == [])
    && (r in {FilledComplete, NoFillKilled, PartialFillKilled, RejectedCapacity} ==>
          fills == m.fills && after.orders == m.orders && after.nextPriority == st.nextPriority)
    && (r in {RestedNoFill, PartialFillRested} ==>
          && req.id !in st.orders && req.id !in m.orders && m.remaining > 0 && fills == m.fills
          && after.orders == m.orders[req.id := RefOrder(req.side, req.priceTicks, m.remaining, st.nextPriority)]
          && after.nextPriority == st.nextPriority + 1)
  }

  lemma ReferenceBehind(capacity: nat, st: Reference.State, req: OrderRequest)
    ensures
      var (r, fills, after) := Reference.Submit(capacity, st, req);
      Behind(st, req, Reference.Match(st.orders, req, req.quantity, st.fillSequence), r, fills, after)
  {
    hide Reference.Match, Reference.Hit, Reference.Smaller, Reference.Fillable, Reference.Rest;
    var m := Reference.Match(st.orders, req, req.quantity, st.fillSequence);
    Reference.MatchKeys(st.orders, req, req.quantity, st.fillSequence);
    Reference.RestCases(capacity, Reference.State(m.orders, st.nextPriority, st.fillSequence + |m.fills|), req.id,
                        req.side, req.priceTicks, m.remaining);
  }

  lemma RefusedBehind(st: Reference.State, req: OrderRequest, m: Reference.Matched, after: Reference.State)
    requires after == Reference.State(m.orders, st.nextPriority, st.fillSequence + |m.fills|)
    ensures Behind(st, req, m, RejectedCapacity, m.fills, after)
  {
  }

  lemma StateBehind(capacity: nat, st: Reference.State, req: OrderRequest, r: SubmitResult, fills: seq<Fill>,
                    after: Reference.State, anyEmpty: bool)
    requires Matching.SubmitOutcome(capacity, st, req, r, fills, after, anyEmpty)
    ensures Behind(st, req, Reference.Match(st.orders, req, req.quantity, st.fillSequence), r, fills, after)
  {
    hide Reference.Match, Reference.Submit, Behind;
    ReferenceBehind(capacity, st, req);
    var m := Reference.Match(st.orders, req, req.quantity, st.fillSequence);
    if Matching.Unrestable(capacity, st, req, anyEmpty) {
      RefusedBehind(st, req, m, after);
    }
  }

  /** A request that was matched and has something left over leaves nothing opposite
      that it could still have traded with: for a limit request nothing at its limit
      or better, for a market request nothing at all. */
  lemma NothingLeftInside(capacity: nat, st: Reference.State, req: OrderRequest, r: SubmitResult, fills: seq<Fill>,
                          after: Reference.State, anyEmpty: bool)
    requires Matching.SubmitOutcome(capacity, st, req, r, fills, after, anyEmpty)
    requires r !in {Canceled, RejectedInvalid, RejectedDuplicate, RejectedFOK}
    requires MatchingLaws.Filled(fills) < req.quantity
    ensures forall id :: id in after.orders && after.orders[id].side != req.side ==>
      && req.orderType == Limit
      && (req.side == Buy ==> after.orders[id].price > req.priceTicks)
      && (req.side == Sell ==> after.orders[id].price < req.priceTicks)
  {
    var m := Reference.Match(st.orders, req, req.quantity, st.fillSequence);
    FillsOfMatch(capacity, st, req, r, fills, after, anyEmpty);
    MatchingLaws.FillsAddUp(st.orders, req, req.quantity, st.fillSequence);
    MatchingLaws.MatchExhausts(st.orders, req, req.quantity, st.fillSequence);
    MatchingLaws.SubmitLeaves(capacity, st, req);
    OppositeOfMatch(capacity, st, req, r, fills, after, anyEmpty);
    hide Reference.Match, Reference.Fillable, Reference.Submit, Matching.SubmitOutcome;
    forall id | id in after.orders && after.orders[id].side != req.side
      ensures !Reference.Crosses(req, after.orders[id].price)
    {
      assert !Reference.Candidate(m.orders, req, id);
    }
  }

  lemma OppositeOfMatch(capacity: nat, st: Reference.State, req: OrderRequest, r: SubmitResult, fills: seq<Fill>,
                        after: Reference.State, anyEmpty: bool)
    requires Matching.SubmitOutcome(capacity, st, req, r, fills, after, anyEmpty)
    requires r !in {Canceled, RejectedInvalid, RejectedDuplicate, RejectedFOK}
    ensures forall id :: id in after.orders && after.orders[id].side != req.side ==>
      var m := Reference.Match(st.orders, req, req.quantity, st.fillSequence);
      id in m.orders && m.orders[id] == after.orders[id]
  {
    hide Reference.Match, Reference.Fillable, BookStates.OrderAt;
  }

  /** What is filled is what rests inside the limit, or all that is asked for. */
  lemma FillsAllItCan(capacity: nat, st: Reference.State, req: OrderRequest, r: SubmitResult, fills: seq<Fill>,
                      after: Reference.State, anyEmpty: bool)
    requires Matching.SubmitOutcome(capacity, st, req, r, fills, after, anyEmpty)
    requires r !in {Canceled, RejectedInvalid, RejectedDuplicate, RejectedFOK}
    ensures
      var offered := Sum(InsideLimit(st.orders, req));
      MatchingLaws.Filled(fills) == if offered >= req.quantity then req.quantity else offered
  {
    FillsOfMatch(capacity, st, req, r, fills, after, anyEmpty);
    MatchingLaws.FillsAddUp(st.orders, req, req.quantity, st.fillSequence);
    MatchingLaws.MatchTakesAll(st.orders, req, req.quantity, st.fillSequence);
    InsideIsOffered(st.orders, req);
    hide Reference.Match, Reference.Fillable, Reference.Submit, Matching.SubmitOutcome, InsideLimit, Sum;
  }
}
