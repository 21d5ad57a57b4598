/** What a backtest keeps account of: orders that were decided and sent, what became
    of them, the fills and sums that follow, and the book as it stood at any time. */
module BacktestLedgers {
  import opened MarketTypes
  import opened BookViews
  import opened BookStates
  import Reference

  datatype Pending = Pending(arrivalNs: nat, side: Side, quantity: Quantity)

  datatype Execution = Execution(timestampNs: nat, side: Side, price: Price, quantity: Quantity)

  function Signed(side: Side, quantity: Quantity): int {
    if side == Buy then quantity else -(quantity as int)
  }

  /** The order for a difference between two targets. */
  function OrderFor(arrivalNs: nat, delta: int): (order: Pending)
    ensures Signed(order.side, order.quantity) == delta
  {
    Pending(arrivalNs, if delta > 0 then Buy else Sell, if delta > 0 then delta else -delta)
  }

  // ---------- sums over the fills ----------

  function Position(fills: seq<Execution>): int {
    if fills == [] then 0
    else
      var last := fills[|fills| - 1];
      Position(fills[..|fills| - 1]) + Signed(last.side, last.quantity)
  }

  function Cash(fills: seq<Execution>): int {
    if fills == [] then 0
    else
      var last := fills[|fills| - 1];
      Cash(fills[..|fills| - 1]) - last.price * Signed(last.side, last.quantity)
  }

  lemma OneMoreFill(fills: seq<Execution>, fill: Execution)
    ensures Position(fills + [fill]) == Position(fills) + Signed(fill.side, fill.quantity)
    ensures Cash(fills + [fill]) == Cash(fills) - fill.price * Signed(fill.side, fill.quantity)
  {
    assert (fills + [fill])[..|fills|] == fills;
  }

  /** The units traded on one side, and what they cost. */
  function UnitsOn(fills: seq<Execution>, side: Side): nat {
    if fills == [] then 0
    else UnitsOn(fills[1..], side) + if fills[0].side == side then fills[0].quantity else 0
  }

  function CostOn(fills: seq<Execution>, side: Side): int {
    if fills == [] then 0
    else CostOn(fills[1..], side) + if fills[0].side == side then fills[0].price * fills[0].quantity else 0
  }

  /** The position is what was bought less what was sold, and the cash what the sales
      brought less what the purchases cost. */
  lemma {:induction false} BoughtAndSold(fills: seq<Execution>)
    ensures Position(fills) == UnitsOn(fills, Buy) - UnitsOn(fills, Sell)
    ensures Cash(fills) == CostOn(fills, Sell) - CostOn(fills, Buy)
  {
    hide UnitsOn, CostOn;
    NothingTraded();
    if fills != [] {
      var n := |fills| - 1;
      BoughtAndSold(fills[..n]);
      OneMoreTrade(fills[..n], fills[n], Buy);
      OneMoreTrade(fills[..n], fills[n], Sell);
      assert fills[..n] + [fills[n]] == fills;
    }
  }

  lemma NothingTraded()
    ensures forall side :: UnitsOn([], side) == 0 && CostOn([], side) == 0
  {
  }

  lemma {:induction false} OneMoreTrade(fills: seq<Execution>, fill: Execution, side: Side)
    ensures UnitsOn(fills + [fill], side) == UnitsOn(fills, side) + if fill.side == side then fill.quantity else 0
    ensures CostOn(fills + [fill], side)
         == CostOn(fills, side) + if fill.side == side then fill.price * fill.quantity else 0
  {
    if fills != [] {
      OneMoreTrade(fills[1..], fill, side);
      assert (fills + [fill])[1..] == fills[1..] + [fill];
    } else {
      assert fills + [fill] == [fill];
    }
  }

  // ---------- time ----------

  /** An event that was applied, and the orders of the book behind it. */
  datatype Moment = Moment(event: MarketDataEvent, orders: Reference.Orders)

  predicate Chronological(history: seq<Moment>) {
    forall i, j :: 0 <= i < j < |history| ==>
      history[i].event.exchangeTimestampNs <= history[j].event.exchangeTimestampNs
  }

  /** The book built from the events stamped before `timeNs`. */
  function BookBefore(history: seq<Moment>, timeNs: nat): Reference.Orders {
    if history == [] then map[]
    else if history[|history| - 1].event.exchangeTimestampNs < timeNs then history[|history| - 1].orders
    else BookBefore(history[..|history| - 1], timeNs)
  }

  lemma LaterEventsDoNotCount(history: seq<Moment>, moment: Moment, timeNs: nat)
    requires moment.event.exchangeTimestampNs >= timeNs
    ensures BookBefore(history + [moment], timeNs) == BookBefore(history, timeNs)
  {
    assert (history + [moment])[..|history|] == history;
  }

  /** The best price of a side. */
  ghost predicate Touch(orders: Reference.Orders, side: Side, price: Price) {
    && OrderAt(orders, side, price)
    && forall id :: id in orders && orders[id].side == side ==> !BetterPrice(side, orders[id].price, price)
  }

  // ---------- orders and their outcomes ----------

  /** An order, and which of the applied events it was decided on. */
  datatype Sent = Sent(decided: nat, order: Pending)

  /** The fills of the orders executed so far: an outcome is the price at which an
      order crossed, or nothing. */
  function FillsOf(sent: seq<Sent>, outcomes: seq<Option<Price>>): seq<Execution>
    requires |outcomes| <= |sent|
  {
    if outcomes == [] then []
    else
      var n := |outcomes| - 1;
      var before, order := FillsOf(sent, outcomes[..n]), sent[n].order;
      if outcomes[n].None? then before
      else before + [Execution(order.arrivalNs, order.side, outcomes[n].value, order.quantity)]
  }

  function Unfilled(outcomes: seq<Option<Price>>): nat {
    if outcomes == [] then 0
    else Unfilled(outcomes[..|outcomes| - 1]) + if outcomes[|outcomes| - 1].None? then 1 else 0
  }

  lemma OneMoreOutcome(sent: seq<Sent>, outcomes: seq<Option<Price>>, outcome: Option<Price>)
    requires |outcomes| < |sent|
    ensures
      var order := sent[|outcomes|].order;
      FillsOf(sent, outcomes + [outcome]) == FillsOf(sent, outcomes)
        + if outcome.None? then [] else [Execution(order.arrivalNs, order.side, outcome.value, order.quantity)]
    ensures Unfilled(outcomes + [outcome]) == Unfilled(outcomes) + if outcome.None? then 1 else 0
  {
    assert (outcomes + [outcome])[..|outcomes|] == outcomes;
  }

  lemma {:induction false} LaterOrdersDoNotCount(sent: seq<Sent>, outcomes: seq<Option<Price>>, later: Sent)
    requires |outcomes| <= |sent|
    ensures FillsOf(sent + [later], outcomes) == FillsOf(sent, outcomes)
  {
    if outcomes != [] {
      LaterOrdersDoNotCount(sent, outcomes[..|outcomes| - 1], later);
    }
  }

  /** Every fill is that of an order that was sent, stamped with its arrival. */
  lemma {:induction false} FillHasOrder(sent: seq<Sent>, outcomes: seq<Option<Price>>, i: nat) returns (j: nat)
    requires |outcomes| <= |sent| && i < |FillsOf(sent, outcomes)|
    ensures j < |outcomes| && outcomes[j].Some?
    ensures
      var order := sent[j].order;
      FillsOf(sent, outcomes)[i] == Execution(order.arrivalNs, order.side, outcomes[j].value, order.quantity)
  {
    var n := |outcomes| - 1;
    if i < |FillsOf(sent, outcomes[..n])| {
      j := FillHasOrder(sent, outcomes[..n], i);
    } else {
      j := n;
    }
  }

  /** Each order was decided on an event of its own and arrives the latency later. */
  ghost predicate Decisions(sent: seq<Sent>, history: seq<Moment>, latencyNs: nat) {
    && (forall i :: 0 <= i < |sent| ==>
          && sent[i].decided < |history|
          && sent[i].order.arrivalNs == history[sent[i].decided].event.exchangeTimestampNs + latencyNs)
    && (forall i, j :: 0 <= i < j < |sent| ==> sent[i].decided < sent[j].decided)
  }

  lemma OneMoreDecision(sent: seq<Sent>, history: seq<Moment>, latencyNs: nat, s: Sent)
    requires Decisions(sent, history, latencyNs) && s.decided == |history| - 1
    requires forall i :: 0 <= i < |sent| ==> sent[i].decided < s.decided
    requires s.order.arrivalNs == history[s.decided].event.exchangeTimestampNs + latencyNs
    ensures Decisions(sent + [s], history, latencyNs)
  {
  }

  lemma OneMoreMoment(sent: seq<Sent>, history: seq<Moment>, latencyNs: nat, moment: Moment)
    requires Decisions(sent, history, latencyNs)
    ensures Decisions(sent, history + [moment], latencyNs)
    ensures forall i :: 0 <= i < |sent| ==> sent[i].decided < |history|
    ensures Chronological(history)
        && (history == [] || history[|history| - 1].event.exchangeTimestampNs <= moment.event.exchangeTimestampNs)
      ==> Chronological(history + [moment])
  {
  }

  /** The orders in flight are those sent last. */
  ghost predicate InQueue(pending: seq<Pending>, sent: seq<Sent>, released: nat) {
    && released + |pending| == |sent|
    && forall i :: 0 <= i < |pending| ==> pending[i] == sent[released + i].order
  }

  /** The book an order meets: without latency that of the event it was decided on,
      otherwise that of the events stamped before it arrives. */
  function BookMet(history: seq<Moment>, latencyNs: nat, s: Sent): Reference.Orders
    requires s.decided < |history|
  {
    if latencyNs == 0 then history[s.decided].orders else BookBefore(history, s.order.arrivalNs)
  }

  /** The order crossed at the opposite touch, or there was nothing to cross. */
  ghost predicate Crossed(orders: Reference.Orders, order: Pending, outcome: Option<Price>) {
    if outcome.None? then OneSided(orders, Opposite(order.side))
    else Touch(orders, Opposite(order.side), outcome.value)
  }

  /** The same in prices: a buy trades at the lowest offer, a sell at the highest bid,
      and there is no trade only where nobody is on the other side. */
  ghost predicate AtBest(orders: Reference.Orders, order: Pending, outcome: Option<Price>) {
    if outcome.None? then forall id :: id in orders ==> orders[id].side == order.side
    else
      && (exists id :: id in orders && orders[id].side != order.side && orders[id].price == outcome.value)
      && (order.side == Buy ==>
            forall id :: id in orders && orders[id].side == Sell ==> outcome.value <= orders[id].price)
      && (order.side == Sell ==>
            forall id :: id in orders && orders[id].side == Buy ==> outcome.value >= orders[id].price)
  }

  lemma CrossedAtBest(orders: Reference.Orders, order: Pending, outcome: Option<Price>)
    requires Crossed(orders, order, outcome)
    ensures AtBest(orders, order, outcome)
  {
    if outcome.Some? {
      var id :| id in orders && orders[id].side == Opposite(order.side) && orders[id].price == outcome.value;
    }
  }

  ghost predicate AllFair(history: seq<Moment>, latencyNs: nat, sent: seq<Sent>, outcomes: seq<Option<Price>>) {
    && |outcomes| <= |sent|
    && forall i :: 0 <= i < |outcomes| ==>
         sent[i].decided < |history| && Crossed(BookMet(history, latencyNs, sent[i]), sent[i].order, outcomes[i])
  }

  lemma OneMoreFair(history: seq<Moment>, latencyNs: nat, sent: seq<Sent>, outcomes: seq<Option<Price>>,
                    outcome: Option<Price>)
    requires AllFair(history, latencyNs, sent, outcomes) && |outcomes| < |sent|
    requires sent[|outcomes|].decided < |history|
    requires Crossed(BookMet(history, latencyNs, sent[|outcomes|]), sent[|outcomes|].order, outcome)
    ensures AllFair(history, latencyNs, sent, outcomes + [outcome])
  {
  }

  /** Orders that arrived by the time of an event do not see it. */
  lemma StillFair(history: seq<Moment>, moment: Moment, latencyNs: nat, sent: seq<Sent>, outcomes: seq<Option<Price>>)
    requires AllFair(history, latencyNs, sent, outcomes)
    requires latencyNs == 0
      || forall i :: 0 <= i < |outcomes| ==> sent[i].order.arrivalNs <= moment.event.exchangeTimestampNs
    ensures AllFair(history + [moment], latencyNs, sent, outcomes)
  {
    forall i | 0 <= i < |outcomes|
      ensures BookMet(history + [moment], latencyNs, sent[i]) == BookMet(history, latencyNs, sent[i])
    {
      if latencyNs > 0 {
        LaterEventsDoNotCount(history, moment, sent[i].order.arrivalNs);
      }
    }
  }

  // ---------- orders and targets ----------

  /** Every committed target is flat or one order size to a side. */
  ghost predicate AllTargets(targets: seq<int>, size: Quantity) {
    forall i :: 0 <= i < |targets| ==> targets[i] == 0 || targets[i] == size || targets[i] == -(size as int)
  }

  /** The orders sent are the steps from each committed target to the next. */
  ghost predicate Steps(sent: seq<Sent>, targets: seq<int>) {
    && |targets| == |sent| + 1
    && forall i :: 0 <= i < |sent| ==> Signed(sent[i].order.side, sent[i].order.quantity) == targets[i + 1] - targets[i]
  }

  lemma OneMoreStep(sent: seq<Sent>, targets: seq<int>, s: Sent, target: int)
    requires Steps(sent, targets) && Signed(s.order.side, s.order.quantity) == target - targets[|sent|]
    ensures Steps(sent + [s], targets + [target])
  {
  }

  /** The units in flight. */
  function InFlight(pending: seq<Pending>): int {
    if pending == [] then 0
    else Signed(pending[0].side, pending[0].quantity) + InFlight(pending[1..])
  }

  lemma {:induction false} InFlightIsDifference(pending: seq<Pending>, sent: seq<Sent>, released: nat,
                                                targets: seq<int>)
    requires InQueue(pending, sent, released) && Steps(sent, targets)
    ensures InFlight(pending) == targets[|sent|] - targets[released]
    decreases |pending|
  {
    if pending != [] {
      InFlightIsDifference(pending[1..], sent, released + 1, targets);
    }
  }

  // ---------- the queue ----------

  ghost predicate InTime(pending: seq<Pending>, nowNs: nat, latencyNs: nat) {
    && (forall i :: 0 <= i < |pending| ==> nowNs < pending[i].arrivalNs <= nowNs + latencyNs)
    && (forall i, j :: 0 <= i < j < |pending| ==> pending[i].arrivalNs <= pending[j].arrivalNs)
  }

  lemma NextInTime(pending: seq<Pending>, nowNs: nat, latencyNs: nat)
    requires pending != []
    ensures InTime(pending, nowNs, latencyNs) ==> InTime(pending[1..], nowNs, latencyNs) && nowNs < pending[0].arrivalNs
  {
  }

  lemma LastInTime(pending: seq<Pending>, nowNs: nat, latencyNs: nat, order: Pending)
    requires latencyNs > 0 && order.arrivalNs == nowNs + latencyNs
    ensures InTime(pending, nowNs, latencyNs) ==> InTime(pending + [order], nowNs, latencyNs)
  {
  }

  lemma NextInQueue(pending: seq<Pending>, sent: seq<Sent>, released: nat)
    requires InQueue(pending, sent, released) && pending != []
    ensures released < |sent| && sent[released].order == pending[0] && InQueue(pending[1..], sent, released + 1)
  {
  }

  /** The latest book is what an order meets that arrives after the last event. */
  lemma LateOrderMeets(history: seq<Moment>, latencyNs: nat, s: Sent)
    requires latencyNs > 0 && s.decided < |history|
    requires history[|history| - 1].event.exchangeTimestampNs < s.order.arrivalNs
    ensures BookMet(history, latencyNs, s) == history[|history| - 1].orders
  {
  }

  /** The records before the first event. */
  lemma NothingYet(size: Quantity, latencyNs: nat)
    ensures Position([]) == 0 && Cash([]) == 0 && FillsOf([], []) == [] && Unfilled([]) == 0
    ensures Steps([], [0]) && AllTargets([0], size) && InQueue([], [], 0) && Decisions([], [], latencyNs)
    ensures AllFair([], latencyNs, [], []) && Chronological([]) && InTime([], 0, latencyNs)
  {
  }

  // ---------- the end of a session ----------

  /** Behind the strategy's own fills there is at most one more: a position that was
      left is closed at the touch of the final book, if there is one. */
  ghost predicate Flattened(fills: seq<Execution>, own: nat, orders: Reference.Orders, lastTs: nat) {
    && own <= |fills| <= own + 1
    && var left := Position(fills[..own]);
       var side := if left > 0 then Sell else Buy;
       if left == 0 || OneSided(orders, Opposite(side)) then |fills| == own && Position(fills) == left
       else
         && |fills| == own + 1 && Position(fills) == 0
         && fills[own].timestampNs == lastTs && fills[own].side == side
         && fills[own].quantity == (if left > 0 then left else -left)
         && Touch(orders, Opposite(side), fills[own].price)
  }

  /** In prices and units: a long position is sold at the highest bid, a short one
      bought back at the lowest offer, all of it, and stays only where nobody is on the
      other side. */
  lemma FlattenedAtBest(fills: seq<Execution>, own: nat, orders: Reference.Orders, lastTs: nat)
    requires Flattened(fills, own, orders, lastTs)
    ensures own <= |fills|
    ensures
      var left := UnitsOn(fills[..own], Buy) - UnitsOn(fills[..own], Sell);
      && (left == 0 ==> |fills| == own)
      && (left > 0 ==>
            if forall id :: id in orders ==> orders[id].side == Sell then |fills| == own
            else
              && |fills| == own + 1
              && fills[own].side == Sell && fills[own].quantity == left && fills[own].timestampNs == lastTs
              && AtBest(orders, Pending(lastTs, Sell, left), Some(fills[own].price)))
      && (left < 0 ==>
            if forall id :: id in orders ==> orders[id].side == Buy then |fills| == own
            else
              && |fills| == own + 1
              && fills[own].side == Buy && fills[own].quantity == -left && fills[own].timestampNs == lastTs
              && AtBest(orders, Pending(lastTs, Buy, -left), Some(fills[own].price)))
  {
    hide Position, UnitsOn, CostOn, Cash, Touch, AtBest;
    BoughtAndSold(fills[..own]);
    if |fills| > own {
      CrossedAtBest(orders, Pending(lastTs, fills[own].side, fills[own].quantity), Some(fills[own].price));
    }
  }

  lemma FlattenedBy(was: seq<Execution>, fills: seq<Execution>, order: Pending, outcome: Option<Price>,
                    orders: Reference.Orders, lastTs: nat)
    requires
      var left := Position(was);
      left != 0 && order == Pending(lastTs, if left > 0 then Sell else Buy, if left > 0 then left else -left)
    requires Crossed(orders, order, outcome)
    requires fills == was + if outcome.None? then [] else [Execution(lastTs, order.side, outcome.value, order.quantity)]
    ensures Flattened(fills, |was|, orders, lastTs)
  {
    assert fills[..|was|] == was;
    if outcome.None? {
      assert fills == was;
    } else {
      assert !OneSided(orders, Opposite(order.side));
      OneMoreFill(was, Execution(lastTs, order.side, outcome.value, order.quantity));
    }
  }
}
