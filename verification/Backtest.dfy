/** The event-driven backtest: orders decided on one event arrive a fixed latency
    later and cross at the touch of the book as it stands then, and an integer
    ledger keeps position and cash. */
module Backtests {
  import opened MarketTypes
  import opened BacktestLedgers
  import opened BookViews
  import opened OrderBooks
  import opened Ladders
  import opened FreeLists
  import opened LevelDirectories
  import opened ProbeTables
  import opened BookStates
  import opened ProbeSlots
  import opened Sessions
  import opened Sums
  import MatchingLaws
  import Reference

  datatype Signal = Short | Flat | Long

  datatype L1Row = L1Row(sequence: nat, timestampNs: nat, bidPx: Price, bidSz: Quantity, askPx: Price, askSz: Quantity,
                         twoSided: bool)

  predicate L1Changed(a: L1Row, b: L1Row) {
    a.bidPx != b.bidPx || a.bidSz != b.bidSz || a.askPx != b.askPx || a.askSz != b.askSz
  }

  datatype Config = Config(locate: nat, latencyNs: nat, orderSize: Quantity, target: (L1Row, Signal) -> Signal)

  datatype Result = Result(position: int, cashTicks: int, trades: nat, unfilled: nat, l1Updates: nat, finalPnl2x: int)

  function Units(signal: Signal, size: Quantity): int {
    match signal
    case Short => -(size as int)
    case Flat => 0
    case Long => size
  }

  lemma UnitsAreTarget(targets: seq<int>, target: Signal, size: Quantity)
    requires AllTargets(targets, size)
    ensures AllTargets(targets + [Units(target, size)], size)
  {
  }

  /** What a new top of book does to the last row acted on and to the commitment. */
  function Decision(config: Config, prev: Option<L1Row>, committed: int, row: L1Row): (Option<L1Row>, int) {
    if !row.twoSided || (prev.Some? && !L1Changed(prev.value, row)) then (prev, committed)
    else
      var current := if committed > 0 then Long else if committed < 0 then Short else Flat;
      var target := config.target(row, current);
      (Some(row), if prev.None? && target == Flat then committed else Units(target, config.orderSize))
  }

  /** What a new top of book does, by its prices and quantities: it is acted on when it
      has two sides and one of the four numbers differs from the last row acted on. The
      commitment behind it is one order size long or short, or none, as the rule says
      from the signal whose units were committed; only a first Flat leaves it. */
  ghost predicate ByRule(config: Config, row: L1Row, prevWas: Option<L1Row>, committedWas: int,
                         prevNow: Option<L1Row>, committedNow: int) {
    var acted := row.twoSided
      && (prevWas.None?
          || row.bidPx != prevWas.value.bidPx || row.bidSz != prevWas.value.bidSz
          || row.askPx != prevWas.value.askPx || row.askSz != prevWas.value.askSz);
    var held := if committedWas == 0 then Flat else if committedWas > 0 then Long else Short;
    var target := config.target(row, held);
    && (!acted ==> prevNow == prevWas && committedNow == committedWas)
    && (acted ==> prevNow == Some(row))
    && (acted && target == Long ==> committedNow == config.orderSize)
    && (acted && target == Short ==> committedNow == -(config.orderSize as int))
    && (acted && target == Flat ==> committedNow == if prevWas.None? then committedWas else 0)
  }

  lemma DecisionByRule(config: Config, prev: Option<L1Row>, committed: int, row: L1Row)
    ensures ByRule(config, row, prev, committed, Decision(config, prev, committed, row).0,
                   Decision(config, prev, committed, row).1)
  {
  }

  /** A row shows the highest bid and the lowest offer with all that rests there, and
      zeros on an empty side. */
  ghost predicate TopByPrices(orders: Reference.Orders, row: L1Row) {
    && (row.twoSided <==>
          (exists b :: b in orders && orders[b].side == Buy) && (exists s :: s in orders && orders[s].side == Sell))
    && (forall b :: b in orders && orders[b].side == Buy ==> orders[b].price <= row.bidPx)
    && (forall s :: s in orders && orders[s].side == Sell ==> orders[s].price >= row.askPx)
    && (if exists b :: b in orders && orders[b].side == Buy
        then exists b :: b in orders && orders[b].side == Buy && orders[b].price == row.bidPx
        else row.bidPx == 0)
    && (if exists s :: s in orders && orders[s].side == Sell
        then exists s :: s in orders && orders[s].side == Sell && orders[s].price == row.askPx
        else row.askPx == 0)
    && row.bidSz == Sum(QuantitiesAt(orders, Buy, row.bidPx))
    && row.askSz == Sum(QuantitiesAt(orders, Sell, row.askPx))
  }

  lemma TopShownByPrices(orders: Reference.Orders, row: L1Row)
    requires ShowsTop(orders, row)
    ensures TopByPrices(orders, row)
  {
    SideTotal(orders, Buy, row.bidPx, row.bidSz);
    SideTotal(orders, Sell, row.askPx, row.askSz);
    hide Sum;
  }

  lemma SideTotal(orders: Reference.Orders, side: Side, price: Price, total: Quantity)
    requires TopShown(orders, side, price, total)
    ensures total == Sum(QuantitiesAt(orders, side, price))
  {
    if OneSided(orders, side) {
      assert QuantitiesAt(orders, side, price) == map[];
    }
  }

  /** In a book that is not crossed the bid of a two-sided row is below the offer. */
  lemma BidBelowOffer(orders: Reference.Orders, row: L1Row)
    requires TopByPrices(orders, row) && MatchingLaws.Uncrossed(orders) && row.twoSided
    ensures row.bidPx < row.askPx
  {
    hide Sum;
  }

  /** The row shows the top of these orders. */
  ghost predicate ShowsTop(orders: Reference.Orders, row: L1Row) {
    && (row.twoSided <==> !OneSided(orders, Buy) && !OneSided(orders, Sell))
    && TopShown(orders, Buy, row.bidPx, row.bidSz) && TopShown(orders, Sell, row.askPx, row.askSz)
  }

  /** One side's part of an L1 row. */
  ghost predicate TopShown(orders: Reference.Orders, side: Side, price: Price, total: Quantity) {
    if OneSided(orders, side) then price == 0 && total == 0
    else Touch(orders, side, price) && total == LevelOf(orders, side, price).totalQuantity
  }

  lemma SomeoneThere(orders: Reference.Orders, side: Side, price: Price)
    requires LevelOf(orders, side, price).orderCount > 0
    ensures OrderAt(orders, side, price) && !OneSided(orders, side)
  {
    var at := QuantitiesAt(orders, side, price);
    assert at.Keys != {};
    var id :| id in at;
  }

  class Backtester {
    const config: Config
    const book: OrderBook
    var pending: seq<Pending>
    var fills: seq<Execution>
    var prevL1: Option<L1Row>
    var committedUnits: int
    var position: int
    var cashTicks: int
    var trades: nat
    var unfilled: nat
    var l1Updates: nat
    var lastTs: nat
    ghost var sent: seq<Sent>                    // every order ever sent
    ghost var outcomes: seq<Option<Price>>       // what became of those executed so far
    ghost var targets: seq<int>                  // every target committed so far
    ghost var lost: int                          // units of orders that found nothing to cross
    ghost var history: seq<Moment>
    ghost var ordered: bool                      // no timestamp has gone back so far

    ghost predicate Separate()
      reads this
    {
      this !in book.Parts()
    }

    /** Position and cash are the sums over the fills. */
    ghost predicate Summed()
      reads this
    {
      trades == |fills| && position == Position(fills) && cashTicks == Cash(fills)
    }

    /** The orders sent lead from target to target, and the position, together with
        the units that found nothing to cross, is the target of the last order
        executed. */
    ghost predicate Ledger()
      reads this
    {
      && Steps(sent, targets) && AllTargets(targets, config.orderSize)
      && targets[0] == 0 && committedUnits == targets[|sent|]
      && |outcomes| <= |sent| && position + lost == targets[|outcomes|]
      && (unfilled == 0 ==> lost == 0)
    }

    /** The queue holds the orders not executed yet. */
    ghost predicate Dispatched()
      reads this
    {
      InQueue(pending, sent, |outcomes|) && Decisions(sent, history, config.latencyNs)
    }

    /** The fills are, in order, those of the executed orders that found something to
        cross, each against the book it had to meet. */
    ghost predicate Settled()
      reads this
    {
      && |outcomes| <= |sent| && fills == FillsOf(sent, outcomes) && unfilled == Unfilled(outcomes)
      && (ordered || config.latencyNs == 0 ==> AllFair(history, config.latencyNs, sent, outcomes))
    }

    ghost predicate Timeline()
      reads this
    {
      && (history != [] ==> history[|history| - 1].event.exchangeTimestampNs == lastTs)
      && (config.latencyNs == 0 ==> pending == [])
      && (ordered ==> Chronological(history) && InTime(pending, lastTs, config.latencyNs))
    }

    /** The orders executed so far had arrived by then. */
    ghost predicate ArrivedBy(nowNs: nat)
      reads this
    {
      && |outcomes| <= |sent|
      && (ordered && config.latencyNs > 0 ==> forall i :: 0 <= i < |outcomes| ==> sent[i].order.arrivalNs <= nowNs)
    }

    /** No order has been decided on the latest event yet. */
    ghost predicate Undecided()
      reads this
    {
      forall i :: 0 <= i < |sent| ==> sent[i].decided < |history| - 1
    }

    ghost predicate BookShown()
      requires book.Valid()
      reads this, book.Parts()
    {
      book.State().orders == if history == [] then map[] else history[|history| - 1].orders
    }

    /** Everything but the bound on arrivals, which orders that are being released
        run ahead of. */
    ghost predicate Releasing()
      reads this, book.Parts()
    {
      Separate() && book.Valid() && BookShown() && Summed() && Ledger() && Dispatched() && Settled() && Timeline()
    }

    ghost predicate Valid()
      reads this, book.Parts()
    {
      Releasing() && ArrivedBy(lastTs)
    }

    /** What is committed is the position, the units in flight and those that found
        nothing to cross. While none was lost the position is a target committed
        earlier, so it never exceeds the order size. */
    lemma PositionIsATarget()
      requires Ledger() && Dispatched()
      ensures committedUnits == position + InFlight(pending) + lost
      ensures unfilled == 0 ==> position in targets && -(config.orderSize as int) <= position <= config.orderSize
    {
      InFlightIsDifference(pending, sent, |outcomes|, targets);
    }

    constructor (config: Config, capacity: nat, mixId: OrderId -> nat, mixKey: LevelKey -> nat)
      requires 0 < capacity <= NPOS
      ensures Valid() && this.config == config && fresh(book.Parts())
      ensures fills == [] && sent == [] && history == [] && ordered && lastTs == 0
      ensures prevL1 == None && committedUnits == 0 && l1Updates == 0
      ensures book.State() == Reference.EMPTY && book.orders.Length == capacity
      ensures book.directory.lookup.used == {} && IsTableSize(book.directory.lookup.slots.Length, 2 * capacity)
    {
      hide Snapshot.Ok, Probes, HeapOk, FreeList, Directory, BookOf, IsTableSize, OrderBook.Valid, OrderBook.State,
           Steps, AllTargets, InQueue, Decisions, AllFair, Chronological, InTime, FillsOf, Unfilled, Position, Cash;
      NothingYet(config.orderSize, config.latencyNs);
      this.config := config;
      book := new OrderBook(capacity, mixId, mixKey);
      pending, fills, prevL1 := [], [], None;
      committedUnits, position, cashTicks, trades, unfilled, l1Updates, lastTs := 0, 0, 0, 0, 0, 0, 0;
      sent, outcomes, targets, lost, history, ordered := [], [], [0], 0, [], true;
    }

    /** Fills the whole quantity at the opposite touch, or finds none. */
    method ExecuteCrossing(order: Pending, nowNs: nat) returns (ghost outcome: Option<Price>)
      requires Separate() && book.Valid() && Summed()
      modifies this`position, this`cashTicks, this`fills, this`trades, this`unfilled, this`lost
      ensures book.Valid() && book.State() == old(book.State()) && Summed()
      ensures position + lost == old(position + lost) + Signed(order.side, order.quantity)
      ensures Crossed(book.State().orders, order, outcome)
      ensures outcome.None? ==> fills == old(fills) && unfilled == old(unfilled) + 1
      ensures outcome.Some? ==>
        && fills == old(fills) + [Execution(nowNs, order.side, outcome.value, order.quantity)]
        && unfilled == old(unfilled) && lost == old(lost)
    {
      hide Snapshot.Ok, Probes, HeapOk, FreeList, Directory, BookOf, LevelOf, OrderAt, Summed;
      var opposite := book.BestOf(Opposite(order.side));
      assert book.State() == old(book.State());
      if opposite.None? {
        outcome := None;
        GoUnfilled(order);
      } else {
        SomeoneThere(book.State().orders, Opposite(order.side), opposite.value.priceTicks);
        outcome := Some(opposite.value.priceTicks);
        Fill(order, opposite.value.priceTicks, nowNs);
      }
    }

    method GoUnfilled(order: Pending)
      requires Summed()
      modifies this`unfilled, this`lost
      ensures Summed() && unfilled == old(unfilled) + 1 && lost == old(lost) + Signed(order.side, order.quantity)
    {
      hide Position, Cash;
      unfilled := unfilled + 1;
      lost := lost + Signed(order.side, order.quantity);
    }

    method Fill(order: Pending, price: Price, nowNs: nat)
      requires Summed()
      modifies this`position, this`cashTicks, this`fills, this`trades
      ensures Summed() && fills == old(fills) + [Execution(nowNs, order.side, price, order.quantity)]
      ensures position == old(position) + Signed(order.side, order.quantity)
    {
      hide Position, Cash;
      var fill := Execution(nowNs, order.side, price, order.quantity);
      OneMoreFill(fills, fill);
      if order.side == Buy {
        position := position + order.quantity;
        cashTicks := cashTicks - price * order.quantity;
      } else {
        position := position - order.quantity;
        cashTicks := cashTicks + price * order.quantity;
      }
      fills := fills + [fill];
      trades := trades + 1;
    }

    /** The next order that is due executes against the book as it is. */
    method ExecuteNext(order: Pending)
      requires Separate() && book.Valid() && Summed() && Ledger() && Settled()
      requires |outcomes| < |sent| && sent[|outcomes|].order == order && sent[|outcomes|].decided < |history|
      requires ordered || config.latencyNs == 0 ==>
        BookMet(history, config.latencyNs, sent[|outcomes|]) == book.State().orders
      modifies this`position, this`cashTicks, this`fills, this`trades, this`unfilled, this`lost, this`outcomes
      ensures book.Valid() && book.State() == old(book.State()) && Summed() && Ledger() && Settled()
      ensures |outcomes| == |old(outcomes)| + 1 && old(outcomes) <= outcomes
    {
      hide Snapshot.Ok, Probes, HeapOk, FreeList, Directory, BookOf, Position, Cash, OrderBook.Valid, OrderBook.State,
           FillsOf, Unfilled, Crossed, AllTargets, AllFair, Signed, BookMet, Decisions, InQueue;
      ghost var outcome := ExecuteCrossing(order, order.arrivalNs);
      OneMoreOutcome(sent, outcomes, outcome);
      if ordered || config.latencyNs == 0 {
        OneMoreFair(history, config.latencyNs, sent, outcomes, outcome);
      }
      outcomes := outcomes + [outcome];
    }

    /** The order that has been in flight longest executes. */
    method ReleaseFirst()
      requires Releasing() && pending != []
      modifies this`pending, this`position, this`cashTicks, this`fills, this`trades, this`unfilled, this`lost,
               this`outcomes
      ensures Releasing() && book.State() == old(book.State())
      ensures pending == old(pending)[1..] && |outcomes| == |old(outcomes)| + 1 && old(outcomes) <= outcomes
      ensures sent[|old(outcomes)|].order == old(pending)[0]
    {
      hide Snapshot.Ok, Probes, HeapOk, FreeList, Directory, BookOf, Position, Cash, OrderBook.Valid, OrderBook.State,
           FillsOf, Unfilled, Chronological, InTime, AllTargets, AllFair, Signed, BookMet, Steps, InQueue,
           OrderBook.Parts;
      var order := pending[0];
      NextInQueue(pending, sent, |outcomes|);
      NextInTime(pending, lastTs, config.latencyNs);
      if ordered {
        LateOrderMeets(history, config.latencyNs, sent[|outcomes|]);
      }
      pending := pending[1..];
      ExecuteNext(order);
    }

    /** Orders that arrived by now execute against the book before the event, and
        those that remain arrive later. */
    method ReleaseArrived(nowNs: nat)
      requires Releasing() && ArrivedBy(nowNs) && (ordered ==> lastTs <= nowNs)
      modifies this`pending, this`position, this`cashTicks, this`fills, this`trades, this`unfilled, this`lost,
               this`outcomes
      ensures Releasing() && ArrivedBy(nowNs) && book.State() == old(book.State())
      ensures ordered ==> InTime(pending, nowNs, config.latencyNs)
      ensures pending == [] || pending[0].arrivalNs > nowNs
      ensures old(outcomes) <= outcomes
      ensures forall i :: |old(outcomes)| <= i < |outcomes| ==> sent[i].order.arrivalNs <= nowNs
    {
      hide Snapshot.Ok, Probes, HeapOk, FreeList, Directory, BookOf, Summed, FillsOf, Unfilled,
           Decisions, Chronological, Steps, AllTargets, AllFair, OrderBook.Valid, OrderBook.State;
      while pending != [] && pending[0].arrivalNs <= nowNs
        invariant Releasing() && ArrivedBy(nowNs) && book.State() == old(book.State())
        invariant old(outcomes) <= outcomes
        invariant forall i :: |old(outcomes)| <= i < |outcomes| ==> sent[i].order.arrivalNs <= nowNs
        decreases |pending|
      {
        ReleaseFirst();
      }
    }

    /** A changed commitment is one more order for the difference, decided on the
        latest event; an unchanged one sends nothing. */
    ghost predicate Ordered(sentWas: seq<Sent>, committedWas: int)
      reads this
    {
      if committedUnits == committedWas then sent == sentWas
      else
        && history != []
        && sent == sentWas + [Sent(|history| - 1, OrderFor(lastTs + config.latencyNs, committedUnits - committedWas))]
    }

    /** The last row and the commitment are what the top of the book decides. */
    ghost predicate Decided(orders: Reference.Orders, event: MarketDataEvent, prevWas: Option<L1Row>, committedWas: int)
      reads this
    {
      exists row: L1Row ::
        && row.sequence == event.sequence && row.timestampNs == event.exchangeTimestampNs
        && ShowsTop(orders, row) && TopByPrices(orders, row)
        && (prevL1, committedUnits) == Decision(config, prevWas, committedWas, row)
        && ByRule(config, row, prevWas, committedWas, prevL1, committedUnits)
    }

    /** One event of the stream. Events of other symbols change nothing. */
    method OnEvent(event: MarketDataEvent)
      requires Valid() && !(event.symbol == config.locate && event.kind == Modify && book.Refuses(event))
      modifies this, book.Parts()
      ensures Valid() && old(outcomes) <= outcomes
      ensures event.symbol != config.locate ==>
        && history == old(history) && fills == old(fills) && pending == old(pending) && sent == old(sent)
        && book.State() == old(book.State()) && prevL1 == old(prevL1)
        && committedUnits == old(committedUnits) && l1Updates == old(l1Updates)
        && lastTs == old(lastTs) && ordered == old(ordered)
          && book.directory.lookup.used == old(book.directory.lookup.used)
      ensures event.symbol == config.locate ==>
        && history == old(history) + [Moment(event, book.State().orders)]
        && ordered == (old(ordered) && old(lastTs) <= event.exchangeTimestampNs) && lastTs == event.exchangeTimestampNs
        && book.directory.lookup.used <= old(book.directory.lookup.used) + Named(Reference.Event(event))
        && (!old(book.Refuses(event)) ==>
              book.State() == Reference.Process(book.orders.Length, old(book.State()), event).1)
        && Decided(book.State().orders, event, old(prevL1), old(committedUnits))
        && Ordered(old(sent), old(committedUnits))
        && l1Updates == old(l1Updates) + (if prevL1 == old(prevL1) then 0 else 1)
        && (pending == [] || pending[0].arrivalNs > lastTs || config.latencyNs == 0)
    {
      hide Snapshot.Ok, Probes, HeapOk, FreeList, Directory, BookOf, HasEmpty, OrderAt, Summed, Ledger,
           Dispatched, Settled, Timeline, BookShown, ArrivedBy, OrderBook.Refuses, Reference.Process, Named, Decided,
           Ordered, OrderBook.Valid, OrderBook.State;
      if event.symbol == config.locate {
        Prepare(event.exchangeTimestampNs);
        Apply(event);
        Decide(event);
      }
    }

    /** What happens before an event is applied. */
    method Prepare(nowNs: nat)
      requires Valid()
      modifies this`ordered, this`pending, this`position, this`cashTicks, this`fills, this`trades, this`unfilled,
               this`lost, this`outcomes
      ensures Releasing() && ArrivedBy(nowNs) && book.State() == old(book.State()) && old(outcomes) <= outcomes
      ensures ordered == (old(ordered) && lastTs <= nowNs)
      ensures ordered ==> InTime(pending, nowNs, config.latencyNs)
      ensures pending == [] || pending[0].arrivalNs > nowNs
    {
      hide Snapshot.Ok, Probes, HeapOk, FreeList, Directory, BookOf, Summed, Ledger, Dispatched, Settled, Timeline,
           BookShown, ArrivedBy, InTime;
      Heed(nowNs);
      ReleaseArrived(nowNs);
    }

    ghost method Heed(nowNs: nat)
      requires Valid()
      modifies this`ordered
      ensures Releasing() && ArrivedBy(nowNs) && (ordered ==> lastTs <= nowNs)
      ensures ordered == (old(ordered) && lastTs <= nowNs)
    {
      hide Snapshot.Ok, Probes, HeapOk, FreeList, Directory, BookOf, Position, Cash, FillsOf, Unfilled,
           Decisions, Chronological, InTime, Steps, AllTargets, AllFair, InQueue;
      ordered := ordered && lastTs <= nowNs;
    }

    method Note(l1: L1Row)
      requires Valid() && Undecided()
      modifies this`prevL1, this`l1Updates
      ensures Valid() && Undecided() && prevL1 == Some(l1) && l1Updates == old(l1Updates) + 1
    {
      hide Snapshot.Ok, Probes, HeapOk, FreeList, Directory, BookOf, Position, Cash, FillsOf, Unfilled, Decisions,
           Chronological, InTime, Steps, AllTargets, AllFair, InQueue, OrderBook.Parts, LevelDirectory.Footprint,
           OrderBook.Valid, OrderBook.Inv, LevelDirectory.Valid, LevelDirectory.InOrder;
      prevL1 := Some(l1);
      l1Updates := l1Updates + 1;
    }

    /** Applies the event; whatever the book says to it is ignored. */
    method Apply(event: MarketDataEvent)
      requires Releasing() && ArrivedBy(event.exchangeTimestampNs)
      requires ordered ==>
        lastTs <= event.exchangeTimestampNs && InTime(pending, event.exchangeTimestampNs, config.latencyNs)
      requires !(event.kind == Modify && book.Refuses(event))
      modifies book.Parts(), this`history, this`lastTs
      ensures Valid() && lastTs == event.exchangeTimestampNs && Undecided()
      ensures history == old(history) + [Moment(event, book.State().orders)]
      ensures !old(book.Refuses(event)) ==>
        book.State() == Reference.Process(book.orders.Length, old(book.State()), event).1
      ensures book.directory.lookup.used <= old(book.directory.lookup.used) + Named(Reference.Event(event))
    {
      hide Snapshot.Ok, Probes, HeapOk, FreeList, Directory, BookOf, HasEmpty, OrderAt, Named, Summed, Ledger,
           Dispatched, Settled, Timeline, ArrivedBy, Undecided, Reference.Process;
      RestsNamed(book.State(), event);
      var _ := book.ProcessEvent(event);
      Record(event);
    }

    method Record(event: MarketDataEvent)
      requires Separate() && book.Valid() && Summed() && Ledger() && Dispatched() && Settled() && Timeline()
      requires ArrivedBy(event.exchangeTimestampNs)
      requires ordered ==>
        lastTs <= event.exchangeTimestampNs && InTime(pending, event.exchangeTimestampNs, config.latencyNs)
      modifies this`history, this`lastTs
      ensures Valid() && lastTs == event.exchangeTimestampNs && Undecided()
      ensures history == old(history) + [Moment(event, book.State().orders)]
    {
      hide Snapshot.Ok, Probes, HeapOk, FreeList, Directory, BookOf, Position, Cash, FillsOf, Unfilled, InTime,
           Steps, AllTargets, AllFair, InQueue, Decisions, Chronological, OrderBook.Valid, OrderBook.State;
      ghost var moment := Moment(event, book.State().orders);
      OneMoreMoment(sent, history, config.latencyNs, moment);
      lastTs := event.exchangeTimestampNs;
      if ordered || config.latencyNs == 0 {
        StillFair(history, moment, config.latencyNs, sent, outcomes);
      }
      history := history + [moment];
    }

    /** Acts on the event if the two-sided touch has changed. */
    method Decide(event: MarketDataEvent)
      requires Valid() && Undecided() && lastTs == event.exchangeTimestampNs && history != []
      modifies this`prevL1, this`l1Updates, this`committedUnits, this`targets, this`pending, this`sent, this`outcomes,
               this`position, this`cashTicks, this`fills, this`trades, this`unfilled, this`lost
      ensures Valid() && book.State() == old(book.State()) && old(outcomes) <= outcomes
      ensures Decided(book.State().orders, event, old(prevL1), old(committedUnits))
      ensures Ordered(old(sent), old(committedUnits))
      ensures l1Updates == old(l1Updates) + if prevL1 == old(prevL1) then 0 else 1
      ensures old(pending) <= pending && (pending != old(pending) ==> pending[|old(pending)|].arrivalNs > lastTs)
    {
      hide Snapshot.Ok, Probes, HeapOk, FreeList, Directory, BookOf, Summed, Ledger, Dispatched, Settled, Timeline,
           ArrivedBy, ShowsTop, TopByPrices, ByRule, Units, Signed;
      var l1 := TopOfBook(event.sequence, event.exchangeTimestampNs);
      DecisionByRule(config, prevL1, committedUnits, l1);
      if l1.twoSided && (prevL1.None? || L1Changed(prevL1.value, l1)) {
        var first := prevL1.None?;
        Note(l1);
        var current := if committedUnits > 0 then Long else if committedUnits < 0 then Short else Flat;
        var target := config.target(l1, current);
        if !(first && target == Flat) && Units(target, config.orderSize) != committedUnits {
          Commit(target, event.exchangeTimestampNs);
        }
      }
    }

    /** The top of the book, with the total at each best price. */
    method TopOfBook(sequence: nat, timestampNs: nat) returns (row: L1Row)
      requires book.Valid()
      ensures book.Valid()
      ensures row.sequence == sequence && row.timestampNs == timestampNs
      ensures ShowsTop(book.State().orders, row) && TopByPrices(book.State().orders, row)
    {
      hide Snapshot.Ok, Probes, HeapOk, FreeList, Directory, BookOf, LevelOf, OrderAt, TopByPrices;
      var bid := book.BestOf(Buy);
      assert book.State() == old(book.State());
      var ask := book.BestOf(Sell);
      assert book.State() == old(book.State());
      row := L1Row(sequence, timestampNs, 0, 0, 0, 0, bid.Some? && ask.Some?);
      if bid.Some? {
        SomeoneThere(book.State().orders, Buy, bid.value.priceTicks);
        row := row.(bidPx := bid.value.priceTicks, bidSz := bid.value.totalQuantity);
      }
      if ask.Some? {
        SomeoneThere(book.State().orders, Sell, ask.value.priceTicks);
        row := row.(askPx := ask.value.priceTicks, askSz := ask.value.totalQuantity);
      }
      TopShownByPrices(book.State().orders, row);
    }

    /** Commits to a new target: the order for the difference crosses at once, or
        arrives after the latency. */
    method Commit(target: Signal, nowNs: nat)
      requires Valid() && Undecided() && lastTs == nowNs && history != []
        && Units(target, config.orderSize) != committedUnits
      modifies this`committedUnits, this`targets, this`pending, this`sent, this`outcomes,
               this`position, this`cashTicks, this`fills, this`trades, this`unfilled, this`lost
      ensures Valid() && book.State() == old(book.State()) && old(outcomes) <= outcomes
      ensures committedUnits == Units(target, config.orderSize) && Ordered(old(sent), old(committedUnits))
      ensures old(pending) <= pending && (pending != old(pending) ==> pending[|old(pending)|].arrivalNs > lastTs)
    {
      hide Snapshot.Ok, Probes, HeapOk, FreeList, Directory, BookOf, BookShown, Summed, Ledger, Dispatched, Settled,
           Timeline, ArrivedBy, Units, Backtester.Valid, Backtester.Releasing, Backtester.Separate;
      var order := OrderFor(nowNs + config.latencyNs, Units(target, config.orderSize) - committedUnits);
      if config.latencyNs == 0 {
        CrossNow(target, order);
      } else {
        SendOff(target, order);
      }
    }

    method CrossNow(target: Signal, order: Pending)
      requires Valid() && Undecided() && history != [] && config.latencyNs == 0 && order.arrivalNs == lastTs
      requires Signed(order.side, order.quantity) == Units(target, config.orderSize) - committedUnits
      modifies this`committedUnits, this`targets, this`sent, this`outcomes,
               this`position, this`cashTicks, this`fills, this`trades, this`unfilled, this`lost
      ensures Valid() && book.State() == old(book.State()) && old(outcomes) <= outcomes
      ensures committedUnits == Units(target, config.orderSize)
      ensures sent == old(sent) + [Sent(|history| - 1, order)]
    {
      hide Snapshot.Ok, Probes, HeapOk, FreeList, Directory, BookOf, Position, Cash, OrderBook.Valid, OrderBook.State,
           FillsOf, Unfilled, Chronological, Crossed, InTime, AllTargets, AllFair, Units, Signed, Backtester.Ledger,
           Steps, BookBefore, Backtester.Summed, Decisions, Backtester.Settled;
      Send(target, order);
      ExecuteNext(order);
    }

    /** The records of a new commitment, before its order goes anywhere. */
    method Send(target: Signal, order: Pending)
      requires Valid() && Undecided() && history != [] && order.arrivalNs == lastTs + config.latencyNs
      requires Signed(order.side, order.quantity) == Units(target, config.orderSize) - committedUnits
      modifies this`committedUnits, this`targets, this`sent
      ensures Separate() && book.Valid() && BookShown() && Summed() && Ledger() && Settled() && Timeline()
        && ArrivedBy(lastTs)
      ensures committedUnits == Units(target, config.orderSize)
      ensures sent == old(sent) + [Sent(|history| - 1, order)]
      ensures InQueue(pending, old(sent), |outcomes|) && Decisions(sent, history, config.latencyNs)
    {
      hide Snapshot.Ok, Probes, HeapOk, FreeList, Directory, BookOf, Position, Cash, OrderBook.Valid, OrderBook.State,
           FillsOf, Unfilled, Chronological, InTime, AllTargets, Units, Signed, Steps, Crossed, BookMet, Decisions,
           InQueue, LevelDirectory.Footprint;
      ghost var s := Sent(|history| - 1, order);
      committedUnits := Units(target, config.orderSize);
      UnitsAreTarget(targets, target, config.orderSize);
      LaterOrdersDoNotCount(sent, outcomes, s);
      OneMoreDecision(sent, history, config.latencyNs, s);
      OneMoreStep(sent, targets, s, committedUnits);
      targets := targets + [committedUnits];
      sent := sent + [s];
    }

    method SendOff(target: Signal, order: Pending)
      requires Valid() && Undecided() && history != [] && config.latencyNs > 0
        && order.arrivalNs == lastTs + config.latencyNs
      requires Signed(order.side, order.quantity) == Units(target, config.orderSize) - committedUnits
      modifies this`committedUnits, this`targets, this`pending, this`sent
      ensures Valid() && committedUnits == Units(target, config.orderSize) && pending == old(pending) + [order]
      ensures sent == old(sent) + [Sent(|history| - 1, order)]
    {
      hide Snapshot.Ok, Probes, HeapOk, FreeList, Directory, BookOf, Position, Cash, OrderBook.Valid, OrderBook.State,
           FillsOf, Unfilled, Chronological, InTime, AllTargets, AllFair, Units, Signed, Steps, Decisions;
      Send(target, order);
      LastInTime(pending, lastTs, config.latencyNs, order);
      pending := pending + [order];
    }

    /** Releases everything in flight against the final book. */
    method ReleaseAll()
      requires Releasing()
      modifies this`pending, this`position, this`cashTicks, this`fills, this`trades, this`unfilled, this`lost,
               this`outcomes
      ensures Releasing() && pending == [] && book.State() == old(book.State()) && old(outcomes) <= outcomes
    {
      hide Snapshot.Ok, Probes, HeapOk, FreeList, Directory, BookOf, Summed, Ledger, Dispatched, Settled, Timeline,
           BookShown;
      while pending != []
        invariant Releasing() && book.State() == old(book.State()) && old(outcomes) <= outcomes
        decreases |pending|
      {
        ReleaseFirst();
      }
    }

    /** The end of the session: what is in flight is released, so that every order
        ever sent has its outcome, and then a position that is left is flattened at
        the touch of the final book. `own` is how many fills are the strategy's. */
    method Finish() returns (result: Result, ghost own: nat)
      requires Valid()
      modifies this`pending, this`position, this`cashTicks, this`fills, this`trades, this`unfilled, this`lost,
               this`outcomes
      ensures book.Valid() && book.State() == old(book.State())
      ensures old(outcomes) <= outcomes && |outcomes| == |sent| && Decisions(sent, history, config.latencyNs)
      ensures ordered || config.latencyNs == 0 ==> AllFair(history, config.latencyNs, sent, outcomes)
      ensures own <= |fills| && fills[..own] == FillsOf(sent, outcomes)
      ensures Flattened(fills, own, book.State().orders, lastTs)
      ensures Unfilled(outcomes) == 0 ==> Position(fills[..own]) == committedUnits
      ensures result.position == Position(fills) && result.cashTicks == Cash(fills) && result.trades == |fills|
      ensures result.unfilled == Unfilled(outcomes) + if result.position == 0 then 0 else 1
      ensures result.l1Updates == l1Updates
      ensures result.finalPnl2x == if prevL1.Some?
        then 2 * Cash(fills) + Position(fills) * (prevL1.value.bidPx + prevL1.value.askPx) else 0
    {
      hide Snapshot.Ok, Probes, HeapOk, FreeList, Directory, BookOf, Position, Cash, OrderBook.Inv, FillsOf,
           Unfilled, Decisions, Chronological, Flattened, InTime, Steps, AllTargets, AllFair;
      ReleaseAll();
      own := |fills|;
      Flatten();
      result := Result(position, cashTicks, trades, unfilled, l1Updates,
                       if prevL1.Some? then 2 * cashTicks + position * (prevL1.value.bidPx + prevL1.value.askPx)
                         else 0);
    }

    method Flatten()
      requires Releasing()
      modifies this`position, this`cashTicks, this`fills, this`trades, this`unfilled, this`lost
      ensures book.Valid() && book.State() == old(book.State()) && Summed()
      ensures old(fills) <= fills && Flattened(fills, |old(fills)|, book.State().orders, lastTs)
      ensures unfilled == old(unfilled) + if position == 0 then 0 else 1
    {
      hide Snapshot.Ok, Probes, HeapOk, FreeList, Directory, BookOf, Position, Cash, OrderBook.Inv, Crossed,
           Ledger, Dispatched, Settled, Timeline;
      ghost var was := fills;
      assert fills[..|was|] == was;
      if position != 0 {
        var order := Pending(lastTs, if position > 0 then Sell else Buy, if position > 0 then position else -position);
        OneMoreFill(fills, Execution(lastTs, order.side, 0, order.quantity));
        ghost var outcome := ExecuteCrossing(order, lastTs);
        FlattenedBy(was, fills, order, outcome, book.State().orders, lastTs);
      }
    }
  }
}
