/** Whole backtests: the orders sent, their outcomes and the end of the session, all
    stated over the events of the stream and the reference book they build. */
module BacktestRuns {
  import opened MarketTypes
  import opened BacktestLedgers
  import opened Backtests
  import opened OrderBooks
  import opened Ladders
  import opened FreeLists
  import opened LevelDirectories
  import opened ProbeTables
  import opened BookStates
  import opened ProbeSlots
  import opened Sessions
  import Reference

  function ForSymbol(events: seq<MarketDataEvent>, locate: nat): seq<MarketDataEvent> {
    if events == [] then []
    else
      var before, last := ForSymbol(events[..|events| - 1], locate), events[|events| - 1];
      if last.symbol == locate then before + [last] else before
  }

  function StampedBefore(events: seq<MarketDataEvent>, timeNs: nat): seq<MarketDataEvent> {
    if events == [] then []
    else
      var before, last := StampedBefore(events[..|events| - 1], timeNs), events[|events| - 1];
      if last.exchangeTimestampNs < timeNs then before + [last] else before
  }

  /** Just the events of the symbol, in the order of the stream. */
  lemma {:induction false} OnlyTheSymbol(events: seq<MarketDataEvent>, locate: nat) returns (from: seq<nat>)
    ensures |from| == |ForSymbol(events, locate)|
    ensures forall i :: 0 <= i < |from| ==> from[i] < |events| && ForSymbol(events, locate)[i] == events[from[i]]
    ensures forall i, j :: 0 <= i < j < |from| ==> from[i] < from[j]
    ensures forall k :: 0 <= k < |events| ==> (k in from <==> events[k].symbol == locate)
  {
    from := [];
    if events != [] {
      var n := |events| - 1;
      from := OnlyTheSymbol(events[..n], locate);
      if events[n].symbol == locate {
        from := from + [n];
      }
    }
  }

  /** The reference book built from the events. */
  ghost function BookAfter(capacity: nat, events: seq<MarketDataEvent>): Reference.State {
    Reference.Run(capacity, Reference.EMPTY, Actions(events)).1
  }

  lemma BookAfterStep(capacity: nat, events: seq<MarketDataEvent>, event: MarketDataEvent)
    ensures BookAfter(capacity, events + [event]) == Reference.Process(capacity, BookAfter(capacity, events), event).1
  {
    assert Actions(events + [event])[..|events|] == Actions(events);
  }

  function EventsOf(history: seq<Moment>): seq<MarketDataEvent> {
    seq(|history|, i requires 0 <= i < |history| => history[i].event)
  }

  /** The recorded books are those of the reference. */
  ghost predicate Exact(history: seq<Moment>, capacity: nat) {
    history == []
    || (Exact(history[..|history| - 1], capacity)
        && history[|history| - 1].orders == BookAfter(capacity, EventsOf(history)).orders)
  }

  lemma {:induction false} AllStampedBefore(events: seq<MarketDataEvent>, timeNs: nat)
    requires forall i :: 0 <= i < |events| ==> events[i].exchangeTimestampNs < timeNs
    ensures StampedBefore(events, timeNs) == events
  {
    if events != [] {
      AllStampedBefore(events[..|events| - 1], timeNs);
    }
  }

  /** Of events whose timestamps never go back, those before the first that has reached
      the time. */
  lemma {:induction false} StampedBeforeIsPrefix(events: seq<MarketDataEvent>, timeNs: nat) returns (k: nat)
    requires forall i, j :: 0 <= i < j < |events| ==> events[i].exchangeTimestampNs <= events[j].exchangeTimestampNs
    ensures k <= |events| && StampedBefore(events, timeNs) == events[..k]
    ensures forall i :: 0 <= i < k ==> events[i].exchangeTimestampNs < timeNs
    ensures forall i :: k <= i < |events| ==> events[i].exchangeTimestampNs >= timeNs
  {
    var n := |events| - 1;
    if events == [] {
      k := 0;
    } else if events[n].exchangeTimestampNs < timeNs {
      k := n + 1;
      AllStampedBefore(events, timeNs);
    } else {
      k := StampedBeforeIsPrefix(events[..n], timeNs);
      assert events[..n][..k] == events[..k];
    }
  }

  lemma {:induction false} BookBeforeIsExact(history: seq<Moment>, capacity: nat, timeNs: nat)
    requires Exact(history, capacity) && Chronological(history)
    ensures BookBefore(history, timeNs) == BookAfter(capacity, StampedBefore(EventsOf(history), timeNs)).orders
  {
    if history == [] {
      assert Actions([]) == [];
    } else {
      var init := history[..|history| - 1];
      assert EventsOf(history)[..|history| - 1] == EventsOf(init);
      if history[|history| - 1].event.exchangeTimestampNs < timeNs {
        AllStampedBefore(EventsOf(history), timeNs);
      } else {
        BookBeforeIsExact(init, capacity, timeNs);
      }
    }
  }

  lemma {:induction false} ForSymbolPrefix(events: seq<MarketDataEvent>, locate: nat, n: nat)
    requires n <= |events|
    ensures ForSymbol(events[..n], locate) <= ForSymbol(events, locate)
  {
    if n < |events| {
      assert events[..|events| - 1][..n] == events[..n];
      ForSymbolPrefix(events[..|events| - 1], locate, n);
    } else {
      assert events[..n] == events;
    }
  }

  /** Room for the prices of a part of the events when there is room for all. */
  lemma RoomForPart(book: OrderBook, part: seq<MarketDataEvent>, whole: seq<MarketDataEvent>)
    requires book.Valid() && book.directory.lookup.used <= NamedBy(Actions(part)) && part <= whole
    requires |NamedBy(Actions(whole))| < book.directory.lookup.slots.Length
    ensures book.directory.lookup.AnyEmpty()
  {
    hide Snapshot.Ok, Probes, HeapOk, FreeList, Directory, HasEmpty;
    assert Actions(whole)[..|part|] == Actions(part);
    NamedPrefix(Actions(whole), |part|);
    book.directory.lookup.RoomFor(NamedBy(Actions(whole)));
  }

  lemma NamedStep(events: seq<MarketDataEvent>, event: MarketDataEvent)
    ensures NamedBy(Actions(events + [event])) == NamedBy(Actions(events)) + Named(Reference.Event(event))
  {
    var actions := Actions(events + [event]);
    assert actions[..|events|] == Actions(events);
  }

  predicate InOrder(events: seq<MarketDataEvent>) {
    forall i, j :: 0 <= i < j < |events| ==> events[i].exchangeTimestampNs <= events[j].exchangeTimestampNs
  }

  function LastStamp(events: seq<MarketDataEvent>): nat {
    if events == [] then 0 else events[|events| - 1].exchangeTimestampNs
  }

  /** The tester has taken these events of its symbol, and its book is the
      reference's. */
  ghost predicate Caught(tester: Backtester, taken: seq<MarketDataEvent>, capacity: nat)
    requires tester.Valid()
    reads tester, tester.book.Parts()
  {
    && EventsOf(tester.history) == taken && Exact(tester.history, capacity)
    && tester.book.orders.Length == capacity && tester.book.State() == BookAfter(capacity, taken)
    && tester.book.directory.lookup.used <= NamedBy(Actions(taken))
    && tester.lastTs == LastStamp(taken)
    && (InOrder(taken) ==> tester.ordered)
  }

  lemma CaughtNothing(capacity: nat)
    ensures EventsOf([]) == [] && Exact([], capacity) && BookAfter(capacity, []) == Reference.EMPTY
    ensures NamedBy(Actions([])) == {}
  {
    assert Actions([]) == [];
  }

  lemma ExactStep(history: seq<Moment>, capacity: nat, moment: Moment)
    requires Exact(history, capacity)
    requires moment.orders == BookAfter(capacity, EventsOf(history) + [moment.event]).orders
    ensures EventsOf(history + [moment]) == EventsOf(history) + [moment.event]
    ensures Exact(history + [moment], capacity)
  {
    assert (history + [moment])[..|history|] == history;
    assert EventsOf(history + [moment]) == EventsOf(history) + [moment.event];
  }

  lemma InOrderParts(taken: seq<MarketDataEvent>, event: MarketDataEvent)
    requires InOrder(taken + [event])
    ensures InOrder(taken) && (taken == [] || taken[|taken| - 1].exchangeTimestampNs <= event.exchangeTimestampNs)
  {
    var all := taken + [event];
    assert forall i :: 0 <= i < |taken| ==> all[i] == taken[i];
    assert all[|taken|] == event;
  }

  // ---------- what the strategy does ----------

  /** The last row acted on and the commitment after these tops of book. */
  function Acting(config: Config, rows: seq<L1Row>): (Option<L1Row>, int) {
    if rows == [] then (None, 0)
    else
      var before := Acting(config, rows[..|rows| - 1]);
      Decision(config, before.0, before.1, rows[|rows| - 1])
  }

  /** The orders the strategy sends when it sees these tops of book. */
  function OrdersOf(config: Config, rows: seq<L1Row>): seq<Sent> {
    if rows == [] then []
    else
      var n := |rows| - 1;
      OrdersOf(config, rows[..n])
      + OrderAfter(n, rows[n], config.latencyNs, Acting(config, rows[..n]).1, Acting(config, rows).1)
  }

  /** The order that turns one commitment into the next, if they differ. */
  function OrderAfter(n: nat, row: L1Row, latencyNs: nat, was: int, now: int): seq<Sent> {
    if now == was then [] else [Sent(n, OrderFor(row.timestampNs + latencyNs, now - was))]
  }

  /** On how many of them it acts. */
  function ActedOn(config: Config, rows: seq<L1Row>): nat {
    if rows == [] then 0
    else
      var init := rows[..|rows| - 1];
      ActedOn(config, init) + if Acting(config, rows).0 == Acting(config, init).0 then 0 else 1
  }

  lemma OneMoreActedOn(config: Config, rows: seq<L1Row>, row: L1Row)
    ensures ActedOn(config, rows + [row])
         == ActedOn(config, rows) + if Acting(config, rows + [row]).0 == Acting(config, rows).0 then 0 else 1
  {
    hide Acting;
    assert (rows + [row])[..|rows|] == rows;
  }

  /** One row for each event: the top of the reference book behind it. */
  ghost predicate TopsShown(rows: seq<L1Row>, events: seq<MarketDataEvent>, capacity: nat) {
    |rows| == |events| && forall k :: 0 <= k < |rows| ==> TopAfter(rows[k], events[..k + 1], capacity)
  }

  ghost predicate TopAfter(row: L1Row, events: seq<MarketDataEvent>, capacity: nat) {
    && events != []
    && row.sequence == events[|events| - 1].sequence && row.timestampNs == events[|events| - 1].exchangeTimestampNs
    && TopByPrices(BookAfter(capacity, events).orders, row)
  }

  lemma OneMoreTop(rows: seq<L1Row>, events: seq<MarketDataEvent>, capacity: nat, row: L1Row, event: MarketDataEvent)
    requires TopsShown(rows, events, capacity) && TopAfter(row, events + [event], capacity)
    ensures TopsShown(rows + [row], events + [event], capacity)
  {
    hide TopAfter;
    forall k | 0 <= k < |rows| + 1
      ensures TopAfter((rows + [row])[k], (events + [event])[..k + 1], capacity)
    {
      assert (events + [event])[..k + 1] == if k < |rows| then events[..k + 1] else events + [event];
    }
  }

  /** The tester has sent the orders the strategy sends on these rows. */
  ghost predicate Follows(tester: Backtester, rows: seq<L1Row>)
    reads tester
  {
    && (tester.prevL1, tester.committedUnits) == Acting(tester.config, rows)
    && tester.sent == OrdersOf(tester.config, rows) && |tester.history| == |rows|
    && tester.l1Updates == ActedOn(tester.config, rows)
  }

  lemma NoRows(config: Config, capacity: nat)
    ensures TopsShown([], [], capacity) && Acting(config, []) == (None, 0) && OrdersOf(config, []) == []
    ensures ActedOn(config, []) == 0
  {
  }

  lemma OneMoreActing(config: Config, rows: seq<L1Row>, row: L1Row)
    ensures Acting(config, rows + [row]) == Decision(config, Acting(config, rows).0, Acting(config, rows).1, row)
  {
    hide Decision;
    assert (rows + [row])[..|rows|] == rows;
  }

  lemma OneMoreRow(config: Config, rows: seq<L1Row>, row: L1Row)
    ensures
      var was, now := Acting(config, rows), Acting(config, rows + [row]);
      && now == Decision(config, was.0, was.1, row)
      && OrdersOf(config, rows + [row])
         == OrdersOf(config, rows) + OrderAfter(|rows|, row, config.latencyNs, was.1, now.1)
  {
    hide Acting, Decision, OrderAfter;
    assert (rows + [row])[..|rows|] == rows;
    OneMoreActing(config, rows, row);
  }

  /** The rule, row by row: what was last acted on and what was committed before each
      row and behind the last. */
  ghost predicate RunsByRule(config: Config, rows: seq<L1Row>, acted: seq<Option<L1Row>>, commitments: seq<int>) {
    && |acted| == |commitments| == |rows| + 1 && acted[0] == None && commitments[0] == 0
    && forall k :: 0 <= k < |rows| ==>
         ByRule(config, rows[k], acted[k], commitments[k], acted[k + 1], commitments[k + 1])
  }

  /** One order for each change of the commitment: a buy if it rises, a sell if it
      falls, of just the difference, that arrives the latency after the row. */
  ghost predicate SendsChanges(rows: seq<L1Row>, commitments: seq<int>, latencyNs: nat, sent: seq<Sent>) {
    && |commitments| == |rows| + 1
    && (forall i :: 0 <= i < |sent| ==>
          && sent[i].decided < |rows|
          && var k, order := sent[i].decided, sent[i].order;
             && order.arrivalNs == rows[k].timestampNs + latencyNs && order.quantity > 0
             && (order.side == Buy ==> commitments[k + 1] == commitments[k] + order.quantity)
             && (order.side == Sell ==> commitments[k + 1] == commitments[k] - order.quantity))
    && (forall i, j :: 0 <= i < j < |sent| ==> sent[i].decided < sent[j].decided)
    && (forall k :: 0 <= k < |rows| && commitments[k + 1] != commitments[k] ==> SentAt(sent, k))
  }

  ghost predicate SentAt(sent: seq<Sent>, k: nat) {
    exists i :: 0 <= i < |sent| && sent[i].decided == k
  }

  /** How many rows were acted on. */
  function Updates(acted: seq<Option<L1Row>>): nat {
    if |acted| < 2 then 0
    else Updates(acted[..|acted| - 1]) + if acted[|acted| - 1] == acted[|acted| - 2] then 0 else 1
  }

  lemma {:induction false} RuleFollowed(config: Config, rows: seq<L1Row>)
    returns (acted: seq<Option<L1Row>>, commitments: seq<int>)
    ensures |acted| == |commitments| == |rows| + 1 && RunsByRule(config, rows, acted, commitments)
    ensures SendsChanges(rows, commitments, config.latencyNs, OrdersOf(config, rows))
    ensures Acting(config, rows) == (acted[|rows|], commitments[|rows|]) && Updates(acted) == ActedOn(config, rows)
  {
    hide RunsByRule, SendsChanges, Acting, ActedOn, OrdersOf, Decision, ByRule, OrderFor;
    NoRows(config, 0);
    if rows == [] {
      acted, commitments := [None], [0];
      NothingSent(config);
    } else {
      var init, row := rows[..|rows| - 1], rows[|rows| - 1];
      assert init + [row] == rows;
      acted, commitments := RuleFollowed(config, init);
      OneMoreRow(config, init, row);
      OneMoreActedOn(config, init, row);
      var (prev, committed) := Acting(config, init);
      DecisionByRule(config, prev, committed, row);
      var (prevNow, now) := Decision(config, prev, committed, row);
      OneMoreByRule(config, init, acted, commitments, row, prevNow, now);
      OneMoreChange(init, commitments, config.latencyNs, OrdersOf(config, init), row, now);
      assert (acted + [prevNow])[..|acted|] == acted;
      acted, commitments := acted + [prevNow], commitments + [now];
    }
  }

  lemma NothingSent(config: Config)
    ensures RunsByRule(config, [], [None], [0]) && SendsChanges([], [0], config.latencyNs, [])
  {
  }

  lemma OneMoreByRule(config: Config, rows: seq<L1Row>, acted: seq<Option<L1Row>>, commitments: seq<int>, row: L1Row,
                      prevNow: Option<L1Row>, now: int)
    requires RunsByRule(config, rows, acted, commitments)
    requires ByRule(config, row, acted[|rows|], commitments[|rows|], prevNow, now)
    ensures RunsByRule(config, rows + [row], acted + [prevNow], commitments + [now])
  {
    hide ByRule;
  }

  lemma OneMoreChange(rows: seq<L1Row>, commitments: seq<int>, latencyNs: nat, sent: seq<Sent>, row: L1Row, now: int)
    requires SendsChanges(rows, commitments, latencyNs, sent)
    ensures
      var more := OrderAfter(|rows|, row, latencyNs, commitments[|rows|], now);
      SendsChanges(rows + [row], commitments + [now], latencyNs, sent + more)
  {
    var more := OrderAfter(|rows|, row, latencyNs, commitments[|rows|], now);
    var all, after := rows + [row], commitments + [now];
    forall k | 0 <= k < |all| && after[k + 1] != after[k]
      ensures SentAt(sent + more, k)
    {
      if k < |rows| {
        assert SentAt(sent, k);
        var i :| 0 <= i < |sent| && sent[i].decided == k;
        assert (sent + more)[i].decided == k;
      } else {
        assert (sent + more)[|sent|].decided == k;
      }
    }
  }

  // ---------- what becomes of the orders ----------

  /** The events behind the book an order meets. */
  function EventsMet(events: seq<MarketDataEvent>, latencyNs: nat, s: Sent): seq<MarketDataEvent>
    requires s.decided < |events|
  {
    if latencyNs == 0 then events[..s.decided + 1] else StampedBefore(events, s.order.arrivalNs)
  }

  /** Every order has arrived the latency after the event it was decided on, and was
      filled at the opposite touch of the reference book of just the events it had to
      meet, or found that side empty. */
  ghost predicate FairRun(events: seq<MarketDataEvent>, capacity: nat, latencyNs: nat, sent: seq<Sent>,
                          outcomes: seq<Option<Price>>) {
    && |outcomes| == |sent|
    && forall i :: 0 <= i < |sent| ==>
         && sent[i].decided < |events|
         && sent[i].order.arrivalNs == events[sent[i].decided].exchangeTimestampNs + latencyNs
         && AtBest(BookAfter(capacity, EventsMet(events, latencyNs, sent[i])).orders, sent[i].order, outcomes[i])
  }

  lemma {:induction false} MomentIsExact(history: seq<Moment>, capacity: nat, k: nat)
    requires Exact(history, capacity) && k < |history|
    ensures history[k].orders == BookAfter(capacity, EventsOf(history)[..k + 1]).orders
  {
    var n := |history| - 1;
    assert EventsOf(history)[..n] == EventsOf(history[..n]);
    if k < n {
      MomentIsExact(history[..n], capacity, k);
      assert EventsOf(history)[..k + 1] == EventsOf(history[..n])[..k + 1];
    } else {
      assert EventsOf(history)[..k + 1] == EventsOf(history);
    }
  }

  lemma FairIsExact(history: seq<Moment>, capacity: nat, latencyNs: nat, sent: seq<Sent>, outcomes: seq<Option<Price>>)
    requires Exact(history, capacity) && (latencyNs == 0 || Chronological(history))
    requires Decisions(sent, history, latencyNs) && AllFair(history, latencyNs, sent, outcomes) && |outcomes| == |sent|
    ensures FairRun(EventsOf(history), capacity, latencyNs, sent, outcomes)
  {
    hide Exact, BookAfter, Chronological, Crossed, AtBest, BookBefore, StampedBefore;
    forall i | 0 <= i < |sent|
      ensures BookMet(history, latencyNs, sent[i])
           == BookAfter(capacity, EventsMet(EventsOf(history), latencyNs, sent[i])).orders
    {
      if latencyNs == 0 {
        MomentIsExact(history, capacity, sent[i].decided);
      } else {
        BookBeforeIsExact(history, capacity, sent[i].order.arrivalNs);
      }
    }
    forall i | 0 <= i < |sent|
      ensures AtBest(BookAfter(capacity, EventsMet(EventsOf(history), latencyNs, sent[i])).orders, sent[i].order,
                     outcomes[i])
    {
      CrossedAtBest(BookMet(history, latencyNs, sent[i]), sent[i].order, outcomes[i]);
    }
  }

  // ---------- the run ----------

  method TakeOne(tester: Backtester, event: MarketDataEvent, ghost taken: seq<MarketDataEvent>, ghost capacity: nat)
    requires tester.Valid() && Caught(tester, taken, capacity) && event.symbol == tester.config.locate
    requires tester.book.directory.lookup.AnyEmpty()
    modifies tester, tester.book.Parts()
    ensures tester.Valid() && Caught(tester, taken + [event], capacity)
    ensures tester.Decided(tester.book.State().orders, event, old(tester.prevL1), old(tester.committedUnits))
    ensures tester.Ordered(old(tester.sent), old(tester.committedUnits))
    ensures tester.l1Updates == old(tester.l1Updates) + if tester.prevL1 == old(tester.prevL1) then 0 else 1
  {
    hide Snapshot.Ok, Probes, HeapOk, FreeList, Directory, BookOf, HasEmpty, OrderAt, Named, Exact, BookAfter,
         Reference.Process, EventsOf, OrderBook.Valid, OrderBook.State, Backtester.Ledger, Backtester.Timeline,
         Backtester.Summed, Backtester.Dispatched, Backtester.Settled, Backtester.Decided, Backtester.Ordered;
    BookAfterStep(capacity, taken, event);
    NamedStep(taken, event);
    if InOrder(taken + [event]) {
      InOrderParts(taken, event);
    }
    ghost var history := tester.history;
    assert !tester.book.Refuses(event);
    tester.OnEvent(event);
    ExactStep(history, capacity, Moment(event, tester.book.State().orders));
    NothingTaken(taken, event);
  }

  lemma NothingTaken(taken: seq<MarketDataEvent>, event: MarketDataEvent)
    ensures taken + [event] != [] && (taken + [event])[|taken + [event]| - 1] == event
  {
  }

  /** What one more event makes the strategy do. */
  lemma Follow(tester: Backtester, rows: seq<L1Row>, event: MarketDataEvent, prevWas: Option<L1Row>, committedWas: int,
               sentWas: seq<Sent>, taken: seq<MarketDataEvent>, capacity: nat) returns (row: L1Row)
    requires tester.book.Valid() && tester.book.State() == BookAfter(capacity, taken + [event])
    requires |tester.history| == |rows| + 1 && tester.lastTs == event.exchangeTimestampNs
    requires tester.Decided(tester.book.State().orders, event, prevWas, committedWas)
    requires tester.Ordered(sentWas, committedWas)
    requires (prevWas, committedWas) == Acting(tester.config, rows) && sentWas == OrdersOf(tester.config, rows)
    requires tester.l1Updates == ActedOn(tester.config, rows) + if tester.prevL1 == prevWas then 0 else 1
    ensures Follows(tester, rows + [row]) && TopAfter(row, taken + [event], capacity)
  {
    hide Acting, ActedOn, OrdersOf, Decision, ShowsTop, TopByPrices, ByRule, BookAfter, OrderBook.Valid,
         OrderBook.State;
    row :| row.sequence == event.sequence && row.timestampNs == event.exchangeTimestampNs
      && TopByPrices(tester.book.State().orders, row)
      && (tester.prevL1, tester.committedUnits) == Decision(tester.config, prevWas, committedWas, row);
    OneMoreRow(tester.config, rows, row);
    OneMoreActedOn(tester.config, rows, row);
  }

  /** One more event of the stream. */
  method TakeNext(tester: Backtester, ghost capacity: nat, events: seq<MarketDataEvent>, n: nat,
                  ghost taken: seq<MarketDataEvent>, ghost rows: seq<L1Row>)
    returns (ghost takenNow: seq<MarketDataEvent>, ghost rowsNow: seq<L1Row>)
    requires n < |events| && tester.Valid() && Caught(tester, taken, capacity)
    requires taken == ForSymbol(events[..n], tester.config.locate)
    requires |NamedBy(Actions(ForSymbol(events, tester.config.locate)))| < tester.book.directory.lookup.slots.Length
    requires TopsShown(rows, taken, capacity) && Follows(tester, rows)
    modifies tester, tester.book.Parts()
    ensures tester.Valid() && Caught(tester, takenNow, capacity)
    ensures takenNow == ForSymbol(events[..n + 1], tester.config.locate)
    ensures TopsShown(rowsNow, takenNow, capacity) && Follows(tester, rowsNow)
  {
    hide Snapshot.Ok, Probes, HeapOk, FreeList, Directory, BookOf, HasEmpty, Exact, NamedBy, BookAfter, Acting,
         OrdersOf, TopsShown, TopAfter, OrderBook.Valid, OrderBook.State, LevelDirectory.Footprint, OrderBook.Parts,
         Backtester.Summed, Decision, Backtester.Ordered, Backtester.Ledger, Named, ActedOn, InOrder;
    takenNow, rowsNow := taken, rows;
    assert events[..n + 1][..n] == events[..n];
    if events[n].symbol == tester.config.locate {
      ForSymbolPrefix(events, tester.config.locate, n);
      RoomForPart(tester.book, taken, ForSymbol(events, tester.config.locate));
      ghost var prev, committed, sent := tester.prevL1, tester.committedUnits, tester.sent;
      TakeOne(tester, events[n], taken, capacity);
      ghost var row := Follow(tester, rows, events[n], prev, committed, sent, taken, capacity);
      OneMoreTop(rows, taken, capacity, row, events[n]);
      takenNow, rowsNow := taken + [events[n]], rows + [row];
    } else {
      tester.OnEvent(events[n]);
    }
  }

  /** With a level index that has room for the symbol's prices and, unless there is no
      latency, timestamps that never go back: the strategy follows its rule on the tops
      of the reference book, sends one order for each change of its commitment, each
      meets the book of exactly the events stamped before it arrives, the fills are
      those of the orders that found something to cross, and a last one closes what is
      left. */
  method RunBacktest(config: Config, capacity: nat, mixId: OrderId -> nat, mixKey: LevelKey -> nat,
                     events: seq<MarketDataEvent>)
    returns (tester: Backtester, result: Result, ghost rows: seq<L1Row>, ghost acted: seq<Option<L1Row>>,
             ghost commitments: seq<int>, ghost own: nat)
    requires 0 < capacity <= NPOS
    requires config.latencyNs == 0 || InOrder(ForSymbol(events, config.locate))
    requires |NamedBy(Actions(ForSymbol(events, config.locate)))| < 2 * capacity
    ensures TopsShown(rows, ForSymbol(events, config.locate), capacity) && tester.sent == OrdersOf(config, rows)
    ensures RunsByRule(config, rows, acted, commitments)
    ensures SendsChanges(rows, commitments, config.latencyNs, tester.sent)
    ensures FairRun(ForSymbol(events, config.locate), capacity, config.latencyNs, tester.sent, tester.outcomes)
    ensures own <= |tester.fills| && tester.fills[..own] == FillsOf(tester.sent, tester.outcomes)
    ensures Flattened(tester.fills, own, BookAfter(capacity, ForSymbol(events, config.locate)).orders,
                      LastStamp(ForSymbol(events, config.locate)))
    ensures Unfilled(tester.outcomes) == 0 ==> Position(tester.fills[..own]) == commitments[|rows|]
    ensures result.position == Position(tester.fills) && result.cashTicks == Cash(tester.fills)
    ensures result.unfilled == Unfilled(tester.outcomes) + if result.position == 0 then 0 else 1
    ensures result.trades == |tester.fills| && result.l1Updates == Updates(acted)
    ensures result.finalPnl2x == if acted[|rows|].None? then 0
      else 2 * result.cashTicks + result.position * (acted[|rows|].value.bidPx + acted[|rows|].value.askPx)
  {
    hide Snapshot.Ok, Probes, HeapOk, FreeList, Directory, BookOf, HasEmpty, IsTableSize, Exact, NamedBy, BookAfter,
         Position, Cash, InOrder, Chronological, Acting, OrdersOf, TopsShown, TopAfter, FairRun, Flattened, FillsOf,
         Unfilled, Decisions, AllFair, OrderBook.Valid, OrderBook.State, LevelDirectory.Footprint, OrderBook.Parts,
         Backtester.Summed, Decision, Backtester.Ordered, Touch, Backtester.Ledger, Named, RunsByRule, SendsChanges,
         Updates, ActedOn;
    tester := new Backtester(config, capacity, mixId, mixKey);
    ghost var taken: seq<MarketDataEvent> := [];
    rows := [];
    var n := 0;
    CaughtNothing(capacity);
    NoRows(config, capacity);
    TableSizeAtLeast(tester.book.directory.lookup.slots.Length, 2 * capacity);
    while n < |events|
      invariant 0 <= n <= |events| && tester.Valid() && tester.config == config
      invariant fresh(tester) && fresh(tester.book.Parts())
      invariant taken == ForSymbol(events[..n], config.locate) && Caught(tester, taken, capacity)
      invariant TopsShown(rows, taken, capacity) && Follows(tester, rows)
      invariant tester.book.directory.lookup.slots.Length >= 2 * capacity
    {
      taken, rows := TakeNext(tester, capacity, events, n, taken, rows);
      n := n + 1;
    }
    assert events[..n] == events;
    acted, commitments := RuleFollowed(config, rows);
    result, own := tester.Finish();
    FairIsExact(tester.history, capacity, config.latencyNs, tester.sent, tester.outcomes);
  }
}
