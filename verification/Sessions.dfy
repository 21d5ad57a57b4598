/** Whole runs of a book, in any mix of exchange events and client requests. */
module Sessions {
  import opened MarketTypes
  import opened Ladders
  import opened ProbeSlots
  import opened ProbeTables
  import opened LevelDirectories
  import opened BookStates
  import opened FreeLists
  import opened OrderBooks
  import Matching
  import MatchingLaws
  import Reference

  /** The prices at which an action may rest an order. A replacement inherits its
      side, so it may name either. */
  function Named(action: Reference.Action): set<LevelKey> {
    match action
    case Event(event) =>
      (match event.kind
       case Add => {(event.side, event.priceTicks)}
       case Modify => {(event.side, event.priceTicks)}
       case Replace => {(Buy, event.priceTicks), (Sell, event.priceTicks)}
       case Cancel => {}
       case Trade => {}
       case Reduce => {})
    case Request(request) =>
      if request.kind == New && Reference.MayRest(request) then {(request.side, request.priceTicks)} else {}
  }

  function NamedBy(actions: seq<Reference.Action>): set<LevelKey> {
    if actions == [] then {} else NamedBy(actions[..|actions| - 1]) + Named(actions[|actions| - 1])
  }

  lemma {:induction false} NamedPrefix(actions: seq<Reference.Action>, n: nat)
    requires n <= |actions|
    ensures NamedBy(actions[..n]) <= NamedBy(actions)
  {
    if n < |actions| {
      assert actions[..|actions| - 1][..n] == actions[..n];
      NamedPrefix(actions[..|actions| - 1], n);
    } else {
      assert actions[..n] == actions;
    }
  }

  lemma RestsNamed(st: Reference.State, event: MarketDataEvent)
    ensures RestingPrice(st, event).Some? ==> RestingPrice(st, event).value in Named(Reference.Event(event))
  {
    if event.kind == Replace {
      assert (Buy, event.priceTicks) in Named(Reference.Event(event));
      assert (Sell, event.priceTicks) in Named(Reference.Event(event));
      assert event.orderId in st.orders ==>
        st.orders[event.orderId].side == Buy || st.orders[event.orderId].side == Sell;
    }
  }

  function Actions(events: seq<MarketDataEvent>): seq<Reference.Action> {
    seq(|events|, i requires 0 <= i < |events| => Reference.Event(events[i]))
  }

  /** One action, while the level index still has an Empty slot. */
  method Perform(book: OrderBook, action: Reference.Action) returns (outcome: Reference.Outcome)
    requires book.Valid() && book.directory.lookup.AnyEmpty()
    modifies book.Parts()
    ensures book.Valid()
    ensures (outcome, book.State()) == Reference.Step(book.orders.Length, old(book.State()), action)
    ensures book.directory.lookup.used <= old(book.directory.lookup.used) + Named(action)
  {
    hide Snapshot.Ok, Probes, HeapOk, FreeList, Directory, BookOf, HasEmpty, Reference.Process, Reference.Submit,
         OrderAt, Reference.Match;
    match action {
      case Event(event) =>
        RestsNamed(book.State(), event);
        var r := book.ProcessEvent(event);
        outcome := Reference.Processed(r);
      case Request(request) =>
        var r, fills := book.Submit(request);
        outcome := Reference.Submitted(r, fills);
    }
  }

  /** A run that names fewer prices than the level index has slots agrees with the
      reference throughout: every outcome, every fill, and the book at the end. */
  method RunAll(book: OrderBook, actions: seq<Reference.Action>) returns (outcomes: seq<Reference.Outcome>)
    requires book.Valid()
    requires |book.directory.lookup.used + NamedBy(actions)| < book.directory.lookup.slots.Length
    modifies book.Parts()
    ensures book.Valid()
    ensures (outcomes, book.State()) == Reference.Run(book.orders.Length, old(book.State()), actions)
  {
    hide Snapshot.Ok, Probes, HeapOk, FreeList, Directory, BookOf, HasEmpty, Reference.Step;
    ghost var keys := book.directory.lookup.used + NamedBy(actions);
    outcomes := [];
    var n := 0;
    while n < |actions|
      invariant 0 <= n <= |actions| && book.Valid()
      invariant book.directory.lookup.used <= old(book.directory.lookup.used) + NamedBy(actions[..n])
      invariant (outcomes, book.State()) == Reference.Run(book.orders.Length, old(book.State()), actions[..n])
    {
      NamedPrefix(actions, n);
      book.directory.lookup.RoomFor(keys);
      var outcome := Perform(book, actions[n]);
      outcomes := outcomes + [outcome];
      assert actions[..n + 1][..n] == actions[..n] && actions[..n + 1][n] == actions[n];
      n := n + 1;
    }
    assert actions[..n] == actions;
  }

  /** The same from an empty book, whatever the hash functions. */
  method Session(maxOrders: nat, mixId: OrderId -> nat, mixKey: LevelKey -> nat, actions: seq<Reference.Action>)
    returns (book: OrderBook, outcomes: seq<Reference.Outcome>)
    requires 0 < maxOrders <= NPOS && |NamedBy(actions)| < 2 * maxOrders
    ensures book.Valid() && fresh(book.Parts())
    ensures (outcomes, book.State()) == Reference.Run(maxOrders, Reference.EMPTY, actions)
  {
    hide Snapshot.Ok, Probes, HeapOk, FreeList, Directory, BookOf, HasEmpty, Reference.Run, IsTableSize;
    book := new OrderBook(maxOrders, mixId, mixKey);
    TableSizeAtLeast(book.directory.lookup.slots.Length, 2 * maxOrders);
    assert book.directory.lookup.used + NamedBy(actions) == NamedBy(actions);
    outcomes := RunAll(book, actions);
  }

  /** A book that takes nothing but requests stays uncrossed, also when its level
      index refuses some of them. */
  method TakeRequests(book: OrderBook, requests: seq<OrderRequest>)
    requires book.Valid() && MatchingLaws.Uncrossed(book.State().orders)
    modifies book.Parts()
    ensures book.Valid() && MatchingLaws.Uncrossed(book.State().orders)
  {
    hide Snapshot.Ok, Probes, HeapOk, FreeList, Directory, BookOf, HasEmpty, MatchingLaws.Uncrossed,
         Matching.SubmitOutcome;
    var n := 0;
    while n < |requests|
      invariant 0 <= n <= |requests| && book.Valid() && MatchingLaws.Uncrossed(book.State().orders)
    {
      ghost var st, anyEmpty := book.State(), book.directory.lookup.AnyEmpty();
      var r, fills := book.Submit(requests[n]);
      MatchingLaws.OutcomeKeepsUncrossed(book.orders.Length, st, requests[n], r, fills, book.State(), anyEmpty);
      n := n + 1;
    }
  }
}
