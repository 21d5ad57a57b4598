/** What a book does once its level index has no Empty slot left: for every capacity a
    run leads there that names as many prices as the index has slots, and each of the
    ways in which the book then falls short of the reference. */
module Exhaustions {
  import opened MarketTypes
  import opened Ladders
  import opened ProbeSlots
  import opened ProbeTables
  import opened LevelDirectories
  import opened BookStates
  import opened FreeLists
  import opened Fifos
  import opened OrderBooks
  import Reference

  function Feed(kind: EventType, id: OrderId, price: Price): MarketDataEvent {
    MarketDataEvent(0, 0, 0, kind, id, id, Buy, price, 1)
  }

  function Offer(id: OrderId, price: Price, quantity: Quantity): OrderRequest {
    OrderRequest(New, id, Sell, price, quantity, Limit, GTC)
  }

  /** The home of each price is a slot of its own, so that every slot is some price's
      home. */
  ghost predicate Cover(mix: LevelKey -> nat, prices: seq<Price>) {
    forall i :: 0 <= i < |prices| ==> mix((Buy, prices[i])) % |prices| == i
  }

  function KeysOf(prices: seq<Price>): set<LevelKey> {
    set p | p in prices :: (Buy, p)
  }

  lemma {:induction false} KeysAtMost(prices: seq<Price>)
    ensures |KeysOf(prices)| <= |prices|
  {
    if prices != [] {
      var n := |prices| - 1;
      KeysAtMost(prices[..n]);
      OneMoreKey(prices[..n], prices[n]);
      assert prices[..n] + [prices[n]] == prices;
    }
  }

  lemma OneMoreKey(prices: seq<Price>, price: Price)
    ensures KeysOf(prices + [price]) == KeysOf(prices) + {(Buy, price)}
  {
    forall k | k in KeysOf(prices) + {(Buy, price)}
      ensures k in KeysOf(prices + [price])
    {
      assert k.1 in prices + [price];
    }
  }

  lemma {:induction false} SizeIsUnique(a: nat, b: nat, value: nat)
    requires IsTableSize(a, value) && IsTableSize(b, value)
    ensures a == b
  {
    var j: nat :| a == Power(j) && (j == 0 || Power(j - 1) < value);
    var k: nat :| b == Power(k) && (k == 0 || Power(k - 1) < value);
    if j < k {
      PowersGrow(j, k - 1);
    } else if k < j {
      PowersGrow(k, j - 1);
    }
  }

  lemma {:induction false} PowersGrow(j: nat, k: nat)
    requires j <= k
    ensures 1 <= Power(j) <= Power(k)
    decreases k
  {
    if j < k {
      PowersGrow(j, k - 1);
    } else if k > 0 {
      PowersGrow(k - 1, k - 1);
    }
  }

  lemma KeyThere(prices: seq<Price>, price: Price)
    requires price in prices
    ensures (Buy, price) in KeysOf(prices)
  {
  }

  /** All homes are taken: no slot is Empty any more. */
  lemma HomesTaken(book: OrderBook, prices: seq<Price>)
    requires book.Valid() && UsedUp(book, prices)
    ensures !book.directory.lookup.AnyEmpty()
  {
    hide Snapshot.Ok, Probes, HeapOk, FreeList, Directory, BookOf;
    forall i | 0 <= i < |prices|
      ensures !book.directory.lookup.slots[i].Empty?
    {
      KeyThere(prices, prices[i]);
      book.directory.lookup.HomeTaken((Buy, prices[i]));
    }
  }

  /** While fewer prices were used than the level index has slots, one is Empty. */
  lemma RoomLeft(book: OrderBook, prices: seq<Price>)
    requires book.Valid() && book.directory.lookup.used == KeysOf(prices)
    requires |prices| < book.directory.lookup.slots.Length
    ensures book.directory.lookup.AnyEmpty()
  {
    hide Snapshot.Ok, Probes, HeapOk, FreeList, Directory, BookOf, HasEmpty;
    KeysAtMost(prices);
    book.directory.lookup.RoomFor(KeysOf(prices));
  }

  /** An empty book, into which an order comes and goes at a price. */
  method ComeAndGo(book: OrderBook, price: Price)
    requires book.Valid() && book.directory.lookup.AnyEmpty() && book.State().orders == map[]
    modifies book.Parts()
    ensures book.Valid() && book.State().orders == map[]
    ensures book.directory.lookup.used == old(book.directory.lookup.used) + {(Buy, price)}
  {
    hide Snapshot.Ok, Probes, HeapOk, FreeList, Directory, BookOf, HasEmpty, OrderAt;
    var added := book.ProcessEvent(Feed(Add, 1, price));
    assert book.State().orders == map[1 := RefOrder(Buy, price, 1, old(book.State()).nextPriority)];
    var canceled := book.ProcessEvent(Feed(Cancel, 1, price));
    assert book.State().orders == map[];
  }

  /** One order rests at `price`, and nothing else. */
  ghost predicate OnlyOrder(orders: Reference.Orders, price: Price) {
    && orders.Keys == {1}
    && orders[1].side == Buy && orders[1].price == price && orders[1].quantity == 1
  }

  /** A book for any number of orders whose level index has been used up: orders came
      and went at all prices of a cover but the last, where the only order rests. */
  method UseUp(maxOrders: nat, mixId: OrderId -> nat, mixKey: LevelKey -> nat, prices: seq<Price>)
    returns (book: OrderBook)
    requires 0 < maxOrders <= NPOS && IsTableSize(|prices|, 2 * maxOrders) && Cover(mixKey, prices)
    ensures prices != [] && book.Valid() && book.orders.Length == maxOrders && fresh(book.Parts())
    ensures UsedUp(book, prices) && OnlyOrder(book.State().orders, prices[|prices| - 1])
  {
    hide Snapshot.Ok, Probes, HeapOk, FreeList, Directory, BookOf, HasEmpty, IsTableSize, Cover, KeysOf;
    book := new OrderBook(maxOrders, mixId, mixKey);
    SizeIsUnique(book.directory.lookup.slots.Length, |prices|, 2 * maxOrders);
    TableSizeAtLeast(|prices|, 2 * maxOrders);
    var n := 0;
    NoKeys();
    while n < |prices| - 1
      invariant 0 <= n < |prices| == book.directory.lookup.slots.Length
      invariant book.Valid() && book.State().orders == map[] && fresh(book.Parts())
      invariant book.directory.lookup.used == KeysOf(prices[..n]) && book.directory.lookup.mix == mixKey
    {
      RoomLeft(book, prices[..n]);
      OneMoreKey(prices[..n], prices[n]);
      assert prices[..n] + [prices[n]] == prices[..n + 1];
      ComeAndGo(book, prices[n]);
      n := n + 1;
    }
    RoomLeft(book, prices[..n]);
    OneMoreKey(prices[..n], prices[n]);
    assert prices[..n] + [prices[n]] == prices;
    AddFirst(book, prices[n]);
  }

  /** The level index has had a key at each of its homes. */
  ghost predicate UsedUp(book: OrderBook, prices: seq<Price>)
    reads book.directory.lookup
  {
    && book.directory.lookup.slots.Length == |prices|
    && Cover(book.directory.lookup.mix, prices) && KeysOf(prices) <= book.directory.lookup.used
  }

  lemma NoKeys()
    ensures KeysOf([]) == {}
  {
  }

  method AddFirst(book: OrderBook, price: Price)
    requires book.Valid() && book.directory.lookup.AnyEmpty() && book.State().orders == map[]
    modifies book.Parts()
    ensures book.Valid() && OnlyOrder(book.State().orders, price)
    ensures book.directory.lookup.used == old(book.directory.lookup.used) + {(Buy, price)}
  {
    hide Snapshot.Ok, Probes, HeapOk, FreeList, Directory, BookOf, HasEmpty, OrderAt;
    var added := book.ProcessEvent(Feed(Add, 1, price));
    assert book.State().orders == map[1 := RefOrder(Buy, price, 1, old(book.State()).nextPriority)];
  }

  // ---------- what the book does then ----------

  /** An empty book for any number of orders refuses an order that the reference
      takes. */
  method RefusesWhileEmpty(maxOrders: nat, mixId: OrderId -> nat, mixKey: LevelKey -> nat, prices: seq<Price>,
                           price: Price)
    returns (book: OrderBook, r: ProcessResult)
    requires 0 < maxOrders <= NPOS && IsTableSize(|prices|, 2 * maxOrders) && Cover(mixKey, prices)
    ensures book.Valid() && book.State().orders == map[] && book.orders.Length == maxOrders
    ensures r == CapacityExhausted && Reference.Process(maxOrders, book.State(), Feed(Add, 1, price)).0 == Applied
  {
    hide Snapshot.Ok, Probes, HeapOk, FreeList, Directory, BookOf, HasEmpty, IsTableSize, Cover;
    book := UseUp(maxOrders, mixId, mixKey, prices);
    var canceled := book.Cancel(1);
    assert book.State().orders == map[];
    HomesTaken(book, prices);
    r := book.ProcessEvent(Feed(Add, 1, price));
  }

  /** A replacement that the reference applies leaves an empty book. */
  method LosesReplacement(maxOrders: nat, mixId: OrderId -> nat, mixKey: LevelKey -> nat, prices: seq<Price>,
                          price: Price)
    returns (book: OrderBook, r: ProcessResult, ghost before: Reference.State)
    requires 0 < maxOrders <= NPOS && IsTableSize(|prices|, 2 * maxOrders) && Cover(mixKey, prices)
    ensures book.Valid() && book.State().orders == map[] && r == CapacityExhausted
    ensures |before.orders| == 1 && Reference.Process(maxOrders, before, Feed(Replace, 1, price)).0 == Applied
  {
    hide Snapshot.Ok, Probes, HeapOk, FreeList, Directory, BookOf, HasEmpty, IsTableSize, Cover;
    book := UseUp(maxOrders, mixId, mixKey, prices);
    before := book.State();
    HomesTaken(book, prices);
    r := book.ProcessEvent(Feed(Replace, 1, price));
    assert book.State().orders == map[];
  }

  /** A modification that the reference applies takes the only order out of its
      queue. */
  method StrandsTheOnlyOrder(maxOrders: nat, mixId: OrderId -> nat, mixKey: LevelKey -> nat, prices: seq<Price>,
                             price: Price)
    returns (book: OrderBook, r: ProcessResult, ghost before: Reference.State)
    requires 0 < maxOrders <= NPOS && IsTableSize(|prices|, 2 * maxOrders) && Cover(mixKey, prices)
    requires price != prices[|prices| - 1]
    ensures r == CapacityExhausted && book.Stranded(1) && !book.Valid()
    ensures |before.orders| == 1 && Reference.Process(maxOrders, before, Feed(Modify, 1, price)).0 == Applied
  {
    hide Snapshot.Ok, Probes, HeapOk, FreeList, Directory, BookOf, HasEmpty, IsTableSize, Cover, OrderBook.Stranded;
    book := UseUp(maxOrders, mixId, mixKey, prices);
    before := book.State();
    HomesTaken(book, prices);
    r := book.ProcessEvent(Feed(Modify, 1, price));
  }

  /** What the reference does with an offer of `quantity` at the price of the only
      order: one unit is filled and the rest, if any, rests. */
  lemma OfferMeetsOrder(capacity: nat, st: Reference.State, price: Price, quantity: Quantity)
    requires OnlyOrder(st.orders, price) && quantity > 1 && capacity > 0
    ensures
      var req := Offer(2, price, quantity);
      && Reference.Match(st.orders, req, quantity, st.fillSequence)
         == Reference.Matched([Fill(2, 1, Sell, price, 1, st.fillSequence)], map[], quantity - 1)
      && Reference.Submit(capacity, st, req).0 == PartialFillRested
  {
    var req := Offer(2, price, quantity);
    assert Reference.IsBest(st.orders, req, 1);
    Reference.MatchHits(st.orders, req, quantity, st.fillSequence, 1);
    assert Reference.Hit(st.orders, 1, 1) == map[];
    Reference.MatchStops(map[], req, quantity - 1, st.fillSequence + 1);
  }

  /** The only order is filled, and the remainder that the reference rests is refused
      behind that fill. The next offer is refused by an empty book. */
  method LosesRemainder(maxOrders: nat, mixId: OrderId -> nat, mixKey: LevelKey -> nat, prices: seq<Price>)
    returns (book: OrderBook, r: SubmitResult, fills: seq<Fill>, next: SubmitResult, nextFills: seq<Fill>,
             ghost before: Reference.State)
    requires 0 < maxOrders <= NPOS && IsTableSize(|prices|, 2 * maxOrders) && Cover(mixKey, prices)
    ensures prices != [] && book.Valid() && book.State().orders == map[] && book.orders.Length == maxOrders
    ensures Reference.Submit(maxOrders, before, Offer(2, prices[|prices| - 1], 2)).0 == PartialFillRested
    ensures r == RejectedCapacity && |fills| == 1 && fills[0].quantity == 1
    ensures next == RejectedCapacity && nextFills == []
  {
    hide Snapshot.Ok, Probes, HeapOk, FreeList, Directory, BookOf, HasEmpty, IsTableSize, Cover, Reference.Match,
         Reference.Submit, OnlyOrder;
    book := UseUp(maxOrders, mixId, mixKey, prices);
    before := book.State();
    OfferMeetsOrder(maxOrders, before, prices[|prices| - 1], 2);
    HomesTaken(book, prices);
    r, fills := SellTwo(book, prices[|prices| - 1]);
    HomesTaken(book, prices);
    OfferToNobody(maxOrders, book.State());
    next, nextFills := book.Submit(Offer(3, 0, 1));
  }

  method SellTwo(book: OrderBook, price: Price) returns (r: SubmitResult, fills: seq<Fill>)
    requires book.Valid() && !book.directory.lookup.AnyEmpty() && OnlyOrder(book.State().orders, price)
    modifies book.Parts()
    ensures book.Valid() && book.State().orders == map[]
    ensures old(book.directory.lookup.used) <= book.directory.lookup.used
    ensures r == RejectedCapacity && |fills| == 1 && fills[0].quantity == 1
  {
    hide Snapshot.Ok, Probes, HeapOk, FreeList, Directory, BookOf, HasEmpty, Reference.Match, Reference.Submit;
    OfferMeetsOrder(book.orders.Length, book.State(), price, 2);
    r, fills := book.Submit(Offer(2, price, 2));
  }

  lemma OfferToNobody(capacity: nat, st: Reference.State)
    requires st.orders == map[] && capacity > 0
    ensures
      var req := Offer(3, 0, 1);
      && Reference.Match(st.orders, req, 1, st.fillSequence) == Reference.Matched([], map[], 1)
      && Reference.Submit(capacity, st, req).0 == RestedNoFill
  {
    Reference.MatchStops(map[], Offer(3, 0, 1), 1, st.fillSequence);
  }

  /** Two orders rest at `price`, and nothing else. */
  ghost predicate TwoOrders(orders: Reference.Orders, price: Price) {
    orders.Keys == {1, 2} && forall id :: id in orders ==> orders[id].side == Buy && orders[id].price == price
  }

  /** A second order joins the first; this needs no new level. */
  method Join(book: OrderBook, price: Price)
    requires book.Valid() && OnlyOrder(book.State().orders, price) && book.orders.Length > 1
    modifies book.Parts()
    ensures book.Valid() && TwoOrders(book.State().orders, price)
    ensures old(book.directory.lookup.used) <= book.directory.lookup.used
  {
    hide Snapshot.Ok, Probes, HeapOk, FreeList, Directory, BookOf, HasEmpty, OrderBook.State;
    OneOrder(book.State().orders, price);
    var joined := book.ProcessEvent(Feed(Add, 2, price));
  }

  lemma OneOrder(orders: Reference.Orders, price: Price)
    requires OnlyOrder(orders, price)
    ensures |orders| == 1 && 2 !in orders && OrderAt(orders - {2}, Buy, price)
  {
    assert |orders| == |orders.Keys|;
    assert 1 in orders - {2};
  }

  /** Unlinking a stranded order where another one waits takes the other out of its
      queue: the level it names has no head any more, although it stays indexed. */
  method UnlinkBeside(book: OrderBook, ghost was: Reference.Orders, ghost records: seq<Order>, price: Price)
    returns (o: nat)
    requires book.LeftBehind(1, was, records) && TwoOrders(was, price)
    modifies book.orders, book.directory.Footprint()
    ensures Lost(book, o)
  {
    hide Snapshot.Ok, Probes, HeapOk, FreeList, Directory, BookOf, Shown, LevelDirectory.Footprint;
    assert 2 in was - {1};
    var first := book.lookup.Find(1);
    var second := book.lookup.Find(2);
    o := second.value;
    book.UnlinkStranded(1, first.value);
    ghost var l := book.orders[first.value].level;
    assert book.queues[l][0] in book.queues[l];
  }

  /** Order 2 is indexed and active, but its level leads nowhere. */
  ghost predicate Lost(book: OrderBook, o: nat)
    reads book.Parts()
  {
    && book.Holds(2, o) && book.orders[o].active
    && var l := book.orders[o].level;
    && l < |book.queues| && o in book.queues[l]
    && l < book.directory.levels.Length && book.directory.levels[l].head == NPOS
  }

  /** Two orders wait at one price when a modification strands the first of them.
      Unlinking it once more loses the second. */
  method LosesTheOther(maxOrders: nat, mixId: OrderId -> nat, mixKey: LevelKey -> nat, prices: seq<Price>,
                       price: Price)
    returns (book: OrderBook, r: ProcessResult, o: nat)
    requires 1 < maxOrders <= NPOS && IsTableSize(|prices|, 2 * maxOrders) && Cover(mixKey, prices)
    requires price != prices[|prices| - 1]
    ensures r == CapacityExhausted && Lost(book, o)
  {
    hide Snapshot.Ok, Probes, HeapOk, FreeList, Directory, BookOf, HasEmpty, IsTableSize, Cover, OnlyOrder,
         OrderBook.LeftBehind, Lost;
    book := UseUp(maxOrders, mixId, mixKey, prices);
    Join(book, prices[|prices| - 1]);
    HomesTaken(book, prices);
    ghost var was, records := book.State().orders, book.orders[..];
    r := book.ProcessEvent(Feed(Modify, 1, price));
    o := UnlinkBeside(book, was, records, prices[|prices| - 1]);
  }
}
