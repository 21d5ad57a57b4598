/** A queue-position model that watches a book while the feed is applied to it. */
module QueueRuns {
  import opened MarketTypes
  import opened OrderBooks
  import opened Ladders
  import opened FreeLists
  import opened LevelDirectories
  import opened ProbeTables
  import opened ProbeSlots
  import opened BookStates
  import opened BookViews
  import opened QueueModels
  import opened Sessions
  import MatchingLaws
  import Reference

  lemma ObserveStep(e: Estimate, capacity: nat, st: Reference.State, events: seq<MarketDataEvent>, n: nat)
    requires n < |events|
    ensures
      var (before, stBefore) := Observe(e, capacity, st, events[..n]);
      Observe(e, capacity, st, events[..n + 1])
      == (React(before, events[n], stBefore.orders), Reference.Process(capacity, stBefore, events[n]).1)
  {
    hide React, Reference.Process;
    assert events[..n + 1][..n] == events[..n];
  }

  /** One event: the model looks at the book before the book changes. */
  method WatchOne(book: OrderBook, model: QueueModel, event: MarketDataEvent)
    requires book.Valid() && book.directory.lookup.AnyEmpty() && (model as object) !in book.Parts()
    modifies model`ahead, model`filled, book.Parts()
    ensures book.Valid()
    ensures model.Now() == React(old(model.Now()), event, old(book.State()).orders)
    ensures book.State() == Reference.Process(book.orders.Length, old(book.State()), event).1
    ensures book.directory.lookup.used <= old(book.directory.lookup.used) + Named(Reference.Event(event))
  {
    hide Snapshot.Ok, Probes, HeapOk, FreeList, Directory, BookOf, HasEmpty, React, Reference.Process, Named,
         OrderBook.State;
    model.OnEvent(event, book);
    var _ := Perform(book, Reference.Event(event));
  }

  /** A whole feed. What the two classes do together is what `Observe` says. */
  method Watch(book: OrderBook, model: QueueModel, events: seq<MarketDataEvent>)
    requires book.Valid() && (model as object) !in book.Parts()
    requires |book.directory.lookup.used + NamedBy(Actions(events))| < book.directory.lookup.slots.Length
    modifies model`ahead, model`filled, book.Parts()
    ensures book.Valid()
    ensures (model.Now(), book.State())
         == Observe(old(model.Now()), book.orders.Length, old(book.State()), events)
  {
    hide Snapshot.Ok, Probes, HeapOk, FreeList, Directory, BookOf, HasEmpty, React, Reference.Process, Named,
         OrderBook.State;
    ghost var actions, e, st := Actions(events), model.Now(), book.State();
    ghost var keys := book.directory.lookup.used + NamedBy(actions);
    var n := 0;
    while n < |events|
      invariant 0 <= n <= |events| && book.Valid()
      invariant book.directory.lookup.used <= old(book.directory.lookup.used) + NamedBy(actions[..n])
      invariant (model.Now(), book.State()) == Observe(e, book.orders.Length, st, events[..n])
    {
      NamedPrefix(actions, n);
      book.directory.lookup.RoomFor(keys);
      assert actions[..n + 1][..n] == actions[..n] && actions[..n + 1][n] == actions[n];
      ObserveStep(e, book.orders.Length, st, events, n);
      WatchOne(book, model, events[n]);
      n := n + 1;
    }
    assert events[..n] == events;
  }

  /** What a model that watches the book sees: every event, and the orders before. */
  function SeenBy(e: Estimate, capacity: nat, st: Reference.State, events: seq<MarketDataEvent>): seq<Seen> {
    seq(|events|, i requires 0 <= i < |events| =>
      Seen(events[i], Observe(e, capacity, st, events[..i]).1.orders))
  }

  lemma {:induction false} ObserveFollows(e: Estimate, capacity: nat, st: Reference.State, events: seq<MarketDataEvent>)
    ensures Observe(e, capacity, st, events).0 == Follow(e, SeenBy(e, capacity, st, events))
  {
    hide React, Reference.Process;
    if events != [] {
      var init := events[..|events| - 1];
      var feed := SeenBy(e, capacity, st, events);
      ObserveFollows(e, capacity, st, init);
      assert feed[..|feed| - 1] == SeenBy(e, capacity, st, init) by {
        assert forall i :: 0 <= i < |init| ==> init[..i] == events[..i];
      }
    }
  }

  /** What has become of a model that started as `e`. */
  ghost predicate Explained(now: Estimate, e: Estimate, feed: seq<Seen>) {
    && now.filled == Capped(Beyond(e, feed).Floor, e.size)
    && (now.filled < e.size ==> now.ahead == Positive(e.ahead - Gone(e, feed) as real))
  }

  lemma FollowExplained(e: Estimate, feed: seq<Seen>, orders: Reference.Orders, size: Quantity, multiplier: real)
    requires AtTouch(e, orders, size, multiplier) && multiplier >= 0.0
    ensures Explained(Follow(e, feed), e, feed)
  {
    ClosedForm(e, feed);
  }

  /** A model posted at the touch, with everything there ahead of it as often as the
      multiplier says. Behind any feed, what is still ahead is that less what has gone,
      and what has filled is what the executions left over. With multiplier 1 it is
      exact if the feed is disciplined: until it is full, what it takes to be ahead is
      what still rests of the orders that were there before it. */
  method PostAndWatch(book: OrderBook, side: Side, size: Quantity, multiplier: real, nowNs: nat,
                      events: seq<MarketDataEvent>)
    returns (model: Option<QueueModel>)
    requires book.Valid() && MatchingLaws.Ranked(book.State()) && multiplier >= 0.0
    requires |book.directory.lookup.used + NamedBy(Actions(events))| < book.directory.lookup.slots.Length
    modifies book.Parts()
    ensures book.Valid()
    ensures model.None? ==> OneSided(old(book.State()).orders, side) && book.State() == old(book.State())
    ensures model.Some? ==>
      var st, e := old(book.State()), Posted(old(book.State()), side, model.value.price, size, multiplier);
      && AtTouch(e, st.orders, size, multiplier)
      && (model.value.Now(), book.State()) == Observe(e, book.orders.Length, st, events)
      && Explained(model.value.Now(), e, SeenBy(e, book.orders.Length, st, events))
      && (multiplier == 1.0 && DisciplinedFeed(e, book.orders.Length, st, events) ==>
            Tracks(model.value.Now(), book.State(), st.nextPriority))
  {
    hide Snapshot.Ok, Probes, HeapOk, FreeList, Directory, BookOf, HasEmpty, Tracks, DisciplinedFeed, Posted,
         MatchingLaws.Ranked, NamedBy, OrderBook.State, AtTouch, Explained, SeenBy, Observe, Follow, React,
         Reference.Process;
    ghost var st := book.State();
    model := Post(book, side, size, multiplier, nowNs);
    if model.Some? {
      ghost var e := model.value.Now();
      Watch(book, model.value, events);
      ObserveFollows(e, book.orders.Length, st, events);
      FollowExplained(e, SeenBy(e, book.orders.Length, st, events), st.orders, size, multiplier);
      if multiplier == 1.0 {
        PostedTracks(st, side, model.value.price, size);
        if DisciplinedFeed(e, book.orders.Length, st, events) {
          EstimateIsExact(e, book.orders.Length, st, events, st.nextPriority);
        }
      }
    }
  }
}
