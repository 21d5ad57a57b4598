/** Why the head of the top level is the maker the reference would pick. */
module Matching {
  import opened MarketTypes
  import opened Ladders
  import opened Fifos
  import opened FreeLists
  import opened LevelDirectories
  import opened BookStates
  import opened Sums
  import opened BookViews
  import Reference

  /** `l` is the best live level opposite the request, and the request crosses it. */
  ghost predicate BestLevel(levels: seq<Level>, req: OrderRequest, l: nat) {
    && l < |levels| && levels[l].active && levels[l].side == Opposite(req.side)
    && Reference.Crosses(req, levels[l].price)
    && forall m :: 0 <= m < |levels| && levels[m].active && levels[m].side == levels[l].side ==>
         !BetterPrice(levels[l].side, levels[m].price, levels[l].price)
  }

  lemma BestLevelStays(was: seq<Level>, now: seq<Level>, req: OrderRequest, l: nat)
    requires BestLevel(was, req, l) && Shrunk(was, now) && now[l].active
    ensures BestLevel(now, req, l)
  {
  }

  /** An indexed order, its level and its place there. */
  lemma Placed(s: Snapshot, id: OrderId) returns (l: nat, at: nat)
    requires s.Ok(-1, -1, -1) && id in s.index
    ensures s.index[id] < |s.orders| && l < |s.queues| == |s.levels| && at < |s.queues[l]|
      && s.queues[l][at] == s.index[id]
    ensures s.orders[s.index[id]].id == id && l == s.orders[s.index[id]].level
    ensures s.levels[l].active && s.orders[s.index[id]].side == s.levels[l].side
      && s.orders[s.index[id]].price == s.levels[l].price
  {
    hide AllListed, Loose, FreeList, Sound, Covered, Indexed;
    at := OrderPlace(s, id);
    l := s.orders[s.index[id]].level;
    QueuePriced(s, l);
  }

  lemma QueueHead(s: Snapshot, l: nat)
    requires s.Ok(-1, -1, -1) && l < |s.levels| && s.levels[l].active
    ensures |s.queues| == |s.levels| && s.queues[l] != []
    ensures
      var o := s.queues[l][0];
      && o == s.levels[l].head < |s.orders| && s.orders[o].active && s.orders[o].level == l
      && s.orders[o].side == s.levels[l].side && s.orders[o].price == s.levels[l].price && s.orders[o].quantity > 0
      && s.orders[o].id in s.index && s.index[s.orders[o].id] == o
      && s.orders[o].next == (if |s.queues[l]| > 1 then s.queues[l][1] else NPOS)
    ensures Ranked(s.orders, s.queues[l])
  {
    assert Listed(s.orders, s.levels[l], s.queues[l], l);
    assert Node(s.orders, s.queues[l], 0);
    hide FreeList, Covered, Loose;
  }

  lemma OneLevelPerKey(levels: seq<Level>, index: map<LevelKey, nat>, bids: set<nat>, asks: set<nat>, l: nat, m: nat)
    requires Directory(levels, index, bids, asks) && l < |levels| && m < |levels|
    requires levels[l].active && levels[m].active && KeyOf(levels[l]) == KeyOf(levels[m])
    ensures l == m
  {
    hide Blank;
  }

  /** The oldest order of the best level is the best maker. */
  lemma HeadIsBest(s: Snapshot, index: map<LevelKey, nat>, bids: set<nat>, asks: set<nat>, req: OrderRequest, l: nat)
    requires s.Ok(-1, -1, -1) && Directory(s.levels, index, bids, asks) && BestLevel(s.levels, req, l)
    ensures forall id :: id in s.index ==> s.index[id] < |s.orders| <= NPOS
    ensures s.levels[l].head < |s.orders|
    ensures Reference.IsBest(s.Book(), req, s.orders[s.levels[l].head].id)
  {
    hide Snapshot.Ok, Directory;
    OkBook(s);
    QueueHead(s, l);
    var o := s.levels[l].head;
    forall other | Reference.Candidate(s.Book(), req, other) && other != s.orders[o].id
      ensures Reference.Precedes(Opposite(req.side), s.Book(), s.orders[o].id, other)
    {
      var m, at := Placed(s, other);
      if s.levels[m].price == s.levels[l].price {
        OneLevelPerKey(s.levels, index, bids, asks, l, m);
        assert s.orders[s.queues[l][0]].priority < s.orders[s.queues[l][at]].priority;
      }
    }
  }

  /** Without a crossing level there is no candidate. */
  lemma NoCandidate(s: Snapshot, req: OrderRequest)
    requires s.Ok(-1, -1, -1)
    requires forall m :: 0 <= m < |s.levels| && s.levels[m].active && s.levels[m].side == Opposite(req.side) ==>
      !Reference.Crosses(req, s.levels[m].price)
    ensures forall id :: id in s.index ==> s.index[id] < |s.orders| <= NPOS
    ensures forall id :: !Reference.Candidate(s.Book(), req, id)
  {
    hide Snapshot.Ok;
    OkBook(s);
    forall id | id in s.index
      ensures !Reference.Candidate(s.Book(), req, id)
    {
      var m, at := Placed(s, id);
    }
  }

  // ---------- the fill-or-kill pre-scan ----------

  /** The ids of the first `n` orders of level `l`. */
  ghost function FirstIds(s: Snapshot, l: nat, n: nat): (ids: set<OrderId>)
    requires l < |s.queues| && n <= |s.queues[l]| && forall i :: 0 <= i < |s.queues[l]| ==> s.queues[l][i] < |s.orders|
  {
    set i | 0 <= i < n :: s.orders[s.queues[l][i]].id
  }

  /** What holds of the queue of a live level, for the pre-scan. */
  ghost predicate Scannable(s: Snapshot, req: OrderRequest, l: nat) {
    && l < |s.queues| == |s.levels|
    && (forall id :: id in s.index ==> s.index[id] < |s.orders|)
    && (forall i :: 0 <= i < |s.queues[l]| ==>
          && s.queues[l][i] < |s.orders|
          && s.orders[s.queues[l][i]].id in s.index && s.index[s.orders[s.queues[l][i]].id] == s.queues[l][i]
          && s.orders[s.queues[l][i]].side == s.levels[l].side && s.orders[s.queues[l][i]].price == s.levels[l].price)
    && (forall i, j :: 0 <= i < j < |s.queues[l]| ==> s.queues[l][i] != s.queues[l][j])
    && s.levels[l].totalQuantity == Total(s.orders, s.queues[l])
    && s.levels[l].side == Opposite(req.side)
  }

  /** The contribution of the first `n` orders of a level. */
  ghost function FirstOffer(s: Snapshot, req: OrderRequest, l: nat, n: nat): nat
    requires Scannable(s, req, l) && n <= |s.queues[l]|
  {
    if Reference.Crosses(req, s.levels[l].price) then Total(s.orders, s.queues[l][..n]) else 0
  }

  /** What the counted orders and the first `n` of a queue offer, less what these `n` offer. */
  ghost function OfferedBeside(s: Snapshot, req: OrderRequest, counted: set<OrderId>, l: nat, n: nat): int
    requires Scannable(s, req, l) && n <= |s.queues[l]|
  {
    Sum(Reference.Offered(s.Book(), req, counted + FirstIds(s, l, n))) - FirstOffer(s, req, l, n)
  }

  lemma OfferStep(s: Snapshot, req: OrderRequest, counted: set<OrderId>, l: nat, n: nat)
    requires Scannable(s, req, l) && 0 < n <= |s.queues[l]|
    requires forall i :: 0 <= i < |s.queues[l]| ==> s.orders[s.queues[l][i]].id !in counted
    ensures OfferedBeside(s, req, counted, l, n) == OfferedBeside(s, req, counted, l, n - 1)
  {
    QueueBounds(s, req, l);
    hide Scannable, FirstIds, FirstOffer, Sum, Reference.Offered;
    FirstIdsStep(s, req, counted, l, n);
    LastOffered(s, req, l, n);
    Reference.OfferWithout(s.Book(), req, counted + FirstIds(s, l, n), s.orders[s.queues[l][n - 1]].id);
  }

  lemma {:induction false} OfferSteps(s: Snapshot, req: OrderRequest, counted: set<OrderId>, l: nat, n: nat)
    requires Scannable(s, req, l) && n <= |s.queues[l]|
    requires forall i :: 0 <= i < |s.queues[l]| ==> s.orders[s.queues[l][i]].id !in counted
    ensures OfferedBeside(s, req, counted, l, n) == OfferedBeside(s, req, counted, l, 0)
  {
    if n > 0 {
      OfferStep(s, req, counted, l, n);
      hide OfferedBeside;
      OfferSteps(s, req, counted, l, n - 1);
    }
  }

  lemma QueueOffer(s: Snapshot, req: OrderRequest, counted: set<OrderId>, l: nat, n: nat)
    requires Scannable(s, req, l) && n <= |s.queues[l]|
    requires forall i :: 0 <= i < |s.queues[l]| ==> s.orders[s.queues[l][i]].id !in counted
    ensures Sum(Reference.Offered(s.Book(), req, counted + FirstIds(s, l, n)))
         == Sum(Reference.Offered(s.Book(), req, counted)) + FirstOffer(s, req, l, n)
  {
    OfferSteps(s, req, counted, l, n);
    NoFirst(s, req, counted, l, 0);
    hide FirstIds, FirstOffer, Sum, Reference.Offered, Snapshot.Book, Scannable;
  }

  lemma QueueBounds(s: Snapshot, req: OrderRequest, l: nat)
    requires Scannable(s, req, l)
    ensures l < |s.queues| == |s.levels|
    ensures forall id :: id in s.index ==> s.index[id] < |s.orders|
    ensures forall i :: 0 <= i < |s.queues[l]| ==> s.queues[l][i] < |s.orders|
  {
  }

  lemma NoFirst(s: Snapshot, req: OrderRequest, counted: set<OrderId>, l: nat, n: nat)
    requires Scannable(s, req, l) && n == 0
    ensures Sum(Reference.Offered(s.Book(), req, counted + FirstIds(s, l, n)))
         == Sum(Reference.Offered(s.Book(), req, counted)) + FirstOffer(s, req, l, n)
  {
    assert counted + FirstIds(s, l, n) == counted;
  }

  lemma FirstIdsStep(s: Snapshot, req: OrderRequest, counted: set<OrderId>, l: nat, n: nat)
    requires Scannable(s, req, l) && 0 < n <= |s.queues[l]|
    requires forall i :: 0 <= i < |s.queues[l]| ==> s.orders[s.queues[l][i]].id !in counted
    ensures
      var id := s.orders[s.queues[l][n - 1]].id;
      id in FirstIds(s, l, n) && counted + FirstIds(s, l, n) - {id} == counted + FirstIds(s, l, n - 1)
  {
    var id := s.orders[s.queues[l][n - 1]].id;
    assert forall i :: 0 <= i < n - 1 ==> s.index[s.orders[s.queues[l][i]].id] == s.queues[l][i];
    assert id !in FirstIds(s, l, n - 1);
    assert FirstIds(s, l, n) == FirstIds(s, l, n - 1) + {id};
  }

  lemma LastOffered(s: Snapshot, req: OrderRequest, l: nat, n: nat)
    requires Scannable(s, req, l) && 0 < n <= |s.queues[l]|
    ensures
      var order := s.orders[s.queues[l][n - 1]];
      && order.id in s.Book() && s.Book()[order.id].quantity == order.quantity
      && FirstOffer(s, req, l, n) == FirstOffer(s, req, l, n - 1)
           + if Reference.Candidate(s.Book(), req, order.id) then order.quantity else 0
  {
    assert s.queues[l][..n][..n - 1] == s.queues[l][..n - 1];
  }

  lemma ScannableLevel(s: Snapshot, req: OrderRequest, l: nat)
    requires s.Ok(-1, -1, -1) && l < |s.levels| && s.levels[l].side == Opposite(req.side)
    ensures Scannable(s, req, l)
  {
    assert Listed(s.orders, s.levels[l], s.queues[l], l);
    hide FreeList, Covered, Loose, AllListed, Populated, Sound;
  }

  /** The orders counted once the first `k` levels of the opposite ladder are scanned. */
  ghost predicate Counted(s: Snapshot, req: OrderRequest, k: nat, counted: set<OrderId>)
    requires forall id :: id in s.index ==> s.index[id] < |s.orders|
  {
    forall id :: id in counted <==>
      && id in s.index && s.orders[s.index[id]].side == Opposite(req.side)
      && s.orders[s.index[id]].level < |s.levels| && s.levels[s.orders[s.index[id]].level].heapPos < k
  }

  /** The heap holds exactly the levels that face the request. */
  ghost predicate Faces(s: Snapshot, req: OrderRequest, heap: seq<nat>, size: nat, members: set<nat>) {
    && s.Ok(-1, -1, -1) && Positions(s.levels, heap, size, members) && size <= |heap|
    && (forall i :: 0 <= i < size ==> heap[i] < |s.levels|)
    && (forall id :: id in s.index ==> s.index[id] < |s.orders|)
    && (forall l: nat :: l in members <==>
      l < |s.levels| && s.levels[l].active && s.levels[l].side == Opposite(req.side))
  }

  lemma FacesIndexed(s: Snapshot, req: OrderRequest, heap: seq<nat>, size: nat, members: set<nat>)
    requires Faces(s, req, heap, size, members)
    ensures forall id :: id in s.index ==> s.index[id] < |s.orders|
  {
    hide Snapshot.Ok;
  }

  lemma ScanLevel(s: Snapshot, req: OrderRequest, heap: seq<nat>, size: nat, members: set<nat>, k: nat,
                  counted: set<OrderId>)
    returns (next: set<OrderId>)
    requires Faces(s, req, heap, size, members) && k < size
    requires Counted(s, req, k, counted)
    ensures heap[k] < |s.levels| && Counted(s, req, k + 1, next)
    ensures Sum(Reference.Offered(s.Book(), req, next)) == Sum(Reference.Offered(s.Book(), req, counted))
      + if Reference.Crosses(req, s.levels[heap[k]].price) then s.levels[heap[k]].totalQuantity else 0
  {
    hide Snapshot.Ok;
    var l := heap[k];
    ScannableLevel(s, req, l);
    var q := s.queues[l];
    assert q[..|q|] == q;
    LevelMembers(s, l);
    next := counted + FirstIds(s, l, |q|);
    QueueOffer(s, req, counted, l, |q|);
    hide Scannable;
    forall id | id in s.index
      ensures id in FirstIds(s, l, |q|) <==> s.orders[s.index[id]].level == l
    {
    }
    LevelsOfOrders(s);
  }

  /** The queue of a level holds exactly the indexed orders of that level. */
  lemma LevelMembers(s: Snapshot, l: nat)
    requires s.Ok(-1, -1, -1) && l < |s.levels|
    ensures |s.queues| == |s.levels|
    ensures forall id :: id in s.index ==> s.index[id] < |s.orders|
    ensures forall i :: 0 <= i < |s.queues[l]| ==>
      s.queues[l][i] < |s.orders| && s.orders[s.queues[l][i]].id in s.index && s.orders[s.queues[l][i]].level == l
    ensures forall id :: id in s.index && s.orders[s.index[id]].level == l ==> id in FirstIds(s, l, |s.queues[l]|)
  {
    QueueMembers(s.orders, s.levels, s.queues);
    hide FreeList, AllListed, Loose, Populated, Sound, Ranked;
    forall id | id in s.index && s.orders[s.index[id]].level == l
      ensures id in FirstIds(s, l, |s.queues[l]|)
    {
      var i :| 0 <= i < |s.queues[l]| && s.queues[l][i] == s.index[id];
      assert s.orders[s.queues[l][i]].id == id;
    }
  }

  lemma LevelsOfOrders(s: Snapshot)
    requires s.Ok(-1, -1, -1)
    ensures forall id :: id in s.index ==>
      && s.index[id] < |s.orders| && s.orders[s.index[id]].level < |s.levels|
      && s.levels[s.orders[s.index[id]].level].active
      && s.levels[s.orders[s.index[id]].level].side == s.orders[s.index[id]].side
  {
    hide Snapshot.Ok;
    OkBook(s);
    forall id | id in s.index
      ensures s.orders[s.index[id]].level < |s.levels| && s.levels[s.orders[s.index[id]].level].active
      ensures s.levels[s.orders[s.index[id]].level].side == s.orders[s.index[id]].side
    {
      var l, at := Placed(s, id);
    }
  }

  /** Once every level is scanned, the count is all the book can offer. */
  lemma ScanComplete(s: Snapshot, req: OrderRequest, heap: seq<nat>, size: nat, members: set<nat>,
                     counted: set<OrderId>)
    requires Faces(s, req, heap, size, members) && Counted(s, req, size, counted)
    ensures Sum(Reference.Offered(s.Book(), req, counted)) == Reference.Fillable(s.Book(), req)
  {
    hide Snapshot.Ok;
    LevelsOfOrders(s);
    assert Reference.Offered(s.Book(), req, counted) == Reference.Offered(s.Book(), req, s.Book().Keys);
  }

  lemma NoneCounted(s: Snapshot, req: OrderRequest)
    requires forall id :: id in s.index ==> s.index[id] < |s.orders|
    ensures Counted(s, req, 0, {})
    ensures Sum(Reference.Offered(s.Book(), req, {})) == 0
  {
  }

  // ---------- what a level shows ----------

  lemma {:induction false} FirstIdsSize(s: Snapshot, req: OrderRequest, l: nat, n: nat)
    requires Scannable(s, req, l) && n <= |s.queues[l]|
    ensures |FirstIds(s, l, n)| == n
  {
    if n > 0 {
      FirstIdsSize(s, req, l, n - 1);
      FirstIdsStep(s, req, {}, l, n);
      var id := s.orders[s.queues[l][n - 1]].id;
      assert {} + FirstIds(s, l, n) == FirstIds(s, l, n) && {} + FirstIds(s, l, n - 1) == FirstIds(s, l, n - 1);
      assert FirstIds(s, l, n) == FirstIds(s, l, n - 1) + {id} && id !in FirstIds(s, l, n - 1);
    }
  }

  /** A live level's record is the aggregation of the orders at its price. */
  lemma LevelShows(s: Snapshot, index: map<LevelKey, nat>, bids: set<nat>, asks: set<nat>, l: nat)
    requires s.Ok(-1, -1, -1) && Directory(s.levels, index, bids, asks) && l < |s.levels| && s.levels[l].active
    ensures forall id :: id in s.index ==> s.index[id] < |s.orders|
    ensures
      var level := s.levels[l];
      LevelView(level.side, level.price, level.totalQuantity, level.orderCount)
        == LevelOf(s.Book(), level.side, level.price)
      && level.orderCount > 0
  {
    hide Snapshot.Ok, Directory, Sum, QuantitiesAt;
    OkBook(s);
    QueueHead(s, l);
    var level := s.levels[l];
    var req := OrderRequest(New, 0, Opposite(level.side), 0, 0, OrderType.Market, IOC);
    ScannableLevel(s, req, l);
    LevelIds(s, index, bids, asks, req, l);
    LevelSums(s, req, l);
    assert |QuantitiesAt(s.Book(), level.side, level.price).Keys| == |QuantitiesAt(s.Book(), level.side, level.price)|;
  }

  /** The cached total and count of a level are those of its queue. */
  lemma LevelSums(s: Snapshot, req: OrderRequest, l: nat)
    requires s.Ok(-1, -1, -1) && l < |s.levels| && s.levels[l].active
    requires Scannable(s, req, l) && req.orderType == OrderType.Market
    ensures
      var ids := FirstIds(s, l, |s.queues[l]|);
      s.levels[l].totalQuantity == Sum(Reference.Offered(s.Book(), req, {} + ids)) && s.levels[l].orderCount == |ids|
  {
    hide Snapshot.Ok, Sum, Reference.Offered, FirstIds;
    CountedOrders(s, l);
    var n := |s.queues[l]|;
    assert s.queues[l][..n] == s.queues[l];
    QueueOffer(s, req, {}, l, n);
    FirstIdsSize(s, req, l, n);
    NoneCounted(s, req);
  }

  lemma CountedOrders(s: Snapshot, l: nat)
    requires s.Ok(-1, -1, -1) && l < |s.levels|
    ensures l < |s.queues| && s.levels[l].orderCount == |s.queues[l]|
  {
    QueueMembers(s.orders, s.levels, s.queues);
    hide FreeList, AllListed, Loose, Populated, Sound, Ranked, Covered, Indexed;
  }

  lemma AtIsFirst(s: Snapshot, index: map<LevelKey, nat>, bids: set<nat>, asks: set<nat>, l: nat, id: OrderId)
    requires s.Ok(-1, -1, -1) && Directory(s.levels, index, bids, asks) && l < |s.levels| && s.levels[l].active
    requires l < |s.queues| && forall i :: 0 <= i < |s.queues[l]| ==> s.queues[l][i] < |s.orders|
    requires id in QuantitiesAt(s.Book(), s.levels[l].side, s.levels[l].price)
    ensures id in FirstIds(s, l, |s.queues[l]|)
  {
    hide Snapshot.Ok, Directory;
    OkBook(s);
    var m, _ := Placed(s, id);
    OneLevelPerKey(s.levels, index, bids, asks, l, m);
  }

  lemma LevelIds(s: Snapshot, index: map<LevelKey, nat>, bids: set<nat>, asks: set<nat>, req: OrderRequest, l: nat)
    requires s.Ok(-1, -1, -1) && Directory(s.levels, index, bids, asks) && l < |s.levels| && s.levels[l].active
    requires Scannable(s, req, l) && req.orderType == OrderType.Market && s.levels[l].side == Opposite(req.side)
    ensures
      var at := QuantitiesAt(s.Book(), s.levels[l].side, s.levels[l].price);
      var ids := FirstIds(s, l, |s.queues[l]|);
      at.Keys == ids && Reference.Offered(s.Book(), req, {} + ids) == at
  {
    hide Snapshot.Ok, Directory, Scannable, FirstIds, QuantitiesAt;
    OkBook(s);
    QueueFacts(s, l);
    var at, ids := QuantitiesAt(s.Book(), s.levels[l].side, s.levels[l].price), FirstIds(s, l, |s.queues[l]|);
    forall id | id in at
      ensures id in ids
    {
      AtIsFirst(s, index, bids, asks, l, id);
    }
    forall id | id in ids
      ensures id in at
    {
      FirstIsAt(s, req, l, id);
    }
    OfferedAt(s.Book(), req, ids, s.levels[l].side, s.levels[l].price);
  }

  lemma FirstIsAt(s: Snapshot, req: OrderRequest, l: nat, id: OrderId)
    requires s.Ok(-1, -1, -1) && l < |s.levels| && l < |s.queues|
    requires forall i :: 0 <= i < |s.queues[l]| ==> s.queues[l][i] < |s.orders|
    requires id in FirstIds(s, l, |s.queues[l]|)
    ensures id in QuantitiesAt(s.Book(), s.levels[l].side, s.levels[l].price)
  {
    hide Snapshot.Ok;
    OkBook(s);
    QueueFacts(s, l);
  }

  /** A market request is offered everything that rests at a price it faces. */
  lemma OfferedAt(orders: Reference.Orders, req: OrderRequest, ids: set<OrderId>, side: Side, price: Price)
    requires req.orderType == OrderType.Market && side == Opposite(req.side)
    requires ids == QuantitiesAt(orders, side, price).Keys
    ensures Reference.Offered(orders, req, {} + ids) == QuantitiesAt(orders, side, price)
  {
  }

  function LevelViewOf(level: Level): LevelView {
    LevelView(level.side, level.price, level.totalQuantity, level.orderCount)
  }

  /** `views` shows the live levels among the first `n`, in pool order; `from` says which. */
  ghost predicate Collected(levels: seq<Level>, n: nat, views: seq<LevelView>, from: seq<nat>) {
    && n <= |levels| && |views| == |from|
    && (forall i :: 0 <= i < |from| ==>
      from[i] < n && levels[from[i]].active && views[i] == LevelViewOf(levels[from[i]]))
    && (forall i, j :: 0 <= i < j < |from| ==> from[i] != from[j])
    && (forall l :: 0 <= l < n && levels[l].active ==> l in from)
  }

  lemma CollectedNext(levels: seq<Level>, n: nat, views: seq<LevelView>, from: seq<nat>)
    requires Collected(levels, n, views, from) && n < |levels|
    ensures levels[n].active ==> Collected(levels, n + 1, views + [LevelViewOf(levels[n])], from + [n])
    ensures !levels[n].active ==> Collected(levels, n + 1, views, from)
  {
  }

  lemma CollectedKeys(s: Snapshot, index: map<LevelKey, nat>, bids: set<nat>, asks: set<nat>, views: seq<LevelView>,
                      from: seq<nat>)
    requires Directory(s.levels, index, bids, asks) && Collected(s.levels, |s.levels|, views, from)
    ensures forall i, j :: 0 <= i < j < |views| ==> LevelFirst(views[i], views[j]) || LevelFirst(views[j], views[i])
  {
    hide Directory;
    forall i, j | 0 <= i < j < |views|
      ensures LevelFirst(views[i], views[j]) || LevelFirst(views[j], views[i])
    {
      if KeyOf(s.levels[from[i]]) == KeyOf(s.levels[from[j]]) {
        OneLevelPerKey(s.levels, index, bids, asks, from[i], from[j]);
        assert false;
      }
    }
  }

  lemma CollectedAggregates(s: Snapshot, index: map<LevelKey, nat>, bids: set<nat>, asks: set<nat>,
                            views: seq<LevelView>, from: seq<nat>, sorted: seq<LevelView>)
    requires s.Ok(-1, -1, -1) && Directory(s.levels, index, bids, asks)
    requires Collected(s.levels, |s.levels|, views, from)
    requires LevelsSorted(sorted) && forall v :: v in sorted <==> v in views
    ensures forall id :: id in s.index ==> s.index[id] < |s.orders|
    ensures Aggregates(sorted, s.Book())
    ensures forall v :: v in sorted ==> (v.side, v.priceTicks) in index
  {
    hide Snapshot.Ok, Directory, LevelOf, Aggregates;
    OkBook(s);
    forall v | v in sorted
      ensures v == LevelOf(s.Book(), v.side, v.priceTicks) && v.orderCount > 0 && (v.side, v.priceTicks) in index
    {
      var i :| 0 <= i < |views| && views[i] == v;
      LevelShows(s, index, bids, asks, from[i]);
      LiveKey(s.levels, index, bids, asks, from[i]);
    }
    forall id | id in s.Book()
      ensures LevelOf(s.Book(), s.Book()[id].side, s.Book()[id].price) in sorted
    {
      OrderCollected(s, index, bids, asks, views, from, id);
    }
    AllAggregated(sorted, s.Book());
  }

  lemma AllAggregated(views: seq<LevelView>, orders: Reference.Orders)
    requires LevelsSorted(views)
    requires forall v :: v in views ==> v == LevelOf(orders, v.side, v.priceTicks) && v.orderCount > 0
    requires forall id :: id in orders ==> LevelOf(orders, orders[id].side, orders[id].price) in views
    ensures Aggregates(views, orders)
  {
    hide LevelOf;
  }

  lemma LiveKey(levels: seq<Level>, index: map<LevelKey, nat>, bids: set<nat>, asks: set<nat>, l: nat)
    requires Directory(levels, index, bids, asks) && l < |levels| && levels[l].active
    ensures KeyOf(levels[l]) in index && index[KeyOf(levels[l])] == l
  {
  }

  lemma OrderCollected(s: Snapshot, index: map<LevelKey, nat>, bids: set<nat>, asks: set<nat>,
                       views: seq<LevelView>, from: seq<nat>, id: OrderId)
    requires s.Ok(-1, -1, -1) && Directory(s.levels, index, bids, asks) && id in s.index
    requires Collected(s.levels, |s.levels|, views, from)
    ensures forall id :: id in s.index ==> s.index[id] < |s.orders|
    ensures LevelOf(s.Book(), s.Book()[id].side, s.Book()[id].price) in views
  {
    hide Snapshot.Ok, Directory, LevelOf;
    OkBook(s);
    var l, _ := Placed(s, id);
    LevelShows(s, index, bids, asks, l);
    var i :| 0 <= i < |from| && from[i] == l;
    assert views[i] in views;
  }

  /** The listing of the levels of `views`, best first, each oldest first. */
  ghost predicate Walked(s: Snapshot, index: map<LevelKey, nat>, views: seq<LevelView>, n: nat, listed: seq<OrderView>)
    requires forall id :: id in s.index ==> s.index[id] < |s.orders|
  {
    && n <= |views|
    && (forall i, j :: 0 <= i < j < |listed| ==> OrderFirst(listed[i], listed[j]))
    && (forall v :: v in listed ==>
          && v.id in s.index && v == ViewOf(s.Book(), v.id)
          && exists i :: 0 <= i < n && views[i].side == v.side && views[i].priceTicks == v.priceTicks)
    && (forall i, id ::
          && 0 <= i < n && id in s.index
          && s.Book()[id].side == views[i].side && s.Book()[id].price == views[i].priceTicks
          ==> ViewOf(s.Book(), id) in listed)
  }

  /** The orders of level `l`, oldest first. */
  ghost predicate QueueListed(s: Snapshot, l: nat, n: nat, listed: seq<OrderView>) {
    && l < |s.queues| && n <= |s.queues[l]| && |listed| == n
    && (forall i :: 0 <= i < |s.queues[l]| ==> s.queues[l][i] < |s.orders|)
    && (forall i :: 0 <= i < n ==> listed[i] == OrderViewOf(s.orders[s.queues[l][i]]))
  }

  function OrderViewOf(order: Order): OrderView {
    OrderView(order.id, order.side, order.price, order.quantity, order.priority)
  }

  lemma WalkedNext(s: Snapshot, index: map<LevelKey, nat>, bids: set<nat>, asks: set<nat>, views: seq<LevelView>,
                   n: nat,
                   listed: seq<OrderView>, l: nat, queue: seq<OrderView>)
    requires s.Ok(-1, -1, -1) && Directory(s.levels, index, bids, asks) && LevelsSorted(views)
    requires forall id :: id in s.index ==> s.index[id] < |s.orders|
    requires Walked(s, index, views, n, listed) && n < |views|
    requires l < |s.levels| && s.levels[l].active && KeyOf(s.levels[l]) == (views[n].side, views[n].priceTicks)
    requires l < |s.queues| && QueueListed(s, l, |s.queues[l]|, queue)
    ensures Walked(s, index, views, n + 1, listed + queue)
  {
    hide Snapshot.Ok, Directory;
    QueueInOrder(s, l, queue);
    var all := listed + queue;
    forall i, j | 0 <= i < j < |all|
      ensures OrderFirst(all[i], all[j])
    {
      if i < |listed| && j >= |listed| {
        assert listed[i] in listed;
        var k :| 0 <= k < n && views[k].side == listed[i].side && views[k].priceTicks == listed[i].priceTicks;
        assert LevelFirst(views[k], views[n]);
        assert all[j] == queue[j - |listed|];
      }
    }
    forall id | id in s.index && s.Book()[id].side == views[n].side && s.Book()[id].price == views[n].priceTicks
      ensures ViewOf(s.Book(), id) in queue
    {
      var m, at := Placed(s, id);
      OneLevelPerKey(s.levels, index, bids, asks, l, m);
      assert queue[at] == ViewOf(s.Book(), id);
    }
    assert forall v :: v in all <==> v in listed || v in queue;
  }

  lemma QueueInOrder(s: Snapshot, l: nat, queue: seq<OrderView>)
    requires s.Ok(-1, -1, -1) && l < |s.levels| && s.levels[l].active
    requires l < |s.queues| && QueueListed(s, l, |s.queues[l]|, queue)
    requires forall id :: id in s.index ==> s.index[id] < |s.orders|
    ensures forall i, j :: 0 <= i < j < |queue| ==> OrderFirst(queue[i], queue[j])
    ensures forall i :: 0 <= i < |queue| ==>
      && queue[i].id in s.index && queue[i] == ViewOf(s.Book(), queue[i].id)
      && queue[i].side == s.levels[l].side && queue[i].priceTicks == s.levels[l].price
  {
    hide Snapshot.Ok;
    QueueFacts(s, l);
    forall i | 0 <= i < |queue|
      ensures queue[i].id in s.index && queue[i] == ViewOf(s.Book(), queue[i].id)
      ensures queue[i].side == s.levels[l].side && queue[i].priceTicks == s.levels[l].price
    {
      assert queue[i] == OrderViewOf(s.orders[s.queues[l][i]]);
    }
  }

  lemma QueueFacts(s: Snapshot, l: nat)
    requires s.Ok(-1, -1, -1) && l < |s.levels|
    ensures l < |s.queues|
    ensures forall i :: 0 <= i < |s.queues[l]| ==>
      var o := s.queues[l][i];
      && o < |s.orders| && s.orders[o].id in s.index && s.index[s.orders[o].id] == o
      && s.orders[o].side == s.levels[l].side && s.orders[o].price == s.levels[l].price
    ensures forall i, j :: 0 <= i < j < |s.queues[l]| ==>
      s.orders[s.queues[l][i]].priority < s.orders[s.queues[l][j]].priority
  {
    hide FreeList, Loose, AllListed, Populated, Sound, Covered;
    QueueMembers(s.orders, s.levels, s.queues);
    QueuePriced(s, l);
  }

  lemma HeapBounds(levels: seq<Level>, heap: seq<nat>, size: nat, members: set<nat>)
    requires Positions(levels, heap, size, members)
    ensures size <= |heap| && forall i :: 0 <= i < size ==> heap[i] < |levels|
  {
  }

  // ---------- the outcome of a submission ----------

  /** What matching a request and resting its remainder comes to. */
  ghost predicate MatchOutcome(capacity: nat, st: Reference.State, req: OrderRequest, r: SubmitResult, fills: seq<Fill>,
                               after: Reference.State, anyEmpty: bool)
  {
    var m := Reference.Match(st.orders, req, req.quantity, st.fillSequence);
    var matched := Reference.State(m.orders, st.nextPriority, st.fillSequence + |m.fills|);
    && fills == m.fills
    && if m.remaining == 0 then r == FilledComplete && after == matched
       else if !Reference.MayRest(req) then
         r == (if m.remaining == req.quantity then NoFillKilled else PartialFillKilled) && after == matched
       else
         var (rested, done) := Reference.Rest(capacity, matched, req.id, req.side, req.priceTicks, m.remaining);
         if rested == CapacityExhausted || (!anyEmpty && !OrderAt(m.orders, req.side, req.priceTicks))
         then r == RejectedCapacity && after == matched
         else r == (if m.remaining == req.quantity then RestedNoFill else PartialFillRested) && after == done
  }

  /** The reference rests a remainder at a price where no order rests, and the
      level index has no Empty slot left. */
  ghost predicate Unrestable(capacity: nat, st: Reference.State, req: OrderRequest, anyEmpty: bool) {
    && Reference.Submit(capacity, st, req).0 in {RestedNoFill, PartialFillRested}
    && !anyEmpty
    && !OrderAt(Reference.Match(st.orders, req, req.quantity, st.fillSequence).orders, req.side, req.priceTicks)
  }

  ghost predicate SubmitOutcome(capacity: nat, st: Reference.State, req: OrderRequest, r: SubmitResult,
                                fills: seq<Fill>,
                                after: Reference.State, anyEmpty: bool)
  {
    if !Unrestable(capacity, st, req, anyEmpty) then (r, fills, after) == Reference.Submit(capacity, st, req)
    else
      var m := Reference.Match(st.orders, req, req.quantity, st.fillSequence);
      && r == RejectedCapacity && fills == m.fills
      && after == Reference.State(m.orders, st.nextPriority, st.fillSequence + |m.fills|)
  }

  lemma MatchedOutcome(capacity: nat, st: Reference.State, req: OrderRequest, r: SubmitResult, fills: seq<Fill>,
                       after: Reference.State, anyEmpty: bool)
    requires req.kind == New && req.quantity > 0
    requires Reference.MayRest(req) ==> req.id !in st.orders
    requires req.tif == FOK ==> Reference.Fillable(st.orders, req) >= req.quantity
    requires MatchOutcome(capacity, st, req, r, fills, after, anyEmpty)
    ensures SubmitOutcome(capacity, st, req, r, fills, after, anyEmpty)
  {
    hide Reference.Match, OrderAt, Reference.Fillable;
    Reference.MatchKeys(st.orders, req, req.quantity, st.fillSequence);
  }

  lemma CanceledOutcome(capacity: nat, st: Reference.State, req: OrderRequest, anyEmpty: bool)
    requires req.kind == CancelOrder
    ensures SubmitOutcome(capacity, st, req, if req.id in st.orders then Canceled else RejectedInvalid, [],
                          st.(orders := st.orders - {req.id}), anyEmpty)
  {
    assert req.id !in st.orders ==> st.orders - {req.id} == st.orders;
  }

  lemma RejectedOutcome(capacity: nat, st: Reference.State, req: OrderRequest, anyEmpty: bool)
    requires req.kind == New
    ensures
      var r :=
        if req.quantity == 0 then RejectedInvalid
        else if Reference.MayRest(req) && req.id in st.orders then RejectedDuplicate
        else RejectedFOK;
      (r == RejectedFOK ==> req.tif == FOK && Reference.Fillable(st.orders, req) < req.quantity)
      ==> SubmitOutcome(capacity, st, req, r, [], st, anyEmpty)
  {
  }

  // ---------- walking and listing ----------

  lemma SideOfLevels(s: Snapshot)
    requires s.Ok(-1, -1, -1)
    ensures forall id :: id in s.index ==> s.index[id] < |s.orders|
    ensures forall id :: id in s.index ==> exists l: nat ::
      l < |s.levels| && s.levels[l].active && s.levels[l].side == s.Book()[id].side
        && s.levels[l].price == s.Book()[id].price
  {
    hide Snapshot.Ok;
    OkBook(s);
    forall id | id in s.index
      ensures exists l: nat ::
        l < |s.levels| && s.levels[l].active && s.levels[l].side == s.Book()[id].side
          && s.levels[l].price == s.Book()[id].price
    {
      var l, _ := Placed(s, id);
    }
  }

  lemma NoneCollected(levels: seq<Level>)
    ensures Collected(levels, 0, [], [])
  {
  }

  /** The order at place `i` of queue `l`, and the one it links to. */
  ghost predicate LinkedAt(s: Snapshot, l: nat, i: nat) {
    && l < |s.queues| && i < |s.queues[l]| && s.queues[l][i] < |s.orders|
    && s.queues[l][i] < NPOS
    && s.orders[s.queues[l][i]].next == if i + 1 < |s.queues[l]| then s.queues[l][i + 1] else NPOS
  }

  lemma QueueChain(s: Snapshot, l: nat)
    requires s.Ok(-1, -1, -1) && l < |s.levels|
    ensures l < |s.queues| && Linked(s.orders, s.queues[l], l) && |s.orders| <= NPOS
    ensures s.levels[l].head == (if s.queues[l] == [] then NPOS else s.queues[l][0])
  {
    assert Listed(s.orders, s.levels[l], s.queues[l], l);
  }

  lemma QueueLinks(s: Snapshot, l: nat)
    requires s.Ok(-1, -1, -1) && l < |s.levels|
    ensures l < |s.queues| && s.levels[l].head == (if s.queues[l] == [] then NPOS else s.queues[l][0])
    ensures forall i :: 0 <= i < |s.queues[l]| ==> s.queues[l][i] < |s.orders| <= NPOS
    ensures forall i {:trigger LinkedAt(s, l, i)} :: 0 <= i < |s.queues[l]| ==> LinkedAt(s, l, i)
  {
    hide FreeList, Loose, AllListed, Populated, Sound, Covered, Indexed, Ranked, Priced, Snapshot.Ok, Cached, Linked;
    QueueChain(s, l);
    forall i | 0 <= i < |s.queues[l]|
      ensures LinkedAt(s, l, i)
    {
      assert Node(s.orders, s.queues[l], i);
    }
  }

  lemma FoundLevel(levels: seq<Level>, index: map<LevelKey, nat>, bids: set<nat>, asks: set<nat>, side: Side,
                   price: Price)
    requires Directory(levels, index, bids, asks) && (side, price) in index
    ensures index[(side, price)] < |levels| && levels[index[(side, price)]].active
      && KeyOf(levels[index[(side, price)]]) == (side, price)
  {
  }

  lemma NoneWalked(s: Snapshot, index: map<LevelKey, nat>, views: seq<LevelView>)
    requires forall id :: id in s.index ==> s.index[id] < |s.orders|
    ensures Walked(s, index, views, 0, [])
  {
  }

  lemma WalkedAll(s: Snapshot, index: map<LevelKey, nat>, views: seq<LevelView>, listed: seq<OrderView>)
    requires forall id :: id in s.index ==> s.index[id] < |s.orders|
    requires Walked(s, index, views, |views|, listed) && Aggregates(views, s.Book())
    ensures Lists(listed, s.Book())
  {
    forall id | id in s.Book()
      ensures ViewOf(s.Book(), id) in listed
    {
      var v := LevelOf(s.Book(), s.Book()[id].side, s.Book()[id].price);
      assert v in views;
      var i :| 0 <= i < |views| && views[i] == v;
    }
  }

  lemma NoOrdersAt(s: Snapshot, index: map<LevelKey, nat>, bids: set<nat>, asks: set<nat>, side: Side, price: Price)
    requires s.Ok(-1, -1, -1) && Directory(s.levels, index, bids, asks) && (side, price) !in index
    ensures forall id :: id in s.index ==> s.index[id] < |s.orders|
    ensures Queues([], s.Book(), side, price)
  {
    hide Snapshot.Ok, Directory;
    OkBook(s);
    LevelKnown(s, -1, index, bids, asks, side, price);
  }

  lemma LevelIdsListed(s: Snapshot, index: map<LevelKey, nat>, bids: set<nat>, asks: set<nat>, l: nat,
                       listed: seq<OrderView>, ids: seq<OrderId>)
    requires s.Ok(-1, -1, -1) && Directory(s.levels, index, bids, asks) && l < |s.levels| && s.levels[l].active
    requires l < |s.queues| && QueueListed(s, l, |s.queues[l]|, listed)
    requires |ids| == |listed| && forall i :: 0 <= i < |ids| ==> ids[i] == listed[i].id
    ensures forall id :: id in s.index ==> s.index[id] < |s.orders|
    ensures Queues(ids, s.Book(), s.levels[l].side, s.levels[l].price)
  {
    hide Snapshot.Ok, Directory;
    OkBook(s);
    QueueInOrder(s, l, listed);
    forall id | id in QuantitiesAt(s.Book(), s.levels[l].side, s.levels[l].price)
      ensures id in ids
    {
      var m, at := Placed(s, id);
      OneLevelPerKey(s.levels, index, bids, asks, l, m);
      assert ids[at] == id;
    }
    assert forall i :: 0 <= i < |ids| ==> listed[i].id == ids[i] && listed[i] == ViewOf(s.Book(), ids[i]);
  }
}
