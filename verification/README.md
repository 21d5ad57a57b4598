# A verified model of the market-data engine

This Dafny project models the engine's order book, its feed connectors, its
two-thread replay and its research layer, and proves what they promise. Where
the source updates objects in place, so does the model: the order book, the hash
indexes, the price ladders, the read window, the receivers, the queue model and
the backtester are classes over arrays and fields, and every method is proved
against a function of the old state.

## How it fits together

* **Order book.** `ProbeSlots`, `ProbeRooms` and `ProbeTable` are the
  open-addressed hash index with tombstones, `Ladder` the indexed binary heap,
  `Fifo` the intrusive lists of orders, `FreeLists` the pools' free lists, and
  `LevelDirectory` the level pool with its index and its two ladders. `BookState`
  holds the representation invariant as a predicate on a snapshot value, with one
  lemma for every step of an operation. `OrderBook` is the class; every public
  method is proved to do what `Reference` does.
* **Reference.** `Reference` is the simple book of the tests: a map from order id
  to order, a priority counter, a fill counter. `Process` applies an event,
  `Submit` matches by scanning for the best price and then the lowest priority,
  `Run` folds both over a sequence. `EventLaws` and `RequestLaws` say in terms of the
  orders before and after, of prices and of quantities, what each kind of event and each
  answer to a request means, `MatchingLaws` proves the market rules about runs,
  `BookViews` says what snapshots of it are, `Sessions` connects whole runs of
  the class with whole runs of the reference, and `Exhaustion` shows what happens
  once the level index has no Empty slot left.
* **Threads.** `SpscQueue` is the ring buffer as a protocol of single loads,
  stores and slot accesses, with stale but coherent index loads; `ReplayThreads`
  adds the producer's and the consumer's loops and the `producer_done` flag.
* **Feeds.** `ItchDecoder` decodes and encodes messages, `ReadWindow` is the
  compacting and refilling buffer, `ItchStreams` the file and the SoupBinTCP
  connector over it, `MoldUdp64` the packets and the account of sequence numbers,
  `MoldReceiver` the receiver, and `MoldRuns` its whole runs with any retransmit source.
* **Research.** `QueueModel` is the queue-position estimate, over reals, and
  `QueueRuns` drives it over a book; `Backtest` is the latency queue and the integer
  ledger, `BacktestLedger` what that ledger must add up to, and `BacktestRuns`
  connects whole backtests with the reference book.

## Main results

* For every event and request in any mix, the optimised book gives the
  reference's result, fills and orders, **exactly unless the level index refuses a
  price**. The condition is the guard of the branch that fails: the operation rests
  an order at a price where no other order rests, and the level index has no Empty
  slot left (`Refuses`, `Unrestable`). What then happens is stated too: an added
  order is not taken, a replaced order is lost, a remainder is dropped behind its
  fills, and a modified order stays in the index, unchanged, but in no queue.
* What the reference does is settled by laws that use none of its functions. For every
  kind of event: the fields of the one order concerned, its priority, that no other
  order changes, and when each error is reported. For every request: each answer if and
  only if its condition holds; fills at the makers' prices inside the limit, by price
  and then by age; exactly the fills come off the book; a remainder leaves nothing at
  or inside its limit; and what is filled is what rests inside the limit or all that is
  asked for.
* The cause is that `insert_level_lookup` (src/OrderBook.cpp:338-353) lacks the
  fallback to a tombstone that `insert_order_lookup` has (lines 317-320). A
  counting argument over all insertions and erasures shows when it cannot happen:
  a table always keeps an Empty slot while fewer distinct keys were ever inserted
  than it has slots. So a book is faithful, for every hash function, on every run
  that names fewer distinct pairs of side and price than the level index has slots,
  which are at least `2 n` for `n` orders. This bound is sharp: for every `n` and every
  hash function under which some prices have all slots as their homes, a run that
  names one price for each slot leads to each of the four outcomes (`Exhaustion`). The
  comment at line 84, which calls the branch unreachable, is wrong there.
* The order that a refused modification leaves in no queue still names the level it
  has left, and that level is live if and only if another order rests at its price.
  Unlinking the order once more, as cancelling it does, takes head and tail from that
  level's queue if and only if the level is live, and closes the level if one order
  waits there. A run with two orders shows the second one lost.
* A book that takes nothing but requests is never crossed, also when the level
  index refuses some of them. The reference reports RejectedCapacity only for a full
  book that stays as it was; the book itself also loses a remainder behind fills, or
  from a book that is not full, exactly when that guard holds; the condition is given
  over the state before the call, and a run shows both.
* The two-thread replay applies an in-order prefix of the feed. It applies all of
  it if and only if the last empty pop had seen every push; since the loop of
  src/Main.cpp:57-66 looks at the flag after the pop, a run exists in which the
  last event is lost. A loop that looks at the flag before the pop always applies the
  whole feed.
* Over any packets at all, the MoldUDP64 receiver accounts for every sequence number
  up to its frontier once; with slices of one stream and a complete retransmit source
  it delivers the stream as if nothing had been lost: the event of every message that
  decodes to one, once, in order and unchanged but for its number. With any other
  retransmit source, or none, a message is handed out if and only if the first packet
  that reaches beyond its number has it, or starts behind it and the source has it; all
  other numbers are counted as missed (`ReceivesWhatThereIs`). The frontier is `expected_`, or
  `recover_next_` while a gap is drained, except in exactly one kind of state: with a
  retransmit source, behind a gap that has been drained, before the first message of
  the packet after it is read; there `expected_` lags. A run in which that message is
  cut short shows the state, and no further call leaves it.
* A stream read in any portions is indistinguishable from the same bytes in
  memory, and framed events come back unchanged. The header comment of the file
  connector (include/market/itch/ItchFileConnector.hpp) says that a malformed frame
  stops the stream. A failed stream stays where it is exactly when it stands at an
  empty or cut frame; the code passes over a malformed message, and the next call may
  return an event (`FailureIsFinal`, `ReturnsAnEventAfterFailing`).
* The queue estimate has a closed form on every feed and for every multiplier: what is
  ahead is what was ahead less all that has gone, and what has filled is what the
  executions left over, rounded down and capped (`ClosedForm`). With multiplier 1 it
  follows the true book exactly under stated rules of the feed. Both hold where the two
  classes run together over a feed (`PostAndWatch`).
* A whole backtest is determined by the reference book. A row is acted on if it is
  two-sided and differs in price or size from the last one acted on; the commitment is
  then plus the order size for a long signal, minus it for a short one and zero for a
  flat one, except that a first flat signal leaves it. Each change of the commitment
  sends one order for the difference. It arrives the latency after the event it was
  decided on and is filled at the opposite touch of the book of exactly the events
  stamped before it arrives (without latency, of the events up to that one), or finds
  that side empty. The fills are those of the orders that found something to cross, in
  the order they were sent, and behind them at most one more, which closes the position
  at the last stamp.

## Model

| member | source | states |
|---|---|---|
| `ProbeTables.ProbeTable.Locate` | src/OrderBook.cpp:165-187 | the probe stops at the slot of the key when the table holds it, and finds nothing otherwise, after any history of insertions and erasures |
| `ProbeTables.ProbeTable.Find` | src/OrderBook.cpp:165-187 | a lookup returns exactly what the abstract map holds for the key |
| `ProbeTables.ProbeTable.FindDestination` | src/OrderBook.cpp:303-322 | the insertion probe ends at the first tombstone or the first Empty slot; it finds a destination exactly when some slot is not occupied, and knows whether it saw an Empty one |
| `ProbeTables.ProbeTable.InsertReusing` | src/OrderBook.cpp:303-322 | the order index adds one entry to its map; it refuses exactly when every slot is occupied |
| `ProbeTables.ProbeTable.InsertBeforeEmpty` | src/OrderBook.cpp:338-353 | the level index adds one entry to its map; without an Empty slot it refuses, tombstones or not |
| `ProbeTables.ProbeTable.Erase` | src/OrderBook.cpp:324-336 | erasing takes one key out of the map and turns its slot into a tombstone; every other key stays findable |
| `ProbeTables.WriteKeepsProbes` | src/OrderBook.cpp:303-353 | writing a key where its probe ends keeps every key reachable, no key twice, and the account of Empty slots |
| `ProbeTables.EraseKeepsProbes` | src/OrderBook.cpp:324-336 | a tombstone keeps every other probe path free of Empty slots |
| `ProbeTables.FreeSlotExists` | src/OrderBook.cpp:303-322 | a table with more slots than keys has a slot that is not occupied |
| `ProbeTables.ProbeTable.RoomFor` | src/OrderBook.cpp:338-353 | as long as fewer distinct keys were ever inserted than there are slots, an Empty slot is left, whatever the hash function |
| `ProbeTables.ProbeTable.HomeTaken` | src/OrderBook.cpp:338-353 | the home slot of a key that was ever inserted is never Empty again |
| `ProbeRooms.WriteKeepsRoom` | src/OrderBook.cpp:338-353 | the counting invariant behind `RoomFor`: seen from any Empty slot, the keys ever used outnumber the slots taken and the keys that passed over, also after a write that reuses a tombstone |
| `ProbeRooms.LastEmptySlot` | src/OrderBook.cpp:338-353 | a write that takes the last Empty slot leaves at least as many keys ever used as there are slots |
| `ProbeRooms.EraseKeepsRoom` | src/OrderBook.cpp:355-367 | erasing keeps the counting invariant |
| `Ladders.Ladder.SiftUp` | src/OrderBook.cpp:220-230 | from a heap that is ordered except above one position, sifting up restores the heap and the exact back pointers, and changes nothing in a level but its position |
| `Ladders.Ladder.SiftDown` | src/OrderBook.cpp:232-247 | from any key put at a position, sifting down leaves a heap that can only be out of order above that position |
| `Ladders.Ladder.Push` | src/OrderBook.cpp:249-256 | a push adds one level to the ladder's members and keeps heap order and back pointers |
| `Ladders.Ladder.Remove` | src/OrderBook.cpp:258-270 | removal at any position, by sifting down and then up from the same start, removes exactly that level and keeps heap order and back pointers |
| `Ladders.Ladder.Top` | src/OrderBook.cpp:272-276 | the root is a member that no other member's price beats |
| `Ladders.TopIsBest` | src/OrderBook.cpp:214-218 | in an ordered heap no price beats the root's |
| `Fifos.AppendAll` | src/OrderBook.cpp:278-288 | linking an order at a tail keeps every level's list: links, rising priority, cached total and count; only that level's queue grows |
| `Fifos.DetachAll` | src/OrderBook.cpp:290-300 | unlinking an order anywhere in its list keeps every level's list, with that one order gone |
| `Fifos.ResizeAll` | src/OrderBook.cpp:70-76 | changing a quantity in place keeps every list and adjusts the one cached total |
| `FreeLists.Popped` | src/OrderBook.cpp:133-134 | popping an intrusive free list leaves a free list of the remaining free records |
| `FreeLists.Pushed` | src/OrderBook.cpp:104-109 | pushing a freed record leaves a free list with that record in front, and no record twice |
| `LevelDirectories.LevelDirectory.Acquire` | src/OrderBook.cpp:189-203 | returns the live level of the price, opened if need be; it refuses exactly when the price has no level and the pool is exhausted or the index has no Empty slot |
| `LevelDirectories.LevelDirectory.Open` | src/OrderBook.cpp:191-202 | opening a level changes pool, free list, index and ladder together; when the index refuses, the record is back on the free list and nothing else changed |
| `LevelDirectories.LevelDirectory.Release` | src/OrderBook.cpp:205-212 | closing an empty level changes pool, free list, index and ladder together and leaves every other level as it was |
| `BookStates.LevelsExhausted` | src/OrderBook.cpp:78-81 | when the level pool is exhausted every level holds exactly one order |
| `BookStates.LevelToSpare` | src/OrderBook.cpp:189-192 | while an order is out of its queue a free level remains: live levels never outnumber live orders |
| `BookStates.OrdersExhausted` | src/OrderBook.cpp:130 | the order pool's free list is empty exactly when the book holds as many orders as it has capacity |
| `OrderBooks.NextPowerOfTwo` | src/OrderBook.cpp:12-16 | the smallest power of two that is at least the argument |
| `OrderBooks.OrderBook.constructor` | src/OrderBook.cpp:29-45 | a new book satisfies the whole representation invariant and is the empty reference book; its level index is the smallest power of two of at least twice the capacity |
| `OrderBooks.OrderBook.LinkTail` | src/OrderBook.cpp:278-288 | the queue of one level gains the order at its end; everything else in the snapshot is as it was |
| `OrderBooks.OrderBook.Unlink` | src/OrderBook.cpp:290-301 | the order leaves its queue, its level is released if that was its last order, and the invariant holds up to this one order |
| `OrderBooks.OrderBook.Enter` | src/OrderBook.cpp:144-149 | the order index never refuses an order that got a pool record, so the rollback after a refusal is dead code |
| `OrderBooks.OrderBook.RestOrder` | src/OrderBook.cpp:126-151 | rests an order as the map-based book does, except that a price refused by the level index leaves the book unchanged with CapacityExhausted |
| `OrderBooks.OrderBook.Cancel` | src/OrderBook.cpp:94-102 | removes exactly the named order, or reports that it is not there |
| `OrderBooks.OrderBook.Trade` | src/OrderBook.cpp:153-163 | reduces or removes the named order with the map-based book's result for every quantity |
| `OrderBooks.OrderBook.Modify` | src/OrderBook.cpp:65-92 | amends as the map-based book does, keeping priority at the same price and losing it elsewhere; if the new price is refused, the result is CapacityExhausted and the order is left indexed but in no queue, every record is as it was but for links, and the level the order names is live if and only if another order rests at its price |
| `OrderBooks.OrderBook.UnlinkStranded` | src/OrderBook.cpp:290-301 | unlinking once more an order that a refused modification has left in no queue: the level it names loses its queue if and only if it is live, its total and count go down or wrap around, and it is closed if one order waits there; all who wait stay indexed |
| `OrderBooks.OrderBook.NeverOutOfLevels` | src/OrderBook.cpp:78-81 | the precheck of `modify` never fires |
| `OrderBooks.OrderBook.ReplaceOrder` | src/OrderBook.cpp:111-122 | replaces as the map-based book does; if the new price is refused, the original is gone and nothing takes its place |
| `OrderBooks.OrderBook.ProcessEvent` | src/OrderBook.cpp:47-59 | for every event the result and the book are the map-based reference's if and only if the event is not refused by the level index; what a refused event leaves is stated exactly |
| `EventLaws.Added` | src/OrderBook.cpp:126-151 | an added order rests with the event's side, price and quantity behind all others; no other order changes; it is refused for no quantity, a taken id or a full book, in that order, and a refusal changes nothing |
| `EventLaws.Modified` | src/OrderBook.cpp:65-92 | the order becomes the event's in side, price and quantity, keeps its priority if and only if side and price stay, and goes behind all others otherwise; no other order changes; exact errors |
| `EventLaws.Cancelled` | src/OrderBook.cpp:94-102 | the named order is gone and no other changes; the only error is that it is not there |
| `EventLaws.Executed` | src/OrderBook.cpp:153-163 | the quantity falls by exactly the event's, the order is gone if and only if they were equal, and no other order changes; exact errors |
| `EventLaws.Replaced` | src/OrderBook.cpp:111-122 | the old id is gone and the new one rests on the old side with the event's price and quantity and the last priority; no other order changes; exact errors |
| `OrderBooks.OrderBook.LadderTop` | src/OrderBook.cpp:272-276 | the ladder's top is the best live level of the side, as a scan of all levels would find it |
| `OrderBooks.OrderBook.HitMaker` | src/OrderBook.cpp:427-456 | the head of the best crossing level is the reference's best maker; one trade against it has the reference's price, quantity, sequence and effect |
| `OrderBooks.OrderBook.MatchAll` | src/OrderBook.cpp:425-459 | the matching loop emits exactly the fills of the scan-based reference match and leaves its orders and remainder; it terminates |
| `OrderBooks.OrderBook.FillableQuantity` | src/OrderBook.cpp:396-406 | the scan of level totals in heap-array order is the sum over all orders the request could match |
| `OrderBooks.OrderBook.Submit` | src/OrderBook.cpp:408-466 | result, fill list and book are those of the scan-based reference matcher, except that a remainder at a price the level index refuses is not rested and reported as RejectedCapacity |
| `RequestLaws.Answers` | src/OrderBook.cpp:408-466 | each answer is given if and only if its condition holds, in terms of ids, quantities and what rests opposite inside the limit; fill-or-kill is rejected exactly when that is less than it asks for |
| `RequestLaws.Refused` | src/OrderBook.cpp:408-423 | a request that is turned away at once has no fills and changes nothing |
| `RequestLaws.FillsInsideLimit` | src/OrderBook.cpp:390-443 | every fill is with an order that rested opposite, at its price, for no more than it had, and for a limit request at or inside the limit; fills are numbered in sequence |
| `RequestLaws.FillsInOrder` | src/OrderBook.cpp:425-456 | a buyer's fills never fall and a seller's never rise in price, at one price the older maker comes first, and every maker but the last is taken completely |
| `RequestLaws.LeavesBehind` | src/OrderBook.cpp:408-466 | exactly the fills have come off their makers; a remainder that rests is at the limit with the last priority and the quantity not filled; nothing else changes |
| `RequestLaws.NothingLeftInside` | src/OrderBook.cpp:427-431 | a remainder of a limit request leaves nothing opposite at or inside its limit, of a market request nothing opposite at all |
| `RequestLaws.FillsAllItCan` | src/OrderBook.cpp:396-459 | what is filled is the sum of the opposite quantities inside the limit or the whole request, whichever is less |
| `OrderBooks.OrderBook.FindOrder` | src/OrderBook.cpp:369-374 | shows side, price, quantity and priority of the order the map holds, or nothing |
| `OrderBooks.OrderBook.BestOf` | src/OrderBook.cpp:376-388 | the highest bid or the lowest ask over all orders, with the number and the sum of the orders at that price, or nothing when the side is empty |
| `OrderBooks.OrderBook.Levels` | src/OrderBook.cpp:468-479 | one view for each price with an order, with the number and the sum of just its orders, bids from the highest and then asks from the lowest |
| `OrderBooks.OrderBook.LevelOrderIds` | src/OrderBook.cpp:481-492 | exactly the ids resting at the price, in priority order |
| `OrderBooks.OrderBook.OrdersInPriority` | src/OrderBook.cpp:494-507 | every order once with its own fields, bids from the highest and then asks from the lowest price, the older first at one price |
| `BookViews.ListsUnique` | tests/MarketEngineTests.cpp:96-109 | there is only one such listing of a book, so equal books give equal listings |
| `Matching.HeadIsBest` | src/OrderBook.cpp:425-440 | the head of the best crossing level is the order with the best price and then the lowest priority among all candidates |
| `Matching.NoCandidate` | src/OrderBook.cpp:428-432 | when the ladder's top does not cross, no order on the side is a candidate |
| `Matching.ScanLevel` | src/OrderBook.cpp:396-406 | one step of the pre-scan adds what the orders of one level offer |
| `MatchingLaws.BestExists` | tests/MarketEngineTests.cpp:235-248 | the scan for the best maker finds one exactly when some order crosses |
| `MatchingLaws.BestByPriceAndPriority` | tests/MarketEngineTests.cpp:235-248 | priorities being distinct, the best maker is the one with the best price and then the lowest priority |
| `MatchingLaws.MatchTakesAll` | src/OrderBook.cpp:421-459 | matching leaves exactly the part of the request beyond what was fillable: the pre-scan equals what the loop can take |
| `MatchingLaws.FillOrKill` | src/OrderBook.cpp:421-424 | a fill-or-kill request is rejected with no fill and an unchanged book, or fills completely |
| `MatchingLaws.FillsAddUp` | src/OrderBook.cpp:425-465 | fills plus remainder equal the requested quantity |
| `MatchingLaws.MatchConserves` | src/OrderBook.cpp:425-459 | the opposite side shrinks by exactly the fills and the request's own side is untouched |
| `MatchingLaws.MatchInPriority` | src/OrderBook.cpp:425-459 | makers are filled in strict price-time order at their own prices within the taker's limit, and every fill but the last takes all of its maker |
| `MatchingLaws.MatchExhausts` | src/OrderBook.cpp:425-459 | a request with a remainder leaves nothing it could cross |
| `MatchingLaws.OutcomeKeepsUncrossed` | src/OrderBook.cpp:408-466 | from an uncrossed book a request leaves an uncrossed book, with the remainder rested, killed or refused by the level index |
| `MatchingLaws.RequestsKeepUncrossed` | src/OrderBook.cpp:408-466 | over whole runs of requests, each answered as the reference does or with its remainder refused, the book stays uncrossed |
| `MatchingLaws.RunRanked` | tests/MarketEngineTests.cpp:46-253 | over runs of events and requests in any mix, resting quantities stay positive and priorities distinct |
| `MatchingLaws.LostRemainder` | src/OrderBook.cpp:460-462 | RejectedCapacity behind fills, or from a book that is not full, happens if and only if the level index has no Empty slot and no order rests at the price; every other RejectedCapacity comes from a full book and changes nothing |
| `MatchingLaws.LostRemainderBefore` | src/OrderBook.cpp:408-462 | the same condition over the state before the call: the request may rest, cannot be filled, finds or makes room, has no order of its side at its price, and meets a level index without an Empty slot |
| `Sessions.Perform` | src/OrderBook.cpp:47-466 | one event or request, in any mix, agrees with the reference while the level index has an Empty slot |
| `Sessions.RunAll` | src/OrderBook.cpp:47-466 | every run that names fewer prices than the level index has slots agrees with the reference throughout: each result, each fill, the final book |
| `Sessions.Session` | src/OrderBook.cpp:29-466 | from an empty book, fewer than twice `max_orders` distinct (side, price) pairs are always enough for full agreement, whatever the hash functions |
| `Exhaustions.UseUp` | src/OrderBook.cpp:29-45 | for every capacity, a run with one price for each slot of the level index leaves no Empty slot and one resting order |
| `Exhaustions.RefusesWhileEmpty` | src/OrderBook.cpp:126-151 | for every capacity, an empty book refuses an order the reference takes |
| `Exhaustions.LosesReplacement` | src/OrderBook.cpp:111-122 | for every capacity, a replacement that the reference applies leaves an empty book |
| `Exhaustions.LosesRemainder` | src/OrderBook.cpp:460-462 | for every capacity, a request is answered RejectedCapacity behind a fill where the reference rests its remainder, and the next one by an empty book |
| `Exhaustions.StrandsTheOnlyOrder` | src/OrderBook.cpp:82-84 | for every capacity, the branch marked unreachable is reached: a modification that the reference applies leaves the only order out of every queue |
| `Exhaustions.LosesTheOther` | src/OrderBook.cpp:65-92 | for every capacity above one, after a refused modification of the first of two orders at a price, unlinking it again leaves the second indexed at a level that no longer leads to it |
| `Sessions.TakeRequests` | src/OrderBook.cpp:408-466 | a book that is sent nothing but requests stays uncrossed, whatever its level index refuses |
| `SpscQueues.InOrderAndBounded` | include/market/SpscQueue.hpp:25-44 | in every interleaving with stale but coherent index loads, items popped are a prefix of items pushed, at most `Capacity - 1` are held, and writer and reader are never at one slot |
| `SpscQueues.AccessesOrdered` | include/market/SpscQueue.hpp:25-44 | any write and read of one slot are ordered by an acquire that saw the matching release: there is no data race |
| `SpscQueues.RefusalsAreHonest` | include/market/SpscQueue.hpp:25-44 | a push is refused exactly when the tail the producer read leaves no slot, a pop exactly when the head the consumer read is its own position |
| `SpscQueues.OnlyNextVisible` | include/market/SpscQueue.hpp:35-44 | of all writes ever made to the slot, the consumer can read only that of the next item in order |
| `SpscQueues.TailDecides` | include/market/SpscQueue.hpp:25-33 | comparing wrapped indices decides fullness correctly because the loaded tail is coherent |
| `SpscQueues.StepKeepsInv` | include/market/SpscQueue.hpp:25-44 | every step of either thread keeps the protocol invariant |
| `ReplayThreads.AppliesPrefix` | src/Main.cpp:42-67 | the consumer applies an in-order prefix of the feed, and the whole feed if and only if its last empty pop had seen every push |
| `ReplayThreads.StopsTooEarly` | src/Main.cpp:54-67 | an interleaving of the existing loops in which the consumer stops without the only event |
| `ReplayThreads.RepairedAppliesAll` | src/Main.cpp:54-67 | a consumer that loads the flag before each pop, and stops only when the flag was set and the pop found nothing, has applied the whole feed in every interleaving |
| `ItchDecoders.ReadBe16` | include/market/itch/ItchDecoder.hpp:38-41 | the big-endian number of the two bytes, within 16 bits |
| `ItchDecoders.ReadBe32` | include/market/itch/ItchDecoder.hpp:43-48 | the big-endian number of the four bytes |
| `ItchDecoders.ReadBeLong` | include/market/itch/ItchDecoder.hpp:50-64 | the shifting loop computes the big-endian number of its bytes |
| `ItchDecoders.DecodeMessage` | include/market/itch/ItchDecoder.hpp:77-148 | the branch-by-branch decoder agrees, on all bytes, with the table of field positions of the ITCH 5.0 message types |
| `ItchDecoders.KindOfMessage` | include/market/itch/ItchDecoder.hpp:77-148 | by type letter, length and side byte: when a message is malformed and when it is none for the book |
| `ItchDecoders.FieldsOfMessage` | include/market/itch/ItchDecoder.hpp:80-144 | for each of the seven type letters, the byte positions of every field of the event |
| `ItchDecoders.AttributionIsIgnored` | include/market/itch/ItchDecoder.hpp:92-102 | an added order with attribution decodes to the event of the one without |
| `ItchDecoders.DecodeUndoesEncode` | tests/MarketEngineTests.cpp:554-608 | for every locate code and every tracking number, decoding an encoded in-range event gives it back with its symbol, up to the fields its message type has no room for |
| `ItchDecoders.BigEndianRoundTrip` | tests/MarketEngineTests.cpp:546-550 | reading back what was put in big-endian order |
| `ReadWindows.ReadWindow.Compact` | src/ItchFileConnector.cpp:28-33 | moving the unread bytes to the front loses nothing |
| `ReadWindows.ReadWindow.ReadMore` | src/ItchFileConnector.cpp:37-44 | one read of any length keeps the unread stream |
| `ReadWindows.ReadWindow.Ensure` | src/ItchFileConnector.cpp:24-47 | compacting, growing and refilling never change the unread stream; the call succeeds exactly when the stream still has that many bytes |
| `ReadWindows.ReadWindow.TakeFrame` | src/ItchFileConnector.cpp:51-65 | takes exactly the first frame off the stream; an empty or cut frame stays where it is |
| `ReadWindows.FrameByBytes` | src/ItchFileConnector.cpp:51-63 | a frame is as long as its first two bytes say; none, an empty and a cut one are told apart by the bytes |
| `ItchStreams.StreamConnector.Next` | src/ItchFileConnector.cpp:49-79 | one call gives the event, the failure flag, the numbering and the rest of the stream that the unread bytes determine, however they arrive |
| `ItchStreams.StreamConnector.NextPacket` | src/SoupBinTcpConnector.cpp:47-88 | one packet of a session: sequenced data is numbered and decoded, an end of session stops cleanly, other packets are passed over |
| `ItchStreams.FileFrame` | src/ItchFileConnector.cpp:49-79 | what a call gives for the first frame of a file, by its bytes: an event takes the next number, a malformed message fails, a skipped one takes no number |
| `ItchStreams.SessionFrame` | src/SoupBinTcpConnector.cpp:47-88 | what a call gives for the first packet of a session, by its type letter: a sequenced packet takes the next number whatever its message, Z ends the session, every other type is passed over |
| `ItchStreams.SkippedMessagesCount` | src/SoupBinTcpConnector.cpp:71-73 | an event behind any number of skipped messages bears its place among all messages in a session, among the events in a file |
| `ItchStreams.Drain` | src/ItchFileConnector.cpp:49-79 | calling until nothing comes gives the events and flags determined by the bytes |
| `ItchStreams.EitherWay` | src/ItchFileConnector.cpp:11-22 | bytes held in memory and bytes read in any portions give the same events and the same flags |
| `ItchStreams.FramingUndone` | src/SoupBinTcpConnector.cpp:47-88 | framing any list of packets and draining the stream gives exactly what the packets mean, in both framings |
| `ItchStreams.EventsRoundTrip` | tests/MarketEngineTests.cpp:610-658 | in-range events, encoded and framed, come back unchanged and numbered 1..N without failure |
| `ItchStreams.FailureIsFinal` | src/ItchFileConnector.cpp:49-79 | a failed call is repeated by every further call if and only if the stream stands at an empty or cut frame |
| `ItchStreams.ReturnsAnEventAfterFailing` | src/ItchFileConnector.cpp:65-71 | a one-byte message followed by a framed event: the first call fails and the second returns the event |
| `MoldUdp64.ReadBlock` | include/market/itch/MoldUdp64.hpp:47-55 | reads the block at the offset and moves past it, or reports truncated framing and stays |
| `MoldUdp64.HeaderByBytes` | include/market/itch/MoldUdp64.hpp:23-31 | number and count of a packet by the byte positions of its header |
| `MoldUdp64.DataPacketsByBytes` | src/MoldUdp64Connector.cpp:53-66 | the packets that carry messages are those of the readable datagrams whose count is neither zero nor all ones |
| `MoldUdp64.BlocksByBytes` | include/market/itch/MoldUdp64.hpp:40-48 | each block by the two bytes before it, the first behind the header and each further one behind the one before |
| `MoldUdp64.DeliveredInOrder` | src/MoldUdp64Connector.cpp:101-156 | delivered sequence numbers strictly increase and lie in the stretch accounted for |
| `MoldUdp64.LossIsInvisible` | src/MoldUdp64Connector.cpp:47-156 | packets that are slices of one stream, lost, repeated or reordered in any way, with every message recoverable, account for each number from the first to the largest end seen exactly as the stream itself does |
| `MoldUdp64.CanonicalDelivers` | src/MoldUdp64Connector.cpp:101-156 | a stream delivers the event of every message that decodes to one, once, in order, unchanged but for its number, and no other |
| `MoldUdp64.AccountReaches` | src/MoldUdp64Connector.cpp:62-96 | packets that are not cut short account for every number from the first to the largest end |
| `MoldUdp64.GapsByNumbers` | src/MoldUdp64Connector.cpp:70-79 | the gaps found are the packets that start beyond the largest end of all before them |
| `MoldUdp64.PacketIsSlice` | tests/MarketEngineTests.cpp:707-716 | a packet built from consecutive messages parses to its header and yields each message |
| `MoldReceivers.MoldReceiver.RecoverOne` | src/MoldUdp64Connector.cpp:104-126 | one number of a gap is recovered or counted as missed, and logged under its own number |
| `MoldReceivers.MoldReceiver.Read` | src/MoldUdp64Connector.cpp:139-156 | one live message is logged under its own number, and the frontier moves behind it |
| `MoldReceivers.MoldReceiver.ReadOne` | src/MoldUdp64Connector.cpp:134-156 | one live message is read and accounted for; only a packet whose framing is cut short fails here without one |
| `MoldReceivers.MoldReceiver.SkipSeen` | src/MoldUdp64Connector.cpp:80-90 | skips exactly the messages already seen, or finds the packet cut short |
| `MoldReceivers.MoldReceiver.TakeUp` | src/MoldUdp64Connector.cpp:62-96 | a packet ahead opens or counts a gap, an overlapping one is cut to its new part, an old one is dropped; nothing is delivered by it |
| `MoldReceivers.MoldReceiver.LoadNextPacket` | src/MoldUdp64Connector.cpp:47-99 | pulls datagrams in order until one brings a message or a gap; heartbeats and session ends bring none |
| `MoldReceivers.MoldReceiver.Next` | src/MoldUdp64Connector.cpp:101-156 | the event returned is what a block of the latest packet or a recovered payload decodes to, under its number, and the only delivery the log gains; every number up to the frontier is exactly one of delivered, ignored, bad or missed, the counters agree with the log, and the log is the account of the packets taken up; a message that is cut short stops every further call |
| `MoldReceivers.MoldReceiver.FrontierShown` | src/MoldUdp64Connector.cpp:62-99 | in every state the counter is at most the first number not accounted for, and less if and only if a gap was to be recovered before the current packet, has been drained, and no message of the packet was read |
| `MoldReceivers.CounterLags` | src/MoldUdp64Connector.cpp:104-143 | two datagrams after which the receiver has failed and `expected_` is 2 although numbers 1 and 2 are accounted for |
| `MoldReceivers.Drain` | src/MoldUdp64Connector.cpp:101-156 | the events of a whole run are the deliveries of its log; a run fails only for a failing source, an unreadable datagram, a cut packet or a malformed message |
| `MoldReceivers.RecoversEverything` | src/MoldUdp64Connector.cpp:47-156 | with slices of one stream and a complete retransmit source, the receiver delivers exactly the events its messages from the first number to the largest end decode to, once each, in order and unchanged but for the number, misses none, and shows the end of the session exactly if a datagram announces it |
| `MoldRuns.AccountByNumbers` | src/MoldUdp64Connector.cpp:62-156 | the account holds for each number what its message decodes to, the message being in the first packet that reaches beyond the number or else at the retransmit source |
| `MoldRuns.DeliveredByNumbers` | src/MoldUdp64Connector.cpp:104-156 | deliveries and misses of the account, number by number, for any retransmit source |
| `MoldRuns.ReceivesWhatThereIs` | src/MoldUdp64Connector.cpp:47-156 | with packets that are not cut short and any retransmit source or none, the events handed out are those of every message at hand, once and in order, and the numbers counted as missed are those whose message is nowhere |
| `QueueModels.QueueModel.OnEvent` | include/market/research/QueueModel.hpp:43-85 | the model reacts to the event from the book before it; ahead and filled change as the estimate prescribes |
| `QueueModels.QueueModel.OrderAtOurLevel` | include/market/research/QueueModel.hpp:97-107 | finds the referenced order exactly when it rests at the model's side and price |
| `QueueModels.FillsMonotone` | include/market/research/QueueModel.hpp:43-94 | over any feed filled never falls or passes the size, and what is ahead never grows or goes negative |
| `QueueModels.MoreAheadFillsLater` | include/market/research/QueueModel.hpp:32-57 | on any feed, the model that presumes more ahead never has more filled, although the other stops updating once full |
| `QueueModels.ClosedForm` | include/market/research/QueueModel.hpp:43-94 | on any feed and for any quantity ahead at the start, what is ahead is that less all that was executed at the price or left it from the cohort, and filled is what the executions left over, rounded down and capped at the size |
| `QueueModels.TradesOnlyClosedForm` | include/market/research/QueueModel.hpp:43-57 | when nothing ahead is cancelled, filled is the executed quantity beyond the initial ahead, rounded down and capped at the size |
| `QueueModels.ReactKeepsTrack` | include/market/research/QueueModel.hpp:43-85 | one event keeps the multiplier-1 estimate exact: ahead is the quantity of the cohort still resting |
| `QueueModels.EstimateIsExact` | include/market/research/QueueModel.hpp:43-85 | over a whole disciplined feed ahead equals what rests of the cohort, and nothing fills while any of it rests |
| `QueueModels.PostedTracks` | src/ItchQueue.cpp:127-139 | a model posted with multiplier 1 behind the touch starts out exact |
| `QueueModels.Post` | src/ItchQueue.cpp:127-139 | posts at the highest bid or lowest ask, with the multiple of the sum of all that rests there ahead, exactly its orders as the cohort, and nothing filled |
| `QueueRuns.Watch` | src/ItchQueue.cpp:113-123 | the model and the book, driven together over a feed, are the estimate and the reference book after it |
| `QueueRuns.ObserveFollows` | src/ItchQueue.cpp:113-123 | a model watching a book is the model following the feed of events and the orders before each |
| `QueueRuns.PostAndWatch` | src/ItchQueue.cpp:113-139 | a model posted at the touch has the closed form behind every feed, for every multiplier, and with multiplier 1 is exact behind every disciplined feed; on an empty side nothing is posted and nothing changes |
| `Backtests.Backtester.ExecuteCrossing` | src/Backtest.cpp:15-41 | the whole quantity fills at the opposite touch, or the order counts as unfilled; position, cash and trades stay the sums over the fills |
| `Backtests.Backtester.ExecuteNext` | src/Backtest.cpp:15-50 | the next order sent gets its outcome, its fill is stamped with its arrival, and every outcome so far is that of the book the order had to meet |
| `Backtests.Backtester.ReleaseFirst` | src/Backtest.cpp:43-50 | the oldest order in flight leaves the queue and executes against the book as it is |
| `Backtests.Backtester.ReleaseArrived` | src/Backtest.cpp:43-50 | the orders released are the next ones sent, all of them arrived; those that remain arrive later, and the outcomes of earlier orders stand |
| `Backtests.Backtester.OnEvent` | src/Backtest.cpp:52-90 | events of other symbols change nothing; an event of the symbol is applied behind the releases, its effect on book, commitment, orders sent and recorded history is stated, and the invariants of ledger and time are kept |
| `Backtests.Backtester.Decide` | src/Backtest.cpp:63-90 | the new row shows the highest bid and the lowest ask; if it is acted on, the commitment is plus or minus the order size or zero as the signal says, and a changed commitment sends exactly one order for the difference; each row acted on is counted |
| `Backtests.DecisionByRule` | src/Backtest.cpp:64-80 | the rule in raw terms: when a row is acted on, which signal the strategy is shown, and what each signal commits |
| `Backtests.Backtester.Commit` | src/Backtest.cpp:77-90 | the order for the difference to the new target crosses at once or goes in flight, and the commitment is the target |
| `Backtests.Backtester.TopOfBook` | include/market/research/Features.hpp:32-47 | both touches by price with the sums over all orders there, zero on an empty side |
| `Backtests.BidBelowOffer` | include/market/research/Features.hpp:32-47 | the row of a book that is not crossed shows a bid below the offer |
| `Backtests.Backtester.Finish` | src/Backtest.cpp:92-119 | every order ever sent has its outcome, a position that is left is closed at the touch of the final book if there is one, and the result is the sums over the fills |
| `Backtests.Backtester.PositionIsATarget` | src/Backtest.cpp:71-89 | committed units are position plus units in flight plus units unfilled; with none unfilled the position is an earlier target and never exceeds the order size |
| `BacktestLedgers.InFlightIsDifference` | src/Backtest.cpp:77-90 | the orders in flight add up to the difference between the latest target and that of the last order executed |
| `BacktestLedgers.FillHasOrder` | src/Backtest.cpp:29-33 | every fill has the stamp, side and quantity of an order that was sent and the price of its outcome |
| `BacktestLedgers.BoughtAndSold` | src/Backtest.cpp:21-31 | the position is the units bought less those sold, the cash what the sales brought less what the purchases cost |
| `BacktestLedgers.CrossedAtBest` | src/Backtest.cpp:15-41 | a buy that finds a seller fills at the lowest ask, a sell that finds a buyer at the highest bid, and an order finds nothing only if that side is empty |
| `BacktestLedgers.FlattenedAtBest` | src/Backtest.cpp:100-105 | what was bought beyond what was sold is sold at the highest bid, the reverse bought back at the lowest ask, all of it at the last stamp, and stays only if that side is empty |
| `BacktestRuns.BookBeforeIsExact` | src/Backtest.cpp:43-61 | the book recorded before a time is the reference book of exactly the events stamped before it |
| `BacktestRuns.OnlyTheSymbol` | src/Backtest.cpp:53 | the events taken are those of the symbol, in the order of the stream |
| `BacktestRuns.StampedBeforeIsPrefix` | src/Backtest.cpp:43-61 | of events whose stamps never go back, those stamped before a time are the ones before the first that reaches it |
| `BacktestRuns.RuleFollowed` | src/Backtest.cpp:62-90 | over all rows: what was last acted on and what was committed before each follow the rule, and the orders sent are one for each change of the commitment, a buy if it rises and a sell if it falls, of just the difference |
| `BacktestRuns.FairIsExact` | src/Backtest.cpp:43-90 | outcomes that are fair against the recorded books are fair against the reference book of exactly the events each order had to meet |
| `BacktestRuns.RunBacktest` | src/Backtest.cpp:43-119 | over a whole run each row shows the highest bid and lowest ask of the reference book, the commitments follow the rule, each change sends one order, each order is filled at the best opposite price of the book of exactly the events stamped before its arrival or unfilled; the fills are theirs in order, followed by at most one that flattens, and the result adds them up |

## Left out

- `OrderBook` class layout: the two hash indexes, the two ladders and the level pool are component classes (`ProbeTable`, `Ladder`, `LevelDirectory`) instead of members of one class; the two tables share one probing loop, which the source writes once per key type.
- Hash functions: `mix` is an arbitrary function, so nothing depends on its quality; that prices exist whose homes are all slots is a hypothesis of the runs in `Exhaustion`.
- 64-bit wrap of quantities, priorities, sequence numbers and share totals: numbers are unbounded; the 32-bit `npos` and the bound on `max_orders` are kept, and the total and count of a level go round below zero when a stranded order is unlinked.
- OrderBooks.OrderBook.constructor: the exception for a capacity that is zero or above 32 bits is a precondition.
- OrderBooks.OrderBook.Levels: the library sort is modelled by an insertion into order with the same result, and the result's order is proved.
- OrderBooks.OrderBook.UnlinkStranded: of what later calls do to a book after a refused modification only the unlinking of the stranded order is modelled.
- `state_checksum`, `order_count`, `level_count` and `capacity` of the book, the checksum of the backtest and its determinism test.
- SpscQueues.InOrderAndBounded: the queue is a state machine over the steps of both threads, without a class over the storage array; `empty` and `size_approx` are not modelled.
- Fairness: that the producer's retry loop and the consumer's loop come to an end depends on the scheduler and is not stated.
- Exceptions of the replay's connector: the feed is what the connector yields before it ends or throws.
- ItchStreams.StreamConnector.Next: one class stands for both stream connectors, with the framing as a parameter; the failure to open a file is not modelled.
- `Encode` and `MoldPacket` are functions, although the encoders of the tests push bytes onto a vector.
- `LengthPrefixedDatagramFileSource`: datagrams are a sequence; that the source fails at its end is a parameter.
- MoldReceivers.MoldReceiver.Next: a retransmit source is a function of the number, which is no restriction since every number is asked for at most once.
- QueueModels.EstimateIsExact: its hypotheses are those of an exchange feed: every event is applied, executions hit the head of their level, ids of the cohort are not used again, nothing is modified in place.
- Floating point: the queue model works over reals, so rounding of `double` is not modelled; the strategy's `target` is an arbitrary function of the row and the current signal.
- Backtests.Backtester.OnEvent: a `Modify` that the level index refuses is excluded by a precondition, because it breaks the book; ITCH feeds contain no `Modify`.
- Backtests.Backtester.Finish: the checksum of the result is not modelled.
- BacktestRuns.RunBacktest: assumes the prices named by the symbol's events fit the level index, so that the book is the reference's; the invariants of `Backtester` hold without that.
- QueueRuns.Watch: assumes the prices the feed names fit the level index, so that the book is the reference's; the timeouts, the stopping rule and the statistics of the tool in src/ItchQueue.cpp are not modelled.
- QueueRuns.PostAndWatch: assumes the same of the prices of its feed.
- `MultiSymbolBook`, CSV parsing, feature files, sockets, TLS, io_uring, affinity, clocks, benchmarks and the command-line tools.
