/** The two-thread replay: the producer pushes the feed, retrying what is refused,
    and then sets a flag; the consumer pops and applies, and looks at the flag only
    after a pop that found nothing. */
module ReplayThreads {
  import opened MarketTypes
  import opened SpscQueues

  datatype Loop = Polling | Missed | Stopped

  /** `missedAt` is how many pushes the consumer's last empty pop had seen: the store
      of the head that its `LoadHead` read. */
  datatype Replay<T> = Replay(queue: Queue<T>, done: bool, loop: Loop, missedAt: nat)

  datatype Move<T> = Queued(step: Step<T>) | SetDone | LoadDone(seen: bool)

  /** The producer's loop: the events in order, then the flag. */
  predicate Feeds<T(==)>(feed: seq<T>, queue: Queue<T>, done: bool, move: Move<T>) {
    match move
    case Queued(StartPush(item)) => !done && 0 <= Pushes(queue) < |feed| && item == feed[Pushes(queue)]
    case SetDone => !done && queue.producer.Outside? && Pushes(queue) == |feed|
    case _ => true
  }

  ghost predicate Allowed<T(!new)>(feed: seq<T>, r: Replay<T>, move: Move<T>) {
    && Feeds(feed, r.queue, r.done, move)
    && match move
       case Queued(step) => Enabled(r.queue, step) && (step.StartPop? ==> r.loop == Polling)
       case SetDone => true
       case LoadDone(seen) => WellFormed(r.queue) && r.loop == Missed && (seen ==> r.done)
  }

  /** The flag was set behind every push. */
  function Synchronised<T>(queue: Queue<T>): Queue<T>
    requires queue.heads != []
  {
    queue.(sawHead := |queue.heads| - 1)
  }

  /** A pop that finds nothing sends the consumer to the flag. Seeing the flag set
      synchronises the consumer with every push. */
  ghost function Perform<T(!new)>(feed: seq<T>, r: Replay<T>, move: Move<T>, size: nat): Replay<T>
    requires size > 0 && Allowed(feed, r, move)
  {
    match move
    case Queued(step) =>
      var q := Do(r.queue, step, size);
      if step.LoadHead? && q.consumer.Away? then Replay(q, r.done, Missed, step.store)
      else r.(queue := q)
    case SetDone => r.(done := true)
    case LoadDone(seen) =>
      if seen then r.(loop := Stopped, queue := Synchronised(r.queue))
      else r.(loop := Polling)
  }

  ghost function After<T(!new)>(feed: seq<T>, moves: seq<Move<T>>, size: nat): Option<Replay<T>>
    requires size > 0
  {
    if moves == [] then Some(Replay(Fresh(), false, Polling, 0))
    else
      var before := After(feed, moves[..|moves| - 1], size);
      if before.Some? && Allowed(feed, before.value, Last(moves))
      then Some(Perform(feed, before.value, Last(moves), size))
      else None
  }

  /** What the producer has put into the queue is the feed, as far as it has got. */
  ghost predicate Fed<T>(feed: seq<T>, queue: Queue<T>, done: bool, size: nat) {
    && Inv(queue, size)
    && Pushes(queue) <= |feed|
    && (queue.producer.Outside? || (Pushes(queue) < |feed| && queue.producer.item == feed[Pushes(queue)]))
    && (forall n :: 0 <= n < |queue.puts| ==> n < |feed| && queue.puts[n].item == feed[n])
    && (done ==> Pushes(queue) == |feed| && queue.producer.Outside?)
  }

  lemma StepKeepsFed<T(!new)>(feed: seq<T>, queue: Queue<T>, done: bool, step: Step<T>, size: nat)
    requires Fed(feed, queue, done, size) && Enabled(queue, step) && Feeds(feed, queue, done, Queued(step))
    ensures Fed(feed, Do(queue, step, size), done, size)
  {
    StepKeepsInv(queue, step, size);
  }

  /** The consumer has taken a prefix of the feed. */
  lemma TakesPrefix<T>(feed: seq<T>, queue: Queue<T>, done: bool, size: nat)
    requires Fed(feed, queue, done, size)
    ensures Items(queue.takes) <= feed
  {
  }

  ghost predicate Consistent<T>(feed: seq<T>, r: Replay<T>, size: nat) {
    && Fed(feed, r.queue, r.done, size)
    && (r.loop != Polling ==> r.queue.consumer.Away? && r.missedAt == Pops(r.queue))
    && (r.loop == Stopped ==> r.done && r.queue.sawHead == Pushes(r.queue))
  }

  lemma MoveKeepsConsistent<T(!new)>(feed: seq<T>, r: Replay<T>, move: Move<T>, size: nat)
    requires Consistent(feed, r, size) && Allowed(feed, r, move)
    ensures Consistent(feed, Perform(feed, r, move, size), size)
  {
    if move.Queued? {
      StepKeepsFed(feed, r.queue, r.done, move.step, size);
      if move.step.LoadHead? {
        HeadDecides(r.queue, size, move.step.store);
      }
    }
  }

  lemma {:induction false} RunKeepsConsistent<T(!new)>(feed: seq<T>, moves: seq<Move<T>>, size: nat)
    requires size >= 2
    ensures After(feed, moves, size).Some? ==> Consistent(feed, After(feed, moves, size).value, size)
  {
    if moves == [] {
      FreshInv<T>(size);
    } else {
      RunKeepsConsistent(feed, moves[..|moves| - 1], size);
      if After(feed, moves, size).Some? {
        MoveKeepsConsistent(feed, After(feed, moves[..|moves| - 1], size).value, Last(moves), size);
      }
    }
  }

  /** What the consumer has applied is always a prefix of the feed, in order. When
      it stops it has applied the whole feed if and only if its last empty pop had
      seen every push: `missedAt` is the index that the last `LoadHead` returned. */
  lemma AppliesPrefix<T(!new)>(feed: seq<T>, moves: seq<Move<T>>, size: nat, r: Replay<T>)
    requires size >= 2 && After(feed, moves, size) == Some(r)
    ensures Items(r.queue.takes) <= feed
    ensures r.loop == Stopped ==> (Items(r.queue.takes) == feed <==> r.missedAt == |feed|)
  {
    RunKeepsConsistent(feed, moves, size);
  }

  /** One more move. */
  lemma Extended<T(!new)>(feed: seq<T>, moves: seq<Move<T>>, size: nat, r: Replay<T>, move: Move<T>)
    returns (longer: seq<Move<T>>, next: Replay<T>)
    requires size > 0 && After(feed, moves, size) == Some(r) && Allowed(feed, r, move)
    ensures longer == moves + [move] && next == Perform(feed, r, move, size)
    ensures After(feed, longer, size) == Some(next)
  {
    longer, next := moves + [move], Perform(feed, r, move, size);
    assert (moves + [move])[..|moves|] == moves;
  }

  /** The consumer finds the queue empty. */
  lemma MissesAtOnce<T(!new)>(event: T, size: nat) returns (moves: seq<Move<T>>, r: Replay<T>)
    requires size >= 2
    ensures After([event], moves, size) == Some(r) && r == Replay(Fresh(), false, Missed, 0)
  {
    moves, r := [], Replay(Fresh(), false, Polling, 0);
    moves, r := Extended([event], moves, size, r, Queued(StartPop));
    moves, r := Extended([event], moves, size, r, Queued(LoadHead(0)));
  }

  /** An interleaving in which the consumer stops without the only event: it finds
      the queue empty, then the event is pushed and the flag set, then it sees the
      flag. */
  lemma StopsTooEarly<T(!new)>(event: T, size: nat) returns (moves: seq<Move<T>>, r: Replay<T>)
    requires size >= 2
    ensures After([event], moves, size) == Some(r) && r.loop == Stopped && Items(r.queue.takes) == []
  {
    hide After;
    SuccessorWraps(0, size);
    moves, r := MissesAtOnce(event, size);
    moves, r := Extended([event], moves, size, r, Queued(StartPush(event)));
    moves, r := Extended([event], moves, size, r, Queued(LoadTail(0)));
    moves, r := Extended([event], moves, size, r, Queued(WriteSlot));
    moves, r := Extended([event], moves, size, r, Queued(StoreHead));
    moves, r := Extended([event], moves, size, r, SetDone);
    moves, r := Extended([event], moves, size, r, LoadDone(true));
  }

  // ---------- a loop that looks at the flag first ----------

  datatype Watch = Looking | Popping(flagged: bool) | Finished

  datatype Repaired<T> = Repaired(queue: Queue<T>, done: bool, loop: Watch)

  ghost predicate AllowedRepaired<T(!new)>(feed: seq<T>, r: Repaired<T>, move: Move<T>) {
    && Feeds(feed, r.queue, r.done, move)
    && match move
       case Queued(step) => Enabled(r.queue, step) && (step.StartPop? ==> r.loop.Popping?)
       case SetDone => true
       case LoadDone(seen) => WellFormed(r.queue) && r.loop == Looking && (seen ==> r.done)
  }

  /** The flag is loaded before every pop, and the consumer stops after a pop that
      finds nothing only if the flag was set. */
  ghost function PerformRepaired<T(!new)>(feed: seq<T>, r: Repaired<T>, move: Move<T>, size: nat): Repaired<T>
    requires size > 0 && AllowedRepaired(feed, r, move)
  {
    match move
    case Queued(step) =>
      var q := Do(r.queue, step, size);
      if step.StoreTail? then r.(queue := q, loop := Looking)
      else if step.LoadHead? && q.consumer.Away? then
        r.(queue := q, loop := if r.loop == Popping(true) then Finished else Looking)
      else r.(queue := q)
    case SetDone => r.(done := true)
    case LoadDone(seen) =>
      r.(loop := Popping(seen), queue := if seen then Synchronised(r.queue) else r.queue)
  }

  ghost function AfterRepaired<T(!new)>(feed: seq<T>, moves: seq<Move<T>>, size: nat): Option<Repaired<T>>
    requires size > 0
  {
    if moves == [] then Some(Repaired(Fresh(), false, Looking))
    else
      var before := AfterRepaired(feed, moves[..|moves| - 1], size);
      if before.Some? && AllowedRepaired(feed, before.value, Last(moves))
      then Some(PerformRepaired(feed, before.value, Last(moves), size))
      else None
  }

  ghost predicate ConsistentRepaired<T>(feed: seq<T>, r: Repaired<T>, size: nat) {
    && Fed(feed, r.queue, r.done, size)
    && (!r.loop.Popping? ==> r.queue.consumer.Away?)
    && (r.loop == Popping(true) || r.loop == Finished ==> r.done && r.queue.sawHead == Pushes(r.queue))
    && (r.loop == Finished ==> Pops(r.queue) == Pushes(r.queue))
  }

  lemma MoveKeepsRepaired<T(!new)>(feed: seq<T>, r: Repaired<T>, move: Move<T>, size: nat)
    requires ConsistentRepaired(feed, r, size) && AllowedRepaired(feed, r, move)
    ensures ConsistentRepaired(feed, PerformRepaired(feed, r, move, size), size)
  {
    if move.Queued? {
      StepKeepsFed(feed, r.queue, r.done, move.step, size);
      if move.step.LoadHead? {
        HeadDecides(r.queue, size, move.step.store);
      }
    }
  }

  lemma {:induction false} RunKeepsRepaired<T(!new)>(feed: seq<T>, moves: seq<Move<T>>, size: nat)
    requires size >= 2
    ensures AfterRepaired(feed, moves, size).Some? ==>
      ConsistentRepaired(feed, AfterRepaired(feed, moves, size).value, size)
  {
    if moves == [] {
      FreshInv<T>(size);
    } else {
      RunKeepsRepaired(feed, moves[..|moves| - 1], size);
      if AfterRepaired(feed, moves, size).Some? {
        MoveKeepsRepaired(feed, AfterRepaired(feed, moves[..|moves| - 1], size).value, Last(moves), size);
      }
    }
  }

  /** In every interleaving a consumer that looks at the flag first has applied the
      whole feed when it stops. */
  lemma RepairedAppliesAll<T(!new)>(feed: seq<T>, moves: seq<Move<T>>, size: nat, r: Repaired<T>)
    requires size >= 2 && AfterRepaired(feed, moves, size) == Some(r)
    ensures Items(r.queue.takes) <= feed
    ensures r.loop == Finished ==> Items(r.queue.takes) == feed
  {
    RunKeepsRepaired(feed, moves, size);
    TakesPrefix(feed, r.queue, r.done, size);
  }
}
