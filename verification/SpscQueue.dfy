/** The bounded single-producer/single-consumer queue as a protocol of two
    threads. Every load, store and slot access is a step of its own, and steps of
    the two threads interleave freely. Nothing is assumed about how fresh an index
    load is, only coherence: it returns a value that was stored no earlier than the
    value the same thread saw last. A slot read returns any write of that slot
    that is not hidden behind one the reader has synchronised with. */
module SpscQueues {
  import opened MarketTypes

  /** What a thread has got to in its current call. */
  datatype Producer<T> = Outside | Loaded(item: T) | Free(item: T) | Written(item: T)
  datatype Consumer = Away | Asking | Ready | Taken

  /** An access of a slot, and how many stores of the other thread's index the
      accessing thread had synchronised with. */
  datatype Access<T> = Access(slot: nat, item: T, observed: nat)

  /** `heads` and `tails` are all values the two indices ever held, in order. */
  datatype Queue<T> = Queue(
    heads: seq<nat>,
    tails: seq<nat>,
    puts: seq<Access<T>>,
    takes: seq<Access<T>>,
    producer: Producer<T>,
    consumer: Consumer,
    sawTail: nat,
    sawHead: nat)

  datatype Step<T> =
    | StartPush(item: T)
    | LoadTail(store: nat)
    | WriteSlot
    | StoreHead
    | StartPop
    | LoadHead(store: nat)
    | ReadSlot(item: T)
    | StoreTail

  function Increment(index: nat, size: nat): nat
    requires size > 0
  {
    (index + 1) % size
  }

  function Fresh<T>(): Queue<T> {
    Queue([0], [0], [], [], Outside, Away, 0, 0)
  }

  function Last<T>(s: seq<T>): T
    requires s != []
  {
    s[|s| - 1]
  }

  predicate WellFormed<T>(q: Queue<T>) {
    q.heads != [] && q.tails != [] && q.sawTail < |q.tails| && q.sawHead < |q.heads|
  }

  /** A read of `slot` by a thread that has synchronised with the first `observed`
      pushes may return write `n`, unless one of those pushes overwrote it. */
  ghost predicate Visible<T>(puts: seq<Access<T>>, n: nat, slot: nat, observed: nat) {
    && n < |puts| && puts[n].slot == slot
    && forall later :: n < later < observed && later < |puts| ==> puts[later].slot != slot
  }

  /** No write of the slot is known to the reader: it may still see what the slot
      held at the start. */
  ghost predicate Untouched<T>(puts: seq<Access<T>>, slot: nat, observed: nat) {
    forall n :: 0 <= n < observed && n < |puts| ==> puts[n].slot != slot
  }

  ghost predicate Enabled<T(!new)>(q: Queue<T>, step: Step<T>) {
    && WellFormed(q)
    && match step
       case StartPush(_) => q.producer.Outside?
       case LoadTail(store) => q.producer.Loaded? && q.sawTail <= store < |q.tails|
       case WriteSlot => q.producer.Free?
       case StoreHead => q.producer.Written?
       case StartPop => q.consumer.Away?
       case LoadHead(store) => q.consumer.Asking? && q.sawHead <= store < |q.heads|
       case ReadSlot(item) =>
         && q.consumer.Ready?
         && (Untouched(q.puts, Last(q.tails), q.sawHead)
             || exists n: nat :: Visible(q.puts, n, Last(q.tails), q.sawHead) && q.puts[n].item == item)
       case StoreTail => q.consumer.Taken?
  }

  ghost function Do<T(!new)>(q: Queue<T>, step: Step<T>, size: nat): Queue<T>
    requires size > 0 && Enabled(q, step)
  {
    match step
    case StartPush(item) => q.(producer := Loaded(item))
    case LoadTail(store) =>
      var full := Increment(Last(q.heads), size) == q.tails[store];
      q.(sawTail := store, producer := if full then Outside else Free(q.producer.item))
    case WriteSlot =>
      q.(puts := q.puts + [Access(Last(q.heads), q.producer.item, q.sawTail)], producer := Written(q.producer.item))
    case StoreHead => q.(heads := q.heads + [Increment(Last(q.heads), size)], producer := Outside)
    case StartPop => q.(consumer := Asking)
    case LoadHead(store) =>
      q.(sawHead := store, consumer := if Last(q.tails) == q.heads[store] then Away else Ready)
    case ReadSlot(item) =>
      q.(takes := q.takes + [Access(Last(q.tails), item, q.sawHead)], consumer := Taken)
    case StoreTail => q.(tails := q.tails + [Increment(Last(q.tails), size)], consumer := Away)
  }

  // ---------- the invariant ----------

  /** How many pushes and pops have been published. */
  function Pushes<T>(q: Queue<T>): int {
    |q.heads| - 1
  }

  function Pops<T>(q: Queue<T>): int {
    |q.tails| - 1
  }

  predicate Wraps(stores: seq<nat>, size: nat)
    requires size > 0
  {
    forall i :: 0 <= i < |stores| ==> stores[i] == i % size
  }

  ghost predicate SafePuts<T>(puts: seq<Access<T>>, size: nat)
    requires size > 0
  {
    forall n :: 0 <= n < |puts| ==> puts[n].slot == n % size && puts[n].observed <= n < puts[n].observed + size
  }

  ghost predicate SafeTakes<T>(takes: seq<Access<T>>, puts: seq<Access<T>>, size: nat)
    requires size > 0
  {
    && |takes| <= |puts|
    && forall m :: 0 <= m < |takes| ==>
         takes[m].slot == m % size && m < takes[m].observed && takes[m].item == puts[m].item
  }

  ghost predicate Inv<T>(q: Queue<T>, size: nat) {
    && size >= 2 && WellFormed(q)
    && Wraps(q.heads, size) && Wraps(q.tails, size)
    && q.sawTail <= Pops(q) <= q.sawHead <= Pushes(q) < q.sawTail + size
    && (q.producer.Free? || q.producer.Written? ==> Pushes(q) + 1 < q.sawTail + size)
    && (q.consumer.Ready? || q.consumer.Taken? ==> Pops(q) < q.sawHead)
    && |q.puts| == Pushes(q) + (if q.producer.Written? then 1 else 0)
    && |q.takes| == Pops(q) + (if q.consumer.Taken? then 1 else 0)
    && SafePuts(q.puts, size) && SafeTakes(q.takes, q.puts, size)
    && (q.producer.Written? ==> Last(q.puts).item == q.producer.item)
  }

  lemma {:induction false} Multiple(size: nat, k: nat)
    requires k > 0
    ensures size * k >= size
  {
    if k > 1 {
      Multiple(size, k - 1);
    }
  }

  /** Numbers at most the size apart wrap to the same slot only when they are equal
      or exactly the size apart. */
  lemma SameSlot(a: nat, b: nat, size: nat)
    requires size > 0 && a <= b <= a + size
    ensures a % size == b % size <==> b == a || b == a + size
  {
    var turns := b / size - a / size;
    assert b - a == size * turns + (b % size - a % size);
    if turns > 2 {
      Multiple(size, turns - 2);
    } else if turns < 0 {
      Multiple(size, -turns);
    }
  }

  lemma FreshInv<T>(size: nat)
    requires size >= 2
    ensures Inv(Fresh<T>(), size)
  {
  }

  /** Appending the wrapped successor keeps an index history wrapped. */
  lemma WrapsStep(stores: seq<nat>, size: nat)
    requires size > 0 && stores != [] && Wraps(stores, size)
    ensures Wraps(stores + [Increment(Last(stores), size)], size)
  {
    var n := |stores| - 1;
    SuccessorWraps(n, size);
  }

  lemma SuccessorWraps(n: nat, size: nat)
    requires size > 0
    ensures Increment(n % size, size) == (n + 1) % size
  {
    var turns := (n + 1) / size - n / size;
    assert 1 == size * turns + ((n + 1) % size - n % size);
    if turns > 1 {
      Multiple(size, turns - 1);
    } else if turns < 0 {
      Multiple(size, -turns);
    }
    assert n % size < size;
    if n % size + 1 < size {
      assert (n % size + 1) % size == n % size + 1;
    }
  }

  /** The producer goes on exactly when the tail it saw leaves it a slot. */
  lemma TailDecides<T(!new)>(q: Queue<T>, size: nat, store: nat)
    requires Inv(q, size) && q.sawTail <= store < |q.tails|
    ensures Increment(Last(q.heads), size) == q.tails[store] <==> Pushes(q) - store == size - 1
  {
    SuccessorWraps(Pushes(q), size);
    SameSlot(store, Pushes(q) + 1, size);
  }

  /** The consumer goes on exactly when the head it saw is ahead of it. */
  lemma HeadDecides<T(!new)>(q: Queue<T>, size: nat, store: nat)
    requires Inv(q, size) && q.sawHead <= store < |q.heads|
    ensures Last(q.tails) == q.heads[store] <==> store == Pops(q)
  {
    SameSlot(Pops(q), store, size);
  }

  /** The only write that the consumer can see in its slot is that of the item
      that is next in order. */
  lemma OnlyNextVisible<T(!new)>(q: Queue<T>, size: nat, n: nat)
    requires Inv(q, size) && q.consumer.Ready?
    ensures Visible(q.puts, n, Last(q.tails), q.sawHead) <==> n == Pops(q)
    ensures !Untouched(q.puts, Last(q.tails), q.sawHead)
  {
    var next := Pops(q);
    assert q.puts[next].slot == Last(q.tails) == next % size;
    forall k | next < k < |q.puts|
      ensures q.puts[k].slot != Last(q.tails)
    {
      SameSlot(next, k, size);
    }
  }

  lemma ProducerKeepsInv<T(!new)>(q: Queue<T>, step: Step<T>, size: nat)
    requires Inv(q, size) && Enabled(q, step)
    requires step.StartPush? || step.LoadTail? || step.WriteSlot? || step.StoreHead?
    ensures Inv(Do(q, step, size), size)
  {
    if step.LoadTail? {
      TailDecides(q, size, step.store);
    }
    WrapsStep(q.heads, size);
  }

  lemma ConsumerKeepsInv<T(!new)>(q: Queue<T>, step: Step<T>, size: nat)
    requires Inv(q, size) && Enabled(q, step)
    requires step.StartPop? || step.LoadHead? || step.ReadSlot? || step.StoreTail?
    ensures Inv(Do(q, step, size), size)
  {
    if step.LoadHead? {
      HeadDecides(q, size, step.store);
    } else if step.ReadSlot? {
      OnlyNextVisible(q, size, Pops(q));
      var n: nat :| Visible(q.puts, n, Last(q.tails), q.sawHead) && q.puts[n].item == step.item;
      OnlyNextVisible(q, size, n);
    }
    WrapsStep(q.tails, size);
  }

  lemma StepKeepsInv<T(!new)>(q: Queue<T>, step: Step<T>, size: nat)
    requires Inv(q, size) && Enabled(q, step)
    ensures Inv(Do(q, step, size), size)
  {
    hide Inv, Enabled, Do;
    if step.StartPush? || step.LoadTail? || step.WriteSlot? || step.StoreHead? {
      ProducerKeepsInv(q, step, size);
    } else {
      ConsumerKeepsInv(q, step, size);
    }
  }

  // ---------- runs ----------

  /** The queue after a run, if the steps are possible in that order. */
  ghost function After<T(!new)>(steps: seq<Step<T>>, size: nat): Option<Queue<T>>
    requires size > 0
  {
    if steps == [] then Some(Fresh())
    else
      var before := After(steps[..|steps| - 1], size);
      if before.Some? && Enabled(before.value, Last(steps)) then Some(Do(before.value, Last(steps), size)) else None
  }

  function Items<T>(accesses: seq<Access<T>>): seq<T> {
    seq(|accesses|, i requires 0 <= i < |accesses| => accesses[i].item)
  }

  lemma {:induction false} RunKeepsInv<T(!new)>(steps: seq<Step<T>>, size: nat)
    requires size >= 2
    ensures After(steps, size).Some? ==> Inv(After(steps, size).value, size)
  {
    if steps == [] {
      FreshInv<T>(size);
    } else {
      RunKeepsInv(steps[..|steps| - 1], size);
      if After(steps, size).Some? {
        StepKeepsInv(After(steps[..|steps| - 1], size).value, Last(steps), size);
      }
    }
  }

  /** In every interleaving, what has been popped is a prefix of what has been
      pushed, at most `size - 1` items are held, and the slot the producer is about
      to write is not the one the consumer is about to read. */
  lemma InOrderAndBounded<T(!new)>(steps: seq<Step<T>>, size: nat, q: Queue<T>)
    requires size >= 2 && After(steps, size) == Some(q)
    ensures
      && Items(q.takes) <= Items(q.puts)
      && Pushes(q) - Pops(q) <= size - 1
      && (q.producer.Free? && q.consumer.Ready? ==> Last(q.heads) != Last(q.tails))
  {
    RunKeepsInv(steps, size);
    SameSlot(Pops(q), Pushes(q), size);
  }

  /** Any write and any read of one slot are ordered by what the two threads had
      synchronised with: either the reader had seen the write's push published, or
      the writer had seen the read's pop published. So there is no data race. */
  lemma AccessesOrdered<T(!new)>(steps: seq<Step<T>>, size: nat, q: Queue<T>, n: nat, m: nat)
    requires size >= 2 && After(steps, size) == Some(q)
    requires n < |q.puts| && m < |q.takes| && q.puts[n].slot == q.takes[m].slot
    ensures n < q.takes[m].observed || m < q.puts[n].observed
  {
    RunKeepsInv(steps, size);
    if m < n < m + size {
      SameSlot(m, n, size);
    }
  }

  /** A push is refused exactly when the producer has seen too few pops to know of
      a free slot, and a pop exactly when the consumer has seen no push it has not
      popped. */
  lemma RefusalsAreHonest<T(!new)>(steps: seq<Step<T>>, size: nat, q: Queue<T>, store: nat)
    requires size >= 2 && After(steps, size) == Some(q)
    ensures Enabled(q, LoadTail(store)) ==>
      (Do(q, LoadTail(store), size).producer.Outside? <==> Pushes(q) - store == size - 1)
    ensures Enabled(q, LoadHead(store)) ==> (Do(q, LoadHead(store), size).consumer.Away? <==> store == Pops(q))
  {
    RunKeepsInv(steps, size);
    if Enabled(q, LoadTail(store)) {
      TailDecides(q, size, store);
    }
    if Enabled(q, LoadHead(store)) {
      HeadDecides(q, size, store);
    }
  }
}
