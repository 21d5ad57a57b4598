/** Whole runs of the MoldUDP64 receiver with any retransmit source, or none: what it
    hands out and what it counts as missed, number by number. */
module MoldRuns {
  import opened MarketTypes
  import opened ItchDecoders
  import opened MoldUdp64
  import opened MoldReceivers

  /** The message of a number: in the first packet that reaches beyond the number, if
      that packet does not start behind it, and else what the retransmit source has. */
  function MessageOf(retransmit: Retransmit, packets: seq<Packet>, n: nat): Option<seq<byte>> {
    if packets == [] then None
    else if packets[0].sequence + packets[0].count <= n then MessageOf(retransmit, packets[1..], n)
    else if packets[0].sequence <= n then Block(packets[0], n - packets[0].sequence)
    else if retransmit.None? then None
    else retransmit.value(n)
  }

  /** The event for every number whose message is at hand and decodes to one, once and
      in order, as it was decoded but for the number; and no other event. */
  ghost predicate HandedOut(retransmit: Retransmit, packets: seq<Packet>, first: nat, end: nat,
                            events: seq<MarketDataEvent>) {
    && (forall i :: 0 <= i < |events| ==>
          && first <= events[i].sequence < end
          && var message := MessageOf(retransmit, packets, events[i].sequence);
             && message.Some? && Decode(message.value).Event?
             && events[i] == Decode(message.value).event.(sequence := events[i].sequence))
    && (forall i, j :: 0 <= i < j < |events| ==> events[i].sequence < events[j].sequence)
    && (forall n :: first <= n < end && Yields(retransmit, packets, n) ==> HasNumber(events, n))
  }

  predicate Yields(retransmit: Retransmit, packets: seq<Packet>, n: nat) {
    var message := MessageOf(retransmit, packets, n);
    message.Some? && Decode(message.value).Event?
  }

  /** The numbers whose message is nowhere. */
  ghost function Lost(retransmit: Retransmit, packets: seq<Packet>, first: nat, end: nat): set<nat> {
    set n | first <= n < end && MessageOf(retransmit, packets, n).None?
  }

  // ---------- the account, number by number ----------

  /** The packet that decides about a number: the first that reaches beyond it. */
  ghost predicate Decides(packets: seq<Packet>, i: nat, n: nat) {
    && i < |packets| && n < packets[i].sequence + packets[i].count
    && forall j :: 0 <= j < i ==> packets[j].sequence + packets[j].count <= n
  }

  lemma {:induction false} Decider(retransmit: Retransmit, packets: seq<Packet>, n: nat) returns (i: nat)
    requires n < LargestEnd(packets)
    ensures Decides(packets, i, n)
    ensures MessageOf(retransmit, packets, n) ==
      if packets[i].sequence <= n then Block(packets[i], n - packets[i].sequence)
      else if retransmit.None? then None
      else retransmit.value(n)
  {
    hide Block;
    LargestEndIsLargest(packets);
    if packets[0].sequence + packets[0].count <= n {
      LargestEndOfRest(packets, n);
      i := Decider(retransmit, packets[1..], n);
      i := i + 1;
    } else {
      i := 0;
    }
  }

  lemma LargestEndOfRest(packets: seq<Packet>, n: nat)
    requires packets != [] && packets[0].sequence + packets[0].count <= n < LargestEnd(packets)
    ensures n < LargestEnd(packets[1..])
  {
    LargestEndIsLargest(packets);
    LargestEndIsLargest(packets[1..]);
    var k :| 0 <= k < |packets| && packets[k].sequence + packets[k].count == LargestEnd(packets);
    assert packets[k] == packets[1..][k - 1];
  }

  function FateFor(message: Option<seq<byte>>, n: nat): Fate {
    if message.None? then Missed else FateOf(message.value, n)
  }

  /** What a packet adds for one of the numbers it decides about. */
  lemma AddedAt(retransmit: Retransmit, p: Packet, frontier: nat, n: nat)
    requires Intact(p) && frontier <= n < p.sequence + p.count
    ensures n - frontier < |Added(retransmit, p, frontier)|
    ensures Added(retransmit, p, frontier)[n - frontier]
         == if p.sequence <= n then LiveFate(p, n - p.sequence) else Recovered(retransmit, n)
  {
    hide Intact, LiveFate, Recovered, Whole;
    IntactWhole(p);
  }

  lemma {:induction false} Decided(retransmit: Retransmit, packets: seq<Packet>, i: nat, n: nat)
    requires Decides(packets, i, n) && packets[0].sequence <= n && AllIntact(packets)
    ensures n - packets[0].sequence < |Account(retransmit, packets)|
    ensures Account(retransmit, packets)[n - packets[0].sequence]
         == if packets[i].sequence <= n then LiveFate(packets[i], n - packets[i].sequence)
            else Recovered(retransmit, n)
    decreases |packets|
  {
    hide Intact, LiveFate, Recovered, LargestEnd, Added;
    var last := |packets| - 1;
    var init := packets[..last];
    if i < last {
      Decided(retransmit, init, i, n);
    } else {
      if last > 0 {
        LargestEndIsLargest(init);
        AccountReaches(retransmit, init);
      }
      AddedAt(retransmit, packets[last], packets[0].sequence + |Account(retransmit, init)|, n);
    }
  }

  lemma AccountReached(retransmit: Retransmit, packets: seq<Packet>)
    requires AllIntact(packets) && packets != []
    ensures LargestEnd(packets) == packets[0].sequence + |Account(retransmit, packets)|
  {
    AccountReaches(retransmit, packets);
  }

  /** The account holds for each number what its message decodes to. */
  lemma AccountByNumbers(retransmit: Retransmit, packets: seq<Packet>, n: nat)
    requires AllIntact(packets) && packets != [] && packets[0].sequence <= n < LargestEnd(packets)
    ensures LargestEnd(packets) == packets[0].sequence + |Account(retransmit, packets)|
    ensures Account(retransmit, packets)[n - packets[0].sequence] == FateFor(MessageOf(retransmit, packets, n), n)
  {
    hide AllIntact, Account, MessageOf, Block, FateOf;
    AccountReached(retransmit, packets);
    var i := Decider(retransmit, packets, n);
    Decided(retransmit, packets, i, n);
  }

  /** So the deliveries and the misses of the account are those of the messages. */
  lemma {:induction false} DeliveredByNumbers(retransmit: Retransmit, packets: seq<Packet>, k: nat)
    requires AllIntact(packets) && packets != [] && k <= |Account(retransmit, packets)|
    ensures
      var first, fates := packets[0].sequence, Account(retransmit, packets)[..k];
      && HandedOut(retransmit, packets, first, first + k, Deliveries(fates))
      && Misses(fates) == |Lost(retransmit, packets, first, first + k)|
  {
    hide AllIntact, Account, MessageOf, Decode, FateOf, HandedOut, Lost, LargestEnd;
    var first, all := packets[0].sequence, Account(retransmit, packets);
    if k > 0 {
      var n := first + k - 1;
      DeliveredByNumbers(retransmit, packets, k - 1);
      AccountReached(retransmit, packets);
      AccountByNumbers(retransmit, packets, n);
      var message := MessageOf(retransmit, packets, n);
      assert all[..k] == all[..k - 1] + [FateFor(message, n)];
      AppendFate(all[..k - 1], FateFor(message, n));
      if message.Some? {
        FateByDecode(message.value, n);
      }
      OneMoreHandedOut(retransmit, packets, first, n, Deliveries(all[..k - 1]));
      OneMoreLost(retransmit, packets, first, n);
    } else {
      assert all[..0] == [];
      NothingHandedOut(retransmit, packets, first);
    }
  }

  lemma NothingHandedOut(retransmit: Retransmit, packets: seq<Packet>, first: nat)
    ensures HandedOut(retransmit, packets, first, first, Deliveries([]))
    ensures Misses([]) == |Lost(retransmit, packets, first, first)|
  {
  }

  lemma OneMoreHandedOut(retransmit: Retransmit, packets: seq<Packet>, first: nat, n: nat,
                         events: seq<MarketDataEvent>)
    requires first <= n && HandedOut(retransmit, packets, first, n, events)
    ensures
      var message := MessageOf(retransmit, packets, n);
      HandedOut(retransmit, packets, first, n + 1,
        events + if Yields(retransmit, packets, n) then [Decode(message.value).event.(sequence := n)] else [])
  {
    hide MessageOf, Decode;
    var message := MessageOf(retransmit, packets, n);
    var more := events
      + if Yields(retransmit, packets, n) then [Decode(message.value).event.(sequence := n)] else [];
    forall m | first <= m < n + 1 && Yields(retransmit, packets, m)
      ensures HasNumber(more, m)
    {
      if m < n {
        assert HasNumber(events, m);
        var i :| 0 <= i < |events| && events[i].sequence == m;
        assert more[i].sequence == m;
      } else {
        assert more[|events|].sequence == n;
      }
    }
  }

  lemma OneMoreLost(retransmit: Retransmit, packets: seq<Packet>, first: nat, n: nat)
    requires first <= n
    ensures |Lost(retransmit, packets, first, n + 1)|
         == |Lost(retransmit, packets, first, n)| + if MessageOf(retransmit, packets, n).None? then 1 else 0
  {
    hide MessageOf;
    assert Lost(retransmit, packets, first, n + 1)
        == Lost(retransmit, packets, first, n) + if MessageOf(retransmit, packets, n).None? then {n} else {};
  }

  // ---------- the run ----------

  /** Datagrams that can all be read, none of them cut short, and no malformed message
      among those the receiver gets to see; the retransmit source may have some
      messages, all or none. From the first packet's number to the largest end the
      receiver hands out the event of every message at hand, once and in order, and
      counts every number whose message is nowhere as missed. */
  method ReceivesWhatThereIs(datagrams: seq<seq<byte>>, retransmit: Retransmit)
    returns (receiver: MoldReceiver, events: seq<MarketDataEvent>)
    requires AllParse(datagrams) && DataPackets(datagrams) != [] && AllIntact(DataPackets(datagrams))
    requires forall n :: !BadMessage(MessageOf(retransmit, DataPackets(datagrams), n))
    ensures
      var packets := DataPackets(datagrams);
      var first, end := packets[0].sequence, LargestEnd(packets);
      && !receiver.failed && receiver.expected == end
      && HandedOut(retransmit, packets, first, end, events)
      && receiver.messagesMissed == |Lost(retransmit, packets, first, end)|
      && receiver.messagesDecoded == |events| && receiver.gapsDetected == |Jumps(packets)|
      && (receiver.endOfSession <==> EndIn(datagrams))
  {
    hide Account, DataPackets, MessageOf, HandedOut, Lost, Deliveries, Misses, AllParse, Gaps, Jumps, LargestEnd,
         AllIntact, MoldReceiver.Cause;
    receiver := new MoldReceiver(datagrams, false, retransmit);
    events := Drain(receiver);
    ghost var packets := DataPackets(datagrams);
    NothingToFailFor(receiver, datagrams);
    AccountReached(retransmit, packets);
    GapsOfIntact(retransmit, packets);
    DeliveredByNumbers(retransmit, packets, |Account(retransmit, packets)|);
    assert Account(retransmit, packets)[..|Account(retransmit, packets)|] == Account(retransmit, packets);
    assert receiver.fates + [] == receiver.fates;
  }

  predicate BadMessage(message: Option<seq<byte>>) {
    message.Some? && Decode(message.value).Malformed?
  }

  lemma GapsOfIntact(retransmit: Retransmit, packets: seq<Packet>)
    requires AllIntact(packets) && packets != []
    ensures Gaps(retransmit, packets) == |Jumps(packets)|
  {
    GapsByNumbers(retransmit, packets);
  }

  lemma NothingToFailFor(receiver: MoldReceiver, datagrams: seq<seq<byte>>)
    requires receiver.Valid() && AllParse(datagrams) && receiver.loaded <= DataPackets(datagrams)
    requires AllIntact(DataPackets(datagrams))
    requires forall n :: !BadMessage(MessageOf(receiver.retransmit, DataPackets(datagrams), n))
    ensures !receiver.Cause(datagrams)
  {
    hide Decode, Account, DataPackets, Intact, Deliveries, Misses, AllParse;
    DataPacketsCarry(datagrams);
    if receiver.loaded != [] {
      LastIntact(receiver.loaded);
      NoneBadLoaded(receiver.retransmit, DataPackets(datagrams), receiver.loaded, receiver.fates, receiver.Rest());
    }
  }

  lemma NoneBadLoaded(retransmit: Retransmit, packets: seq<Packet>, loaded: seq<Packet>, fates: seq<Fate>,
                      rest: seq<Fate>)
    requires AllIntact(packets) && loaded <= packets && loaded != []
    requires forall n :: !BadMessage(MessageOf(retransmit, packets, n))
    requires Account(retransmit, loaded) == fates + rest
    ensures !HasBad(fates)
  {
    hide Account, MessageOf, Decode, Intact, LargestEnd, FateOf;
    var first := loaded[0].sequence;
    AccountReached(retransmit, loaded);
    forall k | 0 <= k < |fates|
      ensures !fates[k].Bad?
    {
      var n := first + k;
      AccountByNumbers(retransmit, loaded, n);
      SameMessage(retransmit, loaded, packets, n);
      assert !BadMessage(MessageOf(retransmit, packets, n));
      var message := MessageOf(retransmit, loaded, n);
      if message.Some? {
        FateByDecode(message.value, n);
      }
    }
  }

  /** Later packets do not change the message of a number that was reached. */
  lemma {:induction false} SameMessage(retransmit: Retransmit, some: seq<Packet>, all: seq<Packet>, n: nat)
    requires some <= all && n < LargestEnd(some)
    ensures MessageOf(retransmit, some, n) == MessageOf(retransmit, all, n)
  {
    hide Block;
    LargestEndIsLargest(some);
    if some[0].sequence + some[0].count <= n {
      LargestEndOfRest(some, n);
      SameMessage(retransmit, some[1..], all[1..], n);
    }
  }
}
