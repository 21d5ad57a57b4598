/** The MoldUDP64 receiver: it pulls packets, skips what it has seen, counts or
    recovers what it has missed, and hands out one event per call. Its ghost log
    says what became of every sequence number so far. */
module MoldReceivers {
  import opened MarketTypes
  import opened ItchDecoders
  import opened MoldUdp64

  ghost predicate AllIntact(packets: seq<Packet>) {
    forall i :: 0 <= i < |packets| ==> Intact(packets[i])
  }

  /** What a receiver keeps as it moves on: packets are taken up in order, and its
      log only grows. */
  ghost predicate MovedOn(loadedWas: seq<Packet>, sourceWas: seq<seq<byte>>, fatesWas: seq<Fate>,
                          loaded: seq<Packet>, source: seq<seq<byte>>, fates: seq<Fate>)
  {
    && loaded + DataPackets(source) == loadedWas + DataPackets(sourceWas)
    && loadedWas <= loaded && fatesWas <= fates
    && (AllParse(sourceWas) ==> AllParse(source))
  }

  lemma NotMoved(loaded: seq<Packet>, source: seq<seq<byte>>, fates: seq<Fate>)
    ensures MovedOn(loaded, source, fates, loaded, source, fates)
  {
  }

  lemma MovedOnAgain(loaded0: seq<Packet>, source0: seq<seq<byte>>, fates0: seq<Fate>,
                     loaded1: seq<Packet>, source1: seq<seq<byte>>, fates1: seq<Fate>,
                     loaded2: seq<Packet>, source2: seq<seq<byte>>, fates2: seq<Fate>)
    requires MovedOn(loaded0, source0, fates0, loaded1, source1, fates1)
    requires MovedOn(loaded1, source1, fates1, loaded2, source2, fates2)
    ensures MovedOn(loaded0, source0, fates0, loaded2, source2, fates2)
  {
    hide DataPackets, AllParse;
  }

  lemma PulledOne(source: seq<seq<byte>>, loaded: seq<Packet>, fates: seq<Fate>)
    requires source != []
    ensures
      var p := Parse(source[0]);
      var taken := p.Some? && p.value.count != 0 && p.value.count != END_OF_SESSION;
      MovedOn(loaded, source, fates, if taken then loaded + [p.value] else loaded, source[1..], fates)
    ensures AllParse(source) ==> Parse(source[0]).Some?
  {
    hide Parse;
  }

  lemma ParsedSoFar(loadedWas: seq<Packet>, sourceWas: seq<seq<byte>>, fatesWas: seq<Fate>,
                    loaded: seq<Packet>, source: seq<seq<byte>>, fates: seq<Fate>)
    requires MovedOn(loadedWas, sourceWas, fatesWas, loaded, source, fates)
    ensures AllParse(sourceWas) ==> AllParse(source)
  {
  }

  lemma LogGrew(loadedWas: seq<Packet>, sourceWas: seq<seq<byte>>, fatesWas: seq<Fate>,
                loaded: seq<Packet>, source: seq<seq<byte>>, fates: seq<Fate>, more: seq<Fate>)
    requires MovedOn(loadedWas, sourceWas, fatesWas, loaded, source, fates) && fates <= more
    ensures MovedOn(loadedWas, sourceWas, fatesWas, loaded, source, more)
  {
    hide DataPackets, AllParse;
  }

  ghost predicate AllParse(datagrams: seq<seq<byte>>) {
    forall i :: 0 <= i < |datagrams| ==> Parse(datagrams[i]).Some?
  }

  /** A datagram that ends the session: a header whose count, its bytes 18 and 19, is
      all ones. */
  predicate EndsSession(datagram: seq<byte>) {
    |datagram| >= 20 && datagram[18] == 255 && datagram[19] == 255
  }

  ghost predicate EndIn(datagrams: seq<seq<byte>>) {
    exists i :: 0 <= i < |datagrams| && EndsSession(datagrams[i])
  }

  lemma EndInStep(datagram: seq<byte>, later: seq<seq<byte>>)
    ensures EndIn([datagram] + later) <==> EndsSession(datagram) || EndIn(later)
    ensures EndsSession(datagram) <==> Parse(datagram).Some? && Parse(datagram).value.count == END_OF_SESSION
  {
    HeaderByBytes(datagram);
    var all := [datagram] + later;
    if i :| 0 <= i < |later| && EndsSession(later[i]) {
      assert EndsSession(all[i + 1]);
    }
    assert EndsSession(datagram) ==> EndsSession(all[0]);
    hide Field;
  }

  /** Nothing of a packet is left for a receiver that expects this number: its
      messages were all seen, or it is cut short among those seen before. */
  ghost predicate Exhausted(p: Packet, expected: nat) {
    p.sequence + p.count <= expected || p.sequence + Whole(p) < expected
  }

  /** A packet is cut short among the messages seen before, so all of it is dropped. */
  ghost predicate CutInside(p: Packet, expected: nat) {
    Whole(p) < p.count && p.sequence + Whole(p) < expected
  }

  lemma LastIntact(packets: seq<Packet>)
    requires packets != [] && AllIntact(packets)
    ensures Whole(packets[|packets| - 1]) == packets[|packets| - 1].count
  {
    IntactWhole(packets[|packets| - 1]);
  }

  lemma Regroup(log: seq<Fate>, fate: Fate, gap: seq<Fate>, live: seq<Fate>)
    ensures log + (([fate] + gap) + live) == (log + [fate]) + (gap + live)
  {
  }

  /** Message number `n`: a block of the latest packet, or what the retransmit source
      has under that number. */
  predicate Brings(retransmit: Retransmit, loaded: seq<Packet>, payload: seq<byte>, n: nat) {
    || (retransmit.Some? && retransmit.value(n) == Some(payload))
    || (loaded != []
        && loaded[|loaded| - 1].sequence <= n
        && Block(loaded[|loaded| - 1], n - loaded[|loaded| - 1].sequence) == Some(payload))
  }

  /** The event is what a message brought decodes to, under its number. */
  ghost predicate Brought(retransmit: Retransmit, loaded: seq<Packet>, event: MarketDataEvent) {
    exists payload: seq<byte> ::
      && Brings(retransmit, loaded, payload, event.sequence)
      && Decode(payload).Event? && event == Decode(payload).event.(sequence := event.sequence)
  }

  lemma GapBrings(retransmit: Retransmit, loaded: seq<Packet>, n: nat)
    requires Recovered(retransmit, n).Delivered?
    ensures Brought(retransmit, loaded, Recovered(retransmit, n).event)
  {
    hide Decode, Block;
    FateByDecode(retransmit.value(n).value, n);
    assert Brings(retransmit, loaded, retransmit.value(n).value, n);
  }

  lemma PacketBrings(retransmit: Retransmit, loaded: seq<Packet>, i: nat)
    requires loaded != [] && LiveFate(loaded[|loaded| - 1], i).Delivered?
    ensures Brought(retransmit, loaded, LiveFate(loaded[|loaded| - 1], i).event)
  {
    hide Decode, Block;
    var p := loaded[|loaded| - 1];
    FateByDecode(Block(p, i).value, p.sequence + i);
    assert Brings(retransmit, loaded, Block(p, i).value, p.sequence + i);
  }

  class MoldReceiver {
    var source: seq<seq<byte>>      // the datagrams still to come
    const sourceFails: bool
    const retransmit: Retransmit
    var packet: Packet
    var offset: nat
    var localIndex: nat
    var havePacket: bool
    var initialized: bool
    var failed: bool
    var endOfSession: bool
    var recovering: bool
    var recoverNext: nat
    var recoverEnd: nat
    var expected: nat
    var lastSequence: nat
    var gapsDetected: nat
    var messagesMissed: nat
    var messagesDecoded: nat
    ghost var loaded: seq<Packet>   // the packets taken up so far
    ghost var fates: seq<Fate>      // of the first packet's number and all that follow

    /** A message of the current packet is still to be read. */
    predicate Pending()
      reads this
    {
      havePacket && localIndex < packet.count
    }

    /** The first number that is not accounted for. */
    function Frontier(): nat
      reads this
    {
      if recovering then recoverNext
      else if Pending() then packet.sequence + localIndex
      else expected
    }

    ghost function First(): nat
      reads this
    {
      if loaded == [] then 0 else loaded[0].sequence
    }

    /** What the current packet will still add. */
    ghost function Rest(): seq<Fate>
      reads this
    {
      (if recovering && recoverNext <= recoverEnd then Gap(retransmit, recoverNext, recoverEnd) else [])
      + (if Pending() then Live(packet, localIndex) else [])
    }

    ghost predicate Positions()
      reads this
    {
      && (initialized <==> loaded != [])
      && (!initialized ==> expected == 0)
      && (havePacket ==>
            && loaded != [] && packet == loaded[|loaded| - 1] && localIndex <= packet.count
            && BlockOffset(packet.data, localIndex) == Some(offset))
      && (recovering ==>
            && Pending() && localIndex == 0 && retransmit.Some?
            && expected <= recoverNext <= recoverEnd == packet.sequence)
      && (Pending() && !recovering ==>
            expected == packet.sequence + localIndex || (localIndex == 0 && expected <= packet.sequence))
      && (Pending() && localIndex == 0 ==>
            expected == if retransmit.Some? then FrontierBefore() else packet.sequence)
      && (!Pending() && loaded != [] ==> Exhausted(loaded[|loaded| - 1], expected))
    }

    /** Where the frontier was when the latest packet was taken up. */
    ghost function FrontierBefore(): nat
      requires loaded != []
      reads this
    {
      First() + |Account(retransmit, loaded[..|loaded| - 1])|
    }

    /** The next message of the current packet is cut short. `Next` does not get past
        it. */
    ghost predicate Stuck()
      reads this
    {
      Pending() && !recovering && localIndex == Whole(packet)
    }

    /** The latest packet was dropped, because it is cut short among old messages. */
    ghost predicate Dropped()
      reads this
    {
      loaded != [] && !Pending() && !recovering && CutInside(loaded[|loaded| - 1], expected)
    }

    /** The source is used up, and so is everything it brought. */
    predicate Ended()
      reads this
    {
      source == [] && !Pending() && !recovering
    }

    /** The end of the session has been seen or is still to come. */
    ghost predicate SessionEnds()
      reads this
    {
      endOfSession || EndIn(source)
    }

    /** Why a call failed: an unreadable datagram, a packet cut short, or a malformed
        message. */
    ghost predicate Cause(sourceWas: seq<seq<byte>>)
      reads this
    {
      || (!AllParse(sourceWas) && !Pending() && !recovering)
      || Dropped() || Stuck()
      || (fates != [] && fates[|fates| - 1].Bad?)
    }

    ghost predicate Accounted()
      reads this
    {
      && Frontier() == First() + |fates|
      && Numbered(fates, First())
      && messagesMissed == Misses(fates)
      && messagesDecoded == |Deliveries(fates)|
      && Account(retransmit, loaded) == fates + Rest()
      && gapsDetected == Gaps(retransmit, loaded)
    }

    ghost predicate Valid()
      reads this
    {
      Positions() && Accounted()
    }

    constructor (datagrams: seq<seq<byte>>, sourceFails: bool, retransmit: Retransmit)
      ensures Valid() && source == datagrams && this.retransmit == retransmit && this.sourceFails == sourceFails
      ensures loaded == [] && fates == [] && !failed && !endOfSession
    {
      source, this.sourceFails, this.retransmit := datagrams, sourceFails, retransmit;
      packet, offset, localIndex, havePacket := Packet([], 0, 0), 0, 0, false;
      initialized, failed, endOfSession := false, false, false;
      recovering, recoverNext, recoverEnd := false, 0, 0;
      expected, lastSequence, gapsDetected, messagesMissed, messagesDecoded := 0, 0, 0, 0, 0;
      loaded, fates := [], [];
    }

    /** Logs the fate of the number at the frontier. */
    ghost method Log(fate: Fate)
      modifies this`fates
      ensures fates == old(fates) + [fate]
      ensures Deliveries(fates) == Deliveries(old(fates)) + if fate.Delivered? then [fate.event] else []
      ensures Misses(fates) == Misses(old(fates)) + if fate.Missed? then 1 else 0
    {
      AppendFate(fates, fate);
      fates := fates + [fate];
    }

    ghost method LogMisses(from: nat, end: nat)
      requires from <= end && Numbered(fates, First())
      modifies this`fates
      ensures fates == old(fates) + Gap(None, from, end) && Numbered(fates, First())
      ensures Deliveries(fates) == Deliveries(old(fates)) && Misses(fates) == Misses(old(fates)) + (end - from)
    {
      AppendMisses(fates, from, end);
      NumberedMisses(fates, First(), from, end);
      fates := fates + Gap(None, from, end);
    }

    method Fail()
      requires Valid()
      modifies this`failed
      ensures Valid() && failed
    {
      hide Account, Gaps, AllIntact, Live, Gap, Deliveries, Misses, Numbered, BlockOffset;
      failed := true;
    }

    /** The next number of a gap, asked of the retransmit source. */
    method RecoverOne() returns (fate: Fate)
      requires Valid() && recovering && recoverNext < recoverEnd
      modifies this`recoverNext, this`messagesMissed, this`failed, this`lastSequence, this`messagesDecoded, this`fates
      ensures Valid() && recovering && recoverNext == old(recoverNext) + 1
      ensures fate == Recovered(retransmit, old(recoverNext)) && fates == old(fates) + [fate]
      ensures Deliveries(fates) == Deliveries(old(fates)) + if fate.Delivered? then [fate.event] else []
      ensures failed == (old(failed) || fate.Bad?)
      ensures fate.Delivered? ==> lastSequence == fate.event.sequence && Brought(retransmit, loaded, fate.event)
      ensures lastSequence == if fate.Delivered? then old(recoverNext) else old(lastSequence)
    {
      hide Account, Gaps, AllIntact, Live, Gap, Deliveries, Misses, Numbered, Decode, BlockOffset, WholeUpTo, Whole,
           Block, Field, BlockAt, Exhausted, Brought, LiveFate;
      GapStep(retransmit, recoverNext, recoverEnd);
      if Recovered(retransmit, recoverNext).Delivered? {
        GapBrings(retransmit, loaded, recoverNext);
      }
      DeliveredNumber(retransmit, packet, recoverNext);
      NumberedStep(fates, First(), Recovered(retransmit, recoverNext));
      Regroup(fates, Recovered(retransmit, recoverNext), Gap(retransmit, recoverNext + 1, recoverEnd),
        Live(packet, localIndex));
      var sequence := recoverNext;
      recoverNext := recoverNext + 1;
      var payload := retransmit.value(sequence);
      fate := Missed;
      if payload.None? {
        messagesMissed := messagesMissed + 1;
      } else {
        var result := DecodeMessage(payload.value);
        fate := FateOf(payload.value, sequence);
        if result.Malformed? {
          failed := true;
        } else if result.Event? {
          lastSequence := sequence;
          messagesDecoded := messagesDecoded + 1;
        }
      }
      Log(fate);
    }

    /** The next message of the current packet, unless its framing is cut short. */
    method ReadOne() returns (fate: Option<Fate>)
      requires Valid() && Pending() && !recovering
      modifies this`offset, this`localIndex, this`expected, this`lastSequence, this`failed, this`messagesDecoded,
               this`fates
      ensures Valid()
      ensures fate.None? <==> old(Stuck())
      ensures fate.None? ==> failed && fates == old(fates) && Stuck()
      ensures fate.Some? ==>
        && fate == Some(LiveFate(packet, old(localIndex))) && !fate.value.Missed? && localIndex == old(localIndex) + 1
        && fates == old(fates) + [fate.value] && Frontier() == expected
        && Deliveries(fates) == Deliveries(old(fates)) + (if fate.value.Delivered? then [fate.value.event] else [])
        && failed == (old(failed) || fate.value.Bad?)
        && lastSequence == packet.sequence + old(localIndex)
        && (fate.value.Delivered? ==>
              lastSequence == fate.value.event.sequence && Brought(retransmit, loaded, fate.value.event))
    {
      hide Valid, AllIntact, Deliveries, Misses, Decode, BlockAt, Brought;
      AtBlock();
      var payload, next := ReadBlock(packet.data, offset);
      fate := None;
      if payload.None? {
        Fail();
      } else {
        var read := Read(payload.value);
        fate := Some(read);
      }
    }

    lemma AtBlock()
      requires Valid() && Pending() && !recovering
      ensures Block(packet, localIndex) == BlockAt(packet.data, offset)
      ensures Block(packet, localIndex).Some? <==> localIndex < Whole(packet)
      ensures localIndex <= Whole(packet)
    {
      hide Accounted;
      WholeBlocks(packet, packet.count, localIndex);
    }

    /** Decodes and logs a message that was read. */
    method Read(payload: seq<byte>) returns (fate: Fate)
      requires Valid() && Pending() && !recovering && BlockAt(packet.data, offset) == Some(payload)
      requires localIndex < Whole(packet)
      modifies this`offset, this`localIndex, this`expected, this`lastSequence, this`failed, this`messagesDecoded,
               this`fates
      ensures Valid() && fate == LiveFate(packet, old(localIndex)) && !fate.Missed?
      ensures localIndex == old(localIndex) + 1 && Frontier() == expected
      ensures fates == old(fates) + [fate]
      ensures Deliveries(fates) == Deliveries(old(fates)) + if fate.Delivered? then [fate.event] else []
      ensures failed == (old(failed) || fate.Bad?)
      ensures fate.Delivered? ==> lastSequence == fate.event.sequence && Brought(retransmit, loaded, fate.event)
      ensures lastSequence == packet.sequence + old(localIndex)
    {
      hide Account, Gaps, AllIntact, Live, Gap, Deliveries, Misses, Numbered, Decode, BlockAt, FateOf, Whole, Brought,
           Recovered;
      LiveStep(packet, localIndex);
      if LiveFate(packet, localIndex).Delivered? {
        PacketBrings(retransmit, loaded, localIndex);
      }
      DeliveredNumber(retransmit, packet, localIndex);
      NumberedStep(fates, First(), LiveFate(packet, localIndex));
      Regroup(fates, LiveFate(packet, localIndex), [], Live(packet, localIndex + 1));
      var sequence := packet.sequence + localIndex;
      offset := offset + 2 + |payload|;
      localIndex := localIndex + 1;
      expected := sequence + 1;
      lastSequence := sequence;
      fate := Judge(payload, sequence);
    }

    /** Decodes a message and keeps the counters and the log. */
    method Judge(payload: seq<byte>, sequence: nat) returns (fate: Fate)
      modifies this`failed, this`messagesDecoded, this`fates
      ensures fate == FateOf(payload, sequence) && fates == old(fates) + [fate]
      ensures messagesDecoded == old(messagesDecoded) + if fate.Delivered? then 1 else 0
      ensures Deliveries(fates) == Deliveries(old(fates)) + if fate.Delivered? then [fate.event] else []
      ensures Misses(fates) == Misses(old(fates)) && !fate.Missed?
      ensures failed == (old(failed) || fate.Bad?)
    {
      hide Deliveries, Misses, Decode;
      var result := DecodeMessage(payload);
      fate := FateOf(payload, sequence);
      if result.Malformed? {
        failed := true;
      } else if result.Event? {
        messagesDecoded := messagesDecoded + 1;
      }
      Log(fate);
    }

    /** Skips the messages of a packet that were seen before. */
    method SkipSeen(alreadySeen: nat) returns (ok: bool)
      requires localIndex == 0 && offset == HEADER_SIZE
      modifies this`offset, this`localIndex, this`failed
      ensures ok ==> localIndex == (if alreadySeen < packet.count then alreadySeen else packet.count)
      ensures ok ==> BlockOffset(packet.data, localIndex) == Some(offset) && failed == old(failed)
      ensures !ok ==> failed && Whole(packet) < alreadySeen && Whole(packet) < packet.count
    {
      hide BlockAt, Field, WholeUpTo;
      ok := true;
      while ok && localIndex < alreadySeen && localIndex < packet.count
        invariant localIndex <= alreadySeen && localIndex <= packet.count
        invariant ok ==> BlockOffset(packet.data, localIndex) == Some(offset) && failed == old(failed)
        invariant !ok ==> failed && Whole(packet) < alreadySeen && Whole(packet) < packet.count
        decreases ok, packet.count - localIndex
      {
        var payload, next := ReadBlock(packet.data, offset);
        if payload.None? {
          WholeBlocks(packet, packet.count, localIndex);
          failed, ok := true, false;
        } else {
          offset := next;
          localIndex := localIndex + 1;
        }
      }
    }

    /** A packet has been opened, but where it stands is not decided yet. */
    ghost predicate Opened()
      reads this
    {
      && loaded != [] && packet == loaded[|loaded| - 1] && packet.count > 0
      && offset == HEADER_SIZE && localIndex == 0
      && initialized && !havePacket && !recovering
      && expected == First() + |fates|
      && Numbered(fates, First())
      && messagesMissed == Misses(fates)
      && messagesDecoded == |Deliveries(fates)|
      && Account(retransmit, loaded[..|loaded| - 1]) == fates
      && Account(retransmit, loaded) == fates + Added(retransmit, packet, expected)
      && gapsDetected + (if packet.sequence > expected then 1 else 0) == Gaps(retransmit, loaded)
    }

    method Open()
      requires Valid() && !havePacket && !recovering && packet.count > 0 && offset == HEADER_SIZE && localIndex == 0
      modifies this`initialized, this`expected, this`loaded
      ensures Opened() && loaded == old(loaded) + [packet]
    {
      hide Account, Gaps, Added, Live, Gap, Deliveries, Misses, Numbered, Intact, MoldReceiver.FrontierBefore,
           Exhausted, Whole, WholeUpTo, BlockAt, Block;
      AccountStep(retransmit, loaded, packet);
      GapsStep(retransmit, loaded, packet);
      NothingNumbered(packet.sequence);
      ghost var was := loaded;
      loaded := loaded + [packet];
      assert loaded[..|was|] == was;
      if !initialized {
        initialized := true;
        expected := packet.sequence;
      }
    }

    /** A packet ahead of the frontier: the gap is recovered before it is read, or
        counted as missed. */
    method JumpAhead()
      requires Opened() && packet.sequence > expected
      modifies this`gapsDetected, this`recoverNext, this`recoverEnd, this`recovering, this`messagesMissed,
               this`expected, this`havePacket, this`fates
      ensures Valid() && Pending() && old(fates) <= fates && Deliveries(fates) == Deliveries(old(fates))
    {
      hide Valid, Opened, Deliveries;
      if retransmit.Some? {
        StartRecovery();
      } else {
        CountMissed();
      }
    }

    method StartRecovery()
      requires Opened() && packet.sequence > expected && retransmit.Some?
      modifies this`gapsDetected, this`recoverNext, this`recoverEnd, this`recovering, this`havePacket
      ensures Valid() && Pending()
    {
      hide Account, Gaps, Live, Gap, Deliveries, Misses, Numbered;
      gapsDetected := gapsDetected + 1;
      recoverNext, recoverEnd, recovering := expected, packet.sequence, true;
      havePacket := true;
      assert Rest() == Gap(retransmit, expected, packet.sequence) + Live(packet, 0);
    }

    method CountMissed()
      requires Opened() && packet.sequence > expected && retransmit.None?
      modifies this`gapsDetected, this`messagesMissed, this`expected, this`havePacket, this`fates
      ensures Valid() && Pending() && old(fates) <= fates && Deliveries(fates) == Deliveries(old(fates))
    {
      hide Account, Gaps, Live, Gap, Deliveries, Misses, Numbered;
      assert (fates + Gap(None, expected, packet.sequence)) + Live(packet, 0)
          == fates + (Gap(None, expected, packet.sequence) + Live(packet, 0));
      gapsDetected := gapsDetected + 1;
      LogMisses(expected, packet.sequence);
      messagesMissed := messagesMissed + (packet.sequence - expected);
      expected := packet.sequence;
      havePacket := true;
      assert Rest() == Live(packet, 0);
    }

    /** A packet that is next in line. */
    method GoOn()
      requires Opened() && packet.sequence == expected
      modifies this`havePacket
      ensures Valid() && Pending()
    {
      hide Account, Gaps, Added, Live, Gap, Deliveries, Misses, Numbered;
      NextInLine(retransmit, packet);
      havePacket := true;
      assert Rest() == Live(packet, 0);
    }

    /** A packet that begins before the frontier. */
    method CatchUp() returns (usable: bool, cut: bool)
      requires Opened() && packet.sequence < expected
      modifies this`offset, this`localIndex, this`failed, this`havePacket
      ensures Valid() && (usable <==> Pending())
      ensures !usable ==> !havePacket
      ensures failed == (old(failed) || cut) && !(usable && cut)
      ensures cut ==> CutInside(packet, expected)
    {
      hide Account, Gaps, Gap, Deliveries, Misses, Numbered, Intact, BlockOffset;
      var ok := SkipSeen(expected - packet.sequence);
      usable, cut := ok && localIndex < packet.count, !ok;
      havePacket := usable;
    }

    /** Takes up a packet that carries messages: it may be next in line, ahead of a
        gap, or wholly or partly seen before. */
    method TakeUp() returns (usable: bool, cut: bool)
      requires Valid() && !havePacket && !recovering && packet.count > 0 && offset == HEADER_SIZE && localIndex == 0
      modifies this
      ensures Valid() && source == old(source) && loaded == old(loaded) + [old(packet)]
      ensures endOfSession == old(endOfSession)
      ensures old(fates) <= fates && Deliveries(fates) == Deliveries(old(fates))
      ensures usable <==> Pending()
      ensures !usable ==> !havePacket && !recovering
      ensures failed == (old(failed) || cut) && !(usable && cut)
      ensures cut ==> Dropped()
    {
      hide Valid, Opened, Deliveries, CutInside;
      Open();
      if packet.sequence > expected {
        JumpAhead();
        usable, cut := true, false;
      } else if packet.sequence < expected {
        usable, cut := CatchUp();
      } else {
        GoOn();
        usable, cut := true, false;
      }
    }

    /** Pulls one datagram: it may bring a message to read or a gap to recover, end
        the search without one, or have nothing to say. */
    method PullOne() returns (ok: bool, searching: bool)
      requires Valid() && !havePacket && !recovering && source != []
      modifies this
      ensures Valid() && !(ok && searching) && (ok <==> Pending())
      ensures !ok ==> !havePacket && !recovering
      ensures MovedOn(old(loaded), old(source), old(fates), loaded, source, fates)
      ensures Deliveries(fates) == Deliveries(old(fates)) && |source| < old(|source|)
      ensures failed == (old(failed) || (!ok && !searching))
      ensures !ok && !searching ==> Dropped() || !AllParse(old(source))
      ensures SessionEnds() == old(SessionEnds())
    {
      hide Account, Gaps, AllParse, Positions, Accounted, Deliveries, DataPackets, Parse, MovedOn, CutInside, EndIn,
           EndsSession;
      PulledOne(source, loaded, fates);
      var datagram := PopDatagram();
      EndInStep(datagram, source);
      var parsed := Parse(datagram);
      if parsed.None? {
        Fail();
        ok, searching := false, false;
      } else {
        ok, searching := Look(parsed.value);
        LogGrew(old(loaded), old(source), old(fates), loaded, source, old(fates), fates);
      }
    }

    method PopDatagram() returns (datagram: seq<byte>)
      requires Valid() && source != []
      modifies this`source
      ensures Valid() && [datagram] + source == old(source)
    {
      hide Account, Gaps, Live, Gap, Deliveries, Misses, Numbered, BlockOffset, Exhausted;
      datagram := source[0];
      source := source[1..];
    }

    /** Looks at a packet's header: a heartbeat and an end of session carry nothing. */
    method Look(p: Packet) returns (ok: bool, searching: bool)
      requires Valid() && !havePacket && !recovering
      modifies this
      ensures Valid() && !(ok && searching) && (ok <==> Pending()) && source == old(source)
      ensures !ok ==> !havePacket && !recovering
      ensures loaded == if p.count != 0 && p.count != END_OF_SESSION then old(loaded) + [p] else old(loaded)
      ensures old(fates) <= fates && Deliveries(fates) == Deliveries(old(fates))
      ensures failed == (old(failed) || (!ok && !searching))
      ensures !ok && !searching ==> Dropped()
      ensures endOfSession == (old(endOfSession) || p.count == END_OF_SESSION)
    {
      hide Account, Gaps, Live, Gap, Deliveries, Misses, Numbered, BlockOffset, CutInside, Exhausted;
      packet, offset, localIndex := p, HEADER_SIZE, 0;
      ok, searching := false, true;
      if packet.count == END_OF_SESSION {
        endOfSession := true;
      } else if packet.count != 0 {
        var cut;
        ok, cut := TakeUp();
        searching := !ok && !cut;
      }
    }

    /** Pulls datagrams until one brings a message to read or a gap to recover. */
    method LoadNextPacket() returns (ok: bool)
      requires Valid() && !havePacket && !recovering
      modifies this
      ensures Valid() && (ok <==> Pending())
      ensures MovedOn(old(loaded), old(source), old(fates), loaded, source, fates)
      ensures Deliveries(fates) == Deliveries(old(fates))
      ensures ok ==> |source| < old(|source|) && failed == old(failed)
      ensures !ok ==> !havePacket && !recovering && (Ended() || (failed && (Dropped() || !AllParse(old(source)))))
      ensures failed && !old(failed) ==> !ok && (sourceFails || Dropped() || !AllParse(old(source)))
      ensures SessionEnds() == old(SessionEnds())
    {
      ok := false;
      var searching := true;
      NotMoved(loaded, source, fates);
      while searching
        invariant Valid() && (ok <==> Pending())
        invariant MovedOn(old(loaded), old(source), old(fates), loaded, source, fates)
        invariant Deliveries(fates) == Deliveries(old(fates)) && |source| <= old(|source|)
        invariant searching ==> !ok
        invariant searching || ok ==> failed == old(failed)
        invariant !ok ==> !havePacket && !recovering
        invariant !ok && !searching ==> Ended() || (failed && (Dropped() || !AllParse(old(source))))
        invariant ok ==> |source| < old(|source|)
        invariant SessionEnds() == old(SessionEnds())
        invariant failed && !old(failed) ==> !ok && !searching && (sourceFails || Dropped() || !AllParse(old(source)))
        decreases searching, |source|
      {
        hide Valid, AllIntact, AllParse, MovedOn, Deliveries, EndIn;
        if source == [] {
          if sourceFails {
            Fail();
          }
          searching := false;
        } else {
          ghost var loadedWas, sourceWas, fatesWas := loaded, source, fates;
          ok, searching := PullOne();
          MovedOnAgain(old(loaded), old(source), old(fates), loadedWas, sourceWas, fatesWas, loaded, source, fates);
          ParsedSoFar(old(loaded), old(source), old(fates), loadedWas, sourceWas, fatesWas);
        }
      }
    }

    /** The counter `expected` (or `recoverNext` while a gap is drained) falls short of
        the first number that is not accounted for in one state only: there was a gap
        to be recovered before the current packet, it has been drained, and none of the
        packet's messages has been read. */
    lemma FrontierShown()
      requires Valid()
      ensures (if recovering then recoverNext else expected) <= Frontier()
      ensures (if recovering then recoverNext else expected) < Frontier() <==>
        && Pending() && !recovering && localIndex == 0
        && retransmit.Some? && FrontierBefore() < packet.sequence
    {
      hide Accounted;
    }

    // how much is left to do before the next datagram

    function GapLeft(): nat
      reads this
    {
      if recovering then 1 + if recoverNext < recoverEnd then recoverEnd - recoverNext else 0 else 0
    }

    function PacketLeft(): nat
      reads this
    {
      if Pending() then packet.count - localIndex else 0
    }

    predicate Here(datagrams: nat, gap: nat, messages: nat)
      reads this
    {
      |source| == datagrams && GapLeft() == gap && PacketLeft() == messages
    }

    predicate Nearer(datagrams: nat, gap: nat, messages: nat)
      reads this
    {
      || |source| < datagrams
      || (|source| == datagrams && GapLeft() < gap)
      || (|source| == datagrams && GapLeft() == gap && PacketLeft() < messages)
    }

    /** The gap, if there was one, is behind the receiver. */
    method EndRecovery()
      requires Valid() && !(recovering && recoverNext < recoverEnd)
      modifies this`recovering
      ensures Valid() && !recovering && Pending() == old(Pending())
    {
      hide Account, Gaps, AllIntact, Live, Deliveries, Misses, Numbered, BlockOffset;
      recovering := false;
    }

    method DropPacket()
      requires Valid() && !Pending() && !recovering
      modifies this`havePacket
      ensures Valid() && !havePacket
    {
      hide Account, Gaps, AllIntact, Live, Gap, Deliveries, Misses, Numbered, BlockOffset;
      havePacket := false;
    }

    /** One number of a gap, one message of the packet, or the next packet. */
    method Advance() returns (event: Option<MarketDataEvent>, searching: bool)
      requires Valid()
      modifies this
      ensures Valid() && !(event.Some? && searching)
      ensures MovedOn(old(loaded), old(source), old(fates), loaded, source, fates)
      ensures Deliveries(fates) == Deliveries(old(fates)) + if event.Some? then [event.value] else []
      ensures event.Some? ==> fates != [] && fates[|fates| - 1] == Delivered(event.value)
      ensures event.Some? ==> Brought(retransmit, loaded, event.value)
      ensures event.Some? || searching ==>
        Nearer(old(|source|), old(GapLeft()), old(PacketLeft())) && failed == old(failed)
      ensures event.Some? ==> (recovering || Frontier() == expected) && lastSequence == event.value.sequence
      ensures event.None? && !searching ==> Ended() || (failed && Cause(old(source)))
      ensures failed && !old(failed) ==> event.None? && !searching && (sourceFails || Cause(old(source)))
      ensures old(Stuck()) ==> event.None? && fates == old(fates) && source == old(source) && Stuck()
      ensures SessionEnds() == old(SessionEnds())
    {
      hide EndIn, Valid, MovedOn, Account, Gaps, AllIntact, AllParse, Added, Deliveries, Misses, Intact, Brought;
      NotMoved(loaded, source, fates);
      if recovering && recoverNext < recoverEnd {
        var fate := RecoverOne();
        LogGrew(old(loaded), old(source), old(fates), loaded, source, old(fates), fates);
        event := if fate.Delivered? then Some(fate.event) else None;
        searching := fate.Ignored? || fate.Missed?;
      } else {
        EndRecovery();
        event := None;
        if !Pending() {
          DropPacket();
          searching := LoadNextPacket();
        } else {
          var fate := ReadOne();
          LogGrew(old(loaded), old(source), old(fates), loaded, source, old(fates), fates);
          event := if fate.Some? && fate.value.Delivered? then Some(fate.value.event) else None;
          searching := fate.Some? && fate.value.Ignored?;
        }
      }
    }

    /** The next event. It is the one event that the log gains; everything else the
        log gains was ignored, bad or missed. A call that gives nothing has failed
        or has come to the end of the source. */
    method Next() returns (event: Option<MarketDataEvent>)
      requires Valid()
      modifies this
      ensures Valid()
      ensures MovedOn(old(loaded), old(source), old(fates), loaded, source, fates)
      ensures Deliveries(fates) == Deliveries(old(fates)) + if event.Some? then [event.value] else []
      ensures event.Some? ==>
        fates != [] && fates[|fates| - 1] == Delivered(event.value) && lastSequence == event.value.sequence
      ensures event.Some? ==> Brought(retransmit, loaded, event.value)
      ensures event.Some? ==> Nearer(old(|source|), old(GapLeft()), old(PacketLeft()))
      ensures event.None? ==> Ended() || (failed && Cause(old(source)))
      ensures failed && !old(failed) ==> event.None? && (sourceFails || Cause(old(source)))
      ensures event.Some? || !failed ==> Frontier() == if recovering then recoverNext else expected
      ensures old(Stuck()) ==> event.None? && failed && fates == old(fates) && source == old(source) && Stuck()
      ensures SessionEnds() == old(SessionEnds())
    {
      hide EndIn, Valid, MovedOn, AllIntact, AllParse, Deliveries, Brought;
      event := None;
      var searching := true;
      NotMoved(loaded, source, fates);
      ghost var loadedWas, sourceWas, fatesWas := loaded, source, fates;
      while searching
        invariant Valid()
        invariant MovedOn(old(loaded), old(source), old(fates), loaded, source, fates)
        invariant Deliveries(fates) == Deliveries(old(fates)) + if event.Some? then [event.value] else []
        invariant event.Some? ==> fates != [] && fates[|fates| - 1] == Delivered(event.value)
        invariant event.Some? ==> Brought(retransmit, loaded, event.value)
        invariant searching ==> event.None? && failed == old(failed)
        invariant searching ==>
          Nearer(old(|source|), old(GapLeft()), old(PacketLeft()))
          || Here(old(|source|), old(GapLeft()), old(PacketLeft()))
        invariant event.Some? ==> Nearer(old(|source|), old(GapLeft()), old(PacketLeft()))
        invariant event.None? && !searching ==> Ended() || (failed && Cause(old(source)))
        invariant event.Some? ==> (recovering || Frontier() == expected) && lastSequence == event.value.sequence
        invariant old(Stuck()) ==> event.None? && fates == old(fates) && source == old(source) && Stuck()
        invariant failed && !old(failed) ==> event.None? && !searching && (sourceFails || Cause(old(source)))
        invariant SessionEnds() == old(SessionEnds())
        decreases searching, |source|, GapLeft(), PacketLeft()
      {
        loadedWas, sourceWas, fatesWas := loaded, source, fates;
        event, searching := Advance();
        MovedOnAgain(old(loaded), old(source), old(fates), loadedWas, sourceWas, fatesWas, loaded, source, fates);
        ParsedSoFar(old(loaded), old(source), old(fates), loadedWas, sourceWas, fatesWas);
      }
    }
  }

  lemma NextInLine(retransmit: Retransmit, p: Packet)
    ensures Added(retransmit, p, p.sequence) == Live(p, 0)
  {
  }

  lemma NothingNumbered(first: nat)
    ensures Numbered([], first)
  {
  }

  // ---------- whole streams ----------

  /** Calls the receiver until it gives nothing. Its events are exactly the
      deliveries of its log. It comes to the end of the source, with every packet
      taken up, or it fails for one of three reasons. */
  method Drain(receiver: MoldReceiver) returns (events: seq<MarketDataEvent>)
    requires receiver.Valid() && receiver.loaded == [] && receiver.fates == []
    modifies receiver
    ensures receiver.Valid() && events == Deliveries(receiver.fates)
    ensures receiver.Ended() || (receiver.failed && receiver.Cause(old(receiver.source)))
    ensures receiver.Ended() ==> receiver.loaded == DataPackets(old(receiver.source))
    ensures receiver.failed && !old(receiver.failed) ==> receiver.sourceFails || receiver.Cause(old(receiver.source))
    ensures receiver.loaded <= DataPackets(old(receiver.source))
    ensures receiver.SessionEnds() == old(receiver.SessionEnds())
  {
    hide MoldReceiver.Valid, Deliveries, Misses, EndIn;
    ghost var packets := DataPackets(receiver.source);
    events := [];
    assert events == Deliveries([]) by {
      NothingDelivered();
    }
    var event := receiver.Next();
    while event.Some?
      invariant receiver.Valid()
      invariant receiver.loaded + DataPackets(receiver.source) == packets
      invariant Deliveries(receiver.fates) == events + if event.Some? then [event.value] else []
      invariant receiver.failed && !old(receiver.failed) ==>
        event.None? && (receiver.sourceFails || receiver.Cause(old(receiver.source)))
      invariant AllParse(old(receiver.source)) ==> AllParse(receiver.source)
      invariant receiver.SessionEnds() == old(receiver.SessionEnds())
      invariant event.None? ==> receiver.Ended() || (receiver.failed && receiver.Cause(old(receiver.source)))
      decreases event.Some?, |receiver.source|, receiver.GapLeft(), receiver.PacketLeft()
    {
      events := events + [event.value];
      event := receiver.Next();
    }
  }

  lemma NothingDelivered()
    ensures Deliveries([]) == []
  {
  }

  /** A feed of slices of one message stream, with a retransmit source that can
      supply every message, none of them malformed: whatever was lost, repeated or
      reordered, the receiver hands out exactly the book messages from the first
      packet's number to the largest end seen, once each and in order. */
  method RecoversEverything(datagrams: seq<seq<byte>>, retransmit: Retransmit, ghost canonical: nat -> seq<byte>)
    returns (receiver: MoldReceiver, events: seq<MarketDataEvent>)
    requires Complete(retransmit, canonical) && forall n :: !Decode(canonical(n)).Malformed?
    requires AllParse(datagrams) && DataPackets(datagrams) != []
    requires forall i :: 0 <= i < |DataPackets(datagrams)| ==> SliceOf(DataPackets(datagrams)[i], canonical)
    ensures
      var packets := DataPackets(datagrams);
      var first := packets[0].sequence;
      && !receiver.failed && LargestEnd(packets) > first
      && events == Deliveries(Canonical(canonical, first, LargestEnd(packets) - first))
      && receiver.messagesMissed == 0 && receiver.expected == LargestEnd(packets)
      && receiver.messagesDecoded == |events| && receiver.gapsDetected == |Jumps(packets)|
      && (receiver.endOfSession <==> EndIn(datagrams))
    ensures EachOnce(canonical, DataPackets(datagrams)[0].sequence, LargestEnd(DataPackets(datagrams)), events)
  {
    hide Decode, Account, DataPackets, Intact, SliceOf, Complete, Deliveries, Misses, AllParse, MoldReceiver.Cause,
         EachOnce, Gaps, Jumps, Canonical;
    receiver := new MoldReceiver(datagrams, false, retransmit);
    events := Drain(receiver);
    ghost var packets := DataPackets(datagrams);
    DataPacketsCarry(datagrams);
    NoCause(receiver, datagrams, canonical);
    LossIsInvisible(canonical, retransmit, packets);
    SlicesIntact(canonical, packets);
    GapsByNumbers(retransmit, packets);
    CanonicalDelivers(canonical, packets[0].sequence, LargestEnd(packets) - packets[0].sequence);
    NothingMissed(canonical, packets[0].sequence, LargestEnd(packets) - packets[0].sequence);
    assert receiver.fates + [] == receiver.fates;
  }

  /** With such a feed there is nothing to fail for. */
  lemma NoCause(receiver: MoldReceiver, datagrams: seq<seq<byte>>, canonical: nat -> seq<byte>)
    requires receiver.Valid() && AllParse(datagrams) && receiver.loaded <= DataPackets(datagrams)
    requires Complete(receiver.retransmit, canonical) && forall n :: !Decode(canonical(n)).Malformed?
    requires forall i :: 0 <= i < |DataPackets(datagrams)| ==> SliceOf(DataPackets(datagrams)[i], canonical)
    ensures !receiver.Cause(datagrams)
  {
    hide Decode, Account, DataPackets, Intact, SliceOf, Complete, Deliveries, Misses, AllParse;
    SlicesIntact(canonical, receiver.loaded);
    DataPacketsCarry(datagrams);
    NoneBad(canonical, receiver.retransmit, receiver.loaded, receiver.fates, receiver.Rest());
    if receiver.loaded != [] {
      LastIntact(receiver.loaded);
    }
  }

  lemma SlicesIntact(canonical: nat -> seq<byte>, packets: seq<Packet>)
    requires forall i :: 0 <= i < |packets| ==> SliceOf(packets[i], canonical)
    ensures AllIntact(packets)
  {
  }

  lemma NothingAccounted(retransmit: Retransmit)
    ensures Account(retransmit, []) == []
  {
  }

  lemma {:induction false} NoneBad(canonical: nat -> seq<byte>, retransmit: Retransmit, packets: seq<Packet>,
                                   fates: seq<Fate>, rest: seq<Fate>)
    requires Complete(retransmit, canonical) && forall n :: !Decode(canonical(n)).Malformed?
    requires forall i :: 0 <= i < |packets| ==> SliceOf(packets[i], canonical) && packets[i].count > 0
    requires Account(retransmit, packets) == fates + rest
    ensures !HasBad(fates)
  {
    hide SliceOf, Complete, Account, Decode, LargestEnd;
    if packets == [] {
      NothingAccounted(retransmit);
    } else {
      LossIsInvisible(canonical, retransmit, packets);
      var first := packets[0].sequence;
      var whole := Canonical(canonical, first, LargestEnd(packets) - first);
      forall i | 0 <= i < |fates|
        ensures !fates[i].Bad?
      {
        assert whole[i] == FateOf(canonical(first + i), first + i) == fates[i];
      }
    }
  }

  lemma {:induction false} DataPacketsCarry(datagrams: seq<seq<byte>>)
    ensures forall i :: 0 <= i < |DataPackets(datagrams)| ==> DataPackets(datagrams)[i].count > 0
  {
    if datagrams != [] {
      DataPacketsCarry(datagrams[1..]);
    }
  }

  lemma {:induction false} NothingMissed(canonical: nat -> seq<byte>, first: nat, n: nat)
    ensures Misses(Canonical(canonical, first, n)) == 0
  {
    if n > 0 {
      NothingMissed(canonical, first, n - 1);
      assert Canonical(canonical, first, n)[..n - 1] == Canonical(canonical, first, n - 1);
      assert Canonical(canonical, first, n)[n - 1] == FateOf(canonical(first + (n - 1)), first + (n - 1));
    }
  }

  // ---------- where the counter lags ----------

  /** A packet whose only message is of no interest, and one that announces a
      message behind a gap but is cut short before it. */
  function GapAndCut(): seq<seq<byte>> {
    [MoldPacket(1, [[0]]), MoldHeader(3, 1)]
  }

  lemma GoodPacket() returns (a: Packet)
    ensures Parse(MoldPacket(1, [[0]])) == Some(a)
    ensures a.sequence == 1 && a.count == 1 && Whole(a) == 1 && LiveFate(a, 0) == Ignored
  {
    hide MoldPacket, Parse, BlockOffset;
    assert Bound(2) == 256 * Bound(1) && Bound(8) == 256 * Bound(7);
    BoundGrows(7);
    PacketIsSlice(1, [[0]], _ => [0]);
    a := Parse(MoldPacket(1, [[0]])).value;
    IntactWhole(a);
    assert Block(a, 0) == Some([0]);
  }

  lemma {:induction false} BoundGrows(n: nat)
    ensures Bound(n) >= 1
  {
    if n > 0 {
      BoundGrows(n - 1);
    }
  }

  lemma CutPacket() returns (b: Packet)
    ensures Parse(MoldHeader(3, 1)) == Some(b)
    ensures b.sequence == 3 && b.count == 1 && Whole(b) == 0
  {
    hide MoldHeader, Parse;
    assert Bound(2) == 256 * Bound(1) && Bound(8) == 256 * Bound(7);
    BoundGrows(7);
    assert MoldHeader(3, 1) + [] == MoldHeader(3, 1);
    HeaderParsed(3, 1, []);
    b := Parse(MoldHeader(3, 1)).value;
    assert BlockAt(b.data, HEADER_SIZE) == None;
    assert Block(b, 0) == None;
  }

  lemma GapAndCutPackets() returns (a: Packet, b: Packet)
    ensures DataPackets(GapAndCut()) == [a, b] && AllParse(GapAndCut())
    ensures a.sequence == 1 && a.count == 1 && Whole(a) == 1 && LiveFate(a, 0) == Ignored
    ensures b.sequence == 3 && b.count == 1 && Whole(b) == 0
  {
    hide MoldHeader, MoldPacket, Parse, LiveFate, Whole;
    a := GoodPacket();
    b := CutPacket();
    var second := GapAndCut()[1];
    var rest := [second];
    assert GapAndCut()[1..] == rest;
    assert DataPackets(rest) == [b] by {
      assert DataPackets(rest[1..]) == [];
    }
  }

  lemma GapAndCutAccount(retransmit: Retransmit, a: Packet, b: Packet)
    requires retransmit.Some? && retransmit.value(2) == None
    requires a.sequence == 1 && a.count == 1 && Whole(a) == 1 && LiveFate(a, 0) == Ignored
    requires b.sequence == 3 && b.count == 1 && Whole(b) == 0
    ensures Account(retransmit, []) == [] && Account(retransmit, [a]) == [Ignored]
    ensures Account(retransmit, [a, b]) == [Ignored, Missed]
  {
    AccountStep(retransmit, [], a);
    assert [] + [a] == [a];
    assert Live(a, 0) == [LiveFate(a, 0)];
    AccountStep(retransmit, [a], b);
    assert [a] + [b] == [a, b];
    assert Gap(retransmit, 2, 3) == [Recovered(retransmit, 2)];
  }

  /** The one state in which the counter lags is reached: the receiver drains the gap
      before the second packet, counts its number as missed, and then fails at the cut
      message. Every number below 3 is accounted for, but `expected` is still 2. */
  method CounterLags(retransmit: nat -> Option<seq<byte>>)
    returns (receiver: MoldReceiver, event: Option<MarketDataEvent>)
    requires retransmit(2) == None
    ensures receiver.Valid() && event == None && receiver.failed && !receiver.recovering
    ensures receiver.fates == [Ignored, Missed] && receiver.Frontier() == 3 && receiver.expected == 2
  {
    hide Account, Gaps, AllParse, DataPackets, GapAndCut, Deliveries, Misses, Numbered, Whole, Parse, LiveFate,
         Recovered, BlockOffset, MoldReceiver.Valid, MoldReceiver.Cause, MoldReceiver.Rest;
    receiver := new MoldReceiver(GapAndCut(), false, Some(retransmit));
    event := receiver.Next();
    LagShown(receiver, retransmit, event);
  }

  lemma LagShown(receiver: MoldReceiver, retransmit: nat -> Option<seq<byte>>, event: Option<MarketDataEvent>)
    requires retransmit(2) == None && receiver.Valid() && receiver.retransmit == Some(retransmit)
    requires MovedOn([], GapAndCut(), [], receiver.loaded, receiver.source, receiver.fates)
    requires Deliveries(receiver.fates) == Deliveries([]) + if event.Some? then [event.value] else []
    requires event.Some? ==> receiver.fates != [] && receiver.fates[|receiver.fates| - 1] == Delivered(event.value)
    requires event.None? ==> receiver.Ended() || (receiver.failed && receiver.Cause(GapAndCut()))
    ensures event == None && receiver.failed && !receiver.recovering
    ensures receiver.fates == [Ignored, Missed] && receiver.Frontier() == 3 && receiver.expected == 2
  {
    hide Account, Gaps, AllParse, DataPackets, GapAndCut, Deliveries, Misses, Numbered, Whole, Parse, LiveFate,
         Recovered, BlockOffset;
    var a, b := GapAndCutPackets();
    GapAndCutAccount(Some(retransmit), a, b);
    NoPackets();
    var loaded := receiver.loaded;
    assert loaded + DataPackets(receiver.source) == [a, b];
    TwoAtMost(loaded, DataPackets(receiver.source), a, b);
    var account := Account(Some(retransmit), loaded);
    assert account == receiver.fates + receiver.Rest();
    assert forall i :: 0 <= i < |receiver.fates| ==> receiver.fates[i] == account[i];
    assert [a][..0] == [] && [a, b][..1] == [a];
  }

  lemma NoPackets()
    ensures DataPackets([]) == []
  {
  }

  lemma TwoAtMost(x: seq<Packet>, y: seq<Packet>, a: Packet, b: Packet)
    requires x + y == [a, b]
    ensures x == [] || x == [a] || x == [a, b]
    ensures y == [] ==> x == [a, b]
  {
    assert x == [a, b][..|x|];
  }
}
