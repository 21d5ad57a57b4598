/** MoldUDP64 downstream packets, and what a receiver owes to the sequence numbers
    they cover. A packet carries a sequence number, a count and length-framed
    message blocks. */
module MoldUdp64 {
  import opened MarketTypes
  import opened ItchDecoders
  import opened ReadWindows

  const HEADER_SIZE := 20
  const END_OF_SESSION := 0xFFFF

  datatype Packet = Packet(data: seq<byte>, sequence: nat, count: nat)

  function Parse(datagram: seq<byte>): Option<Packet> {
    if |datagram| < HEADER_SIZE then None
    else Some(Packet(datagram, Field(datagram, 10, 8), Field(datagram, 18, 2)))
  }

  /** The message block that starts at `offset`. */
  function BlockAt(data: seq<byte>, offset: nat): Option<seq<byte>> {
    if offset + 2 > |data| then None
    else
      var length := Field(data, offset, 2);
      if offset + 2 + length > |data| then None else Some(data[offset + 2..offset + 2 + length])
  }

  method ReadBlock(data: seq<byte>, offset: nat) returns (out: Option<seq<byte>>, next: nat)
    ensures out == BlockAt(data, offset)
    ensures next == offset + if out.Some? then 2 + |out.value| else 0
  {
    out, next := None, offset;
    if offset + 2 <= |data| {
      var length := ReadBe16(data, offset);
      if offset + 2 + length <= |data| {
        out := Some(data[offset + 2..offset + 2 + length]);
        next := offset + 2 + length;
      }
    }
  }

  /** Where block `i` starts, when all blocks before it are whole. */
  function BlockOffset(data: seq<byte>, i: nat): Option<nat> {
    if i == 0 then Some(HEADER_SIZE)
    else
      var before := BlockOffset(data, i - 1);
      if before.None? || BlockAt(data, before.value).None? then None
      else Some(before.value + 2 + |BlockAt(data, before.value).value|)
  }

  function Block(p: Packet, i: nat): Option<seq<byte>> {
    var offset := BlockOffset(p.data, i);
    if offset.None? then None else BlockAt(p.data, offset.value)
  }

  /** All blocks that the header announces are there. */
  predicate Intact(p: Packet) {
    BlockOffset(p.data, p.count).Some?
  }

  /** How many of the first `n` announced blocks are there. */
  function WholeUpTo(p: Packet, n: nat): (w: nat)
    ensures w <= n
  {
    if n == 0 then 0
    else
      var before := WholeUpTo(p, n - 1);
      if before == n - 1 && Block(p, n - 1).Some? then n else before
  }

  /** How many of the announced blocks are there before the framing is cut short. */
  function Whole(p: Packet): (w: nat)
    ensures w <= p.count
  {
    WholeUpTo(p, p.count)
  }

  lemma {:induction false} WholeOffset(p: Packet, n: nat)
    ensures BlockOffset(p.data, n).Some? <==> WholeUpTo(p, n) == n
  {
    hide BlockAt;
    if n > 0 {
      WholeOffset(p, n - 1);
    }
  }

  lemma {:induction false} WholeMonotone(p: Packet, i: nat, n: nat)
    requires i <= n
    ensures i <= WholeUpTo(p, n) <==> WholeUpTo(p, i) == i
  {
    hide Block;
    if i < n {
      WholeMonotone(p, i, n - 1);
    }
  }

  /** Block `i` can be got at, or is there, exactly below the count of whole blocks. */
  lemma WholeBlocks(p: Packet, n: nat, i: nat)
    requires i <= n
    ensures BlockOffset(p.data, i).Some? <==> i <= WholeUpTo(p, n)
    ensures i < n ==> (Block(p, i).Some? <==> i < WholeUpTo(p, n))
  {
    hide BlockAt, WholeUpTo, BlockOffset;
    WholeOffset(p, i);
    WholeMonotone(p, i, n);
    if i < n {
      WholeMonotone(p, i + 1, n);
      WholeStep(p, i);
    }
  }

  lemma WholeStep(p: Packet, i: nat)
    ensures WholeUpTo(p, i + 1) == i + 1 <==> WholeUpTo(p, i) == i && Block(p, i).Some?
  {
    hide Block;
  }

  lemma IntactWhole(p: Packet)
    ensures Intact(p) <==> Whole(p) == p.count
  {
    WholeBlocks(p, p.count, p.count);
  }

  /** The packets of a datagram stream that carry messages. */
  function DataPackets(datagrams: seq<seq<byte>>): seq<Packet> {
    if datagrams == [] then []
    else
      var p := Parse(datagrams[0]);
      var later := DataPackets(datagrams[1..]);
      if p.Some? && p.value.count != 0 && p.value.count != END_OF_SESSION then [p.value] + later else later
  }

  // ---------- what becomes of each sequence number ----------

  datatype Fate = Delivered(event: MarketDataEvent) | Ignored | Bad | Missed

  type Retransmit = Option<nat -> Option<seq<byte>>>

  function FateOf(payload: seq<byte>, sequence: nat): Fate {
    match Decode(payload)
    case Event(event) => Delivered(event.(sequence := sequence))
    case Skipped => Ignored
    case Malformed => Bad
  }

  /** A number that no packet brought in time. */
  function Recovered(retransmit: Retransmit, sequence: nat): Fate {
    if retransmit.None? then Missed
    else
      var payload := retransmit.value(sequence);
      if payload.None? then Missed else FateOf(payload.value, sequence)
  }

  function Gap(retransmit: Retransmit, from: nat, end: nat): (fates: seq<Fate>)
    requires from <= end
    ensures |fates| == end - from
  {
    seq(end - from, i requires 0 <= i < end - from => Recovered(retransmit, from + i))
  }

  function LiveFate(p: Packet, i: nat): Fate {
    var payload := Block(p, i);
    if payload.None? then Missed else FateOf(payload.value, p.sequence + i)
  }

  /** The messages of a packet from block `from` up to where its framing is cut short. */
  function Live(p: Packet, from: nat): (fates: seq<Fate>)
    ensures |fates| == if from <= Whole(p) then Whole(p) - from else 0
  {
    if from <= Whole(p) then seq(Whole(p) - from, i requires 0 <= i < Whole(p) - from => LiveFate(p, from + i))
    else []
  }

  /** A delivered event bears the number it was delivered for. */
  lemma DeliveredNumber(retransmit: Retransmit, p: Packet, n: nat)
    ensures Recovered(retransmit, n).Delivered? ==> Recovered(retransmit, n).event.sequence == n
    ensures LiveFate(p, n).Delivered? ==> LiveFate(p, n).event.sequence == p.sequence + n
  {
  }

  lemma GapStep(retransmit: Retransmit, from: nat, end: nat)
    requires from < end
    ensures Gap(retransmit, from, end) == [Recovered(retransmit, from)] + Gap(retransmit, from + 1, end)
  {
  }

  lemma LiveStep(p: Packet, from: nat)
    requires from < Whole(p)
    ensures Live(p, from) == [LiveFate(p, from)] + Live(p, from + 1)
  {
  }

  /** What a packet adds for a receiver that has accounted for every number before
      `frontier`: the numbers it jumps over, then those of its own that are new. */
  function Added(retransmit: Retransmit, p: Packet, frontier: nat): seq<Fate> {
    if p.sequence >= frontier then Gap(retransmit, frontier, p.sequence) + Live(p, 0)
    else if p.sequence + p.count > frontier then Live(p, frontier - p.sequence)
    else []
  }

  /** The fates of all numbers from the first packet's on, in order. */
  function Account(retransmit: Retransmit, packets: seq<Packet>): seq<Fate> {
    if packets == [] then []
    else
      var before := Account(retransmit, packets[..|packets| - 1]);
      before + Added(retransmit, packets[|packets| - 1], packets[0].sequence + |before|)
  }

  lemma AccountStep(retransmit: Retransmit, packets: seq<Packet>, p: Packet)
    ensures
      var first := if packets == [] then p.sequence else packets[0].sequence;
      var before := Account(retransmit, packets);
      Account(retransmit, packets + [p]) == before + Added(retransmit, p, first + |before|)
  {
    hide Added;
    assert (packets + [p])[..|packets|] == packets;
  }

  /** How many packets found a gap before them. */
  function Gaps(retransmit: Retransmit, packets: seq<Packet>): nat {
    if packets == [] then 0
    else
      var init, p := packets[..|packets| - 1], packets[|packets| - 1];
      Gaps(retransmit, init)
        + if init != [] && p.sequence > packets[0].sequence + |Account(retransmit, init)| then 1 else 0
  }

  lemma GapsStep(retransmit: Retransmit, packets: seq<Packet>, p: Packet)
    ensures Gaps(retransmit, packets + [p]) == Gaps(retransmit, packets)
      + if packets != [] && p.sequence > packets[0].sequence + |Account(retransmit, packets)| then 1 else 0
  {
    assert (packets + [p])[..|packets|] == packets;
  }

  ghost predicate HasBad(fates: seq<Fate>) {
    exists i :: 0 <= i < |fates| && fates[i].Bad?
  }

  function Deliveries(fates: seq<Fate>): seq<MarketDataEvent> {
    if fates == [] then []
    else
      var before := Deliveries(fates[..|fates| - 1]);
      var fate := fates[|fates| - 1];
      if fate.Delivered? then before + [fate.event] else before
  }

  function Misses(fates: seq<Fate>): nat {
    if fates == [] then 0
    else Misses(fates[..|fates| - 1]) + if fates[|fates| - 1].Missed? then 1 else 0
  }

  lemma AppendFate(fates: seq<Fate>, fate: Fate)
    ensures Deliveries(fates + [fate]) == Deliveries(fates) + if fate.Delivered? then [fate.event] else []
    ensures Misses(fates + [fate]) == Misses(fates) + if fate.Missed? then 1 else 0
  {
    assert (fates + [fate])[..|fates|] == fates;
  }

  lemma {:induction false} AppendMisses(fates: seq<Fate>, from: nat, end: nat)
    requires from <= end
    ensures Deliveries(fates + Gap(None, from, end)) == Deliveries(fates)
    ensures Misses(fates + Gap(None, from, end)) == Misses(fates) + (end - from)
    decreases end
  {
    if from < end {
      AppendMisses(fates, from, end - 1);
      AppendFate(fates + Gap(None, from, end - 1), Missed);
      assert Recovered(None, end - 1) == Missed;
      assert Gap(None, from, end) == Gap(None, from, end - 1) + [Recovered(None, end - 1)];
      assert fates + Gap(None, from, end) == (fates + Gap(None, from, end - 1)) + [Missed];
    } else {
      assert fates + Gap(None, from, end) == fates;
    }
  }

  /** Every delivered event bears the number it was accounted under. */
  ghost predicate Numbered(fates: seq<Fate>, first: nat) {
    forall i :: 0 <= i < |fates| && fates[i].Delivered? ==> fates[i].event.sequence == first + i
  }

  lemma NumberedStep(fates: seq<Fate>, first: nat, fate: Fate)
    requires Numbered(fates, first) && (fate.Delivered? ==> fate.event.sequence == first + |fates|)
    ensures Numbered(fates + [fate], first)
  {
  }

  lemma NumberedMisses(fates: seq<Fate>, first: nat, from: nat, end: nat)
    requires Numbered(fates, first) && from <= end
    ensures Numbered(fates + Gap(None, from, end), first)
  {
    assert forall i :: 0 <= i < end - from ==> Gap(None, from, end)[i] == Recovered(None, from + i);
  }

  /** So the delivered sequence numbers strictly increase. */
  lemma {:induction false} DeliveredInOrder(fates: seq<Fate>, first: nat)
    requires Numbered(fates, first)
    ensures forall i :: 0 <= i < |Deliveries(fates)| ==> first <= Deliveries(fates)[i].sequence < first + |fates|
    ensures forall i, j :: 0 <= i < j < |Deliveries(fates)| ==>
      Deliveries(fates)[i].sequence < Deliveries(fates)[j].sequence
  {
    if fates != [] {
      DeliveredInOrder(fates[..|fates| - 1], first);
    }
  }

  // ---------- one canonical message stream ----------

  /** The packet carries a slice of the stream. */
  ghost predicate SliceOf(p: Packet, canonical: nat -> seq<byte>) {
    Intact(p) && forall i :: 0 <= i < p.count ==> Block(p, i) == Some(canonical(p.sequence + i))
  }

  function Canonical(canonical: nat -> seq<byte>, first: nat, n: nat): (fates: seq<Fate>)
    ensures |fates| == n
  {
    seq(n, i requires 0 <= i < n => FateOf(canonical(first + i), first + i))
  }

  /** The end of the longest stretch the packets reach. */
  function LargestEnd(packets: seq<Packet>): nat {
    if packets == [] then 0
    else
      var before := LargestEnd(packets[..|packets| - 1]);
      var end := packets[|packets| - 1].sequence + packets[|packets| - 1].count;
      if end > before then end else before
  }

  /** The retransmit source can supply every message. */
  ghost predicate Complete(retransmit: Retransmit, canonical: nat -> seq<byte>) {
    retransmit.Some? && forall n :: retransmit.value(n) == Some(canonical(n))
  }

  /** When packets are slices of one stream and every message can be recovered,
      then whatever was lost, repeated or reordered, the numbers from the first
      packet's to the largest end seen are accounted for exactly as if the stream
      had been read in order. */
  lemma {:induction false} LossIsInvisible(canonical: nat -> seq<byte>, retransmit: Retransmit, packets: seq<Packet>)
    requires Complete(retransmit, canonical)
    requires packets != [] && forall i :: 0 <= i < |packets| ==> SliceOf(packets[i], canonical)
    requires packets[0].count > 0
    ensures LargestEnd(packets) > packets[0].sequence
    ensures Account(retransmit, packets)
         == Canonical(canonical, packets[0].sequence, LargestEnd(packets) - packets[0].sequence)
    decreases |packets|
  {
    hide SliceOf, Complete, FateOf, Added;
    var first, p := packets[0].sequence, packets[|packets| - 1];
    var before := Account(retransmit, packets[..|packets| - 1]);
    var frontier := first + |before|;
    if |packets| > 1 {
      LossIsInvisible(canonical, retransmit, packets[..|packets| - 1]);
    }
    AddedIsCanonical(canonical, retransmit, p, frontier);
    var end := LaterOf(p.sequence + p.count, frontier);
    CanonicalJoins(canonical, first, |before|, end - frontier);
  }

  function LaterOf(a: nat, b: nat): (r: nat)
    ensures r >= a && r >= b
  {
    if a > b then a else b
  }

  lemma CanonicalJoins(canonical: nat -> seq<byte>, first: nat, n: nat, m: nat)
    ensures Canonical(canonical, first, n) + Canonical(canonical, first + n, m) == Canonical(canonical, first, n + m)
  {
  }

  lemma AddedIsCanonical(canonical: nat -> seq<byte>, retransmit: Retransmit, p: Packet, frontier: nat)
    requires Complete(retransmit, canonical) && SliceOf(p, canonical)
    ensures Added(retransmit, p, frontier)
      == Canonical(canonical, frontier, LaterOf(p.sequence + p.count, frontier) - frontier)
  {
    hide SliceOf, Complete, Gap, Live, Canonical;
    if p.sequence >= frontier {
      GapIsCanonical(canonical, retransmit, frontier, p.sequence);
      LiveIsCanonical(canonical, p, 0);
      CanonicalJoins(canonical, frontier, p.sequence - frontier, p.count);
    } else if p.sequence + p.count > frontier {
      LiveIsCanonical(canonical, p, frontier - p.sequence);
    }
  }

  lemma GapIsCanonical(canonical: nat -> seq<byte>, retransmit: Retransmit, from: nat, end: nat)
    requires Complete(retransmit, canonical) && from <= end
    ensures Gap(retransmit, from, end) == Canonical(canonical, from, end - from)
  {
    forall i | 0 <= i < end - from
      ensures Gap(retransmit, from, end)[i] == Canonical(canonical, from, end - from)[i]
    {
      assert retransmit.value(from + i) == Some(canonical(from + i));
      assert Recovered(retransmit, from + i) == FateOf(canonical(from + i), from + i);
      assert Gap(retransmit, from, end)[i] == Recovered(retransmit, from + i);
      assert Canonical(canonical, from, end - from)[i] == FateOf(canonical(from + i), from + i);
    }
  }

  lemma LiveIsCanonical(canonical: nat -> seq<byte>, p: Packet, from: nat)
    requires SliceOf(p, canonical) && from <= p.count
    ensures Live(p, from) == Canonical(canonical, p.sequence + from, p.count - from)
  {
    hide Decode, Whole, BlockOffset, BlockAt;
    IntactWhole(p);
    forall i | 0 <= i < p.count - from
      ensures Live(p, from)[i] == Canonical(canonical, p.sequence + from, p.count - from)[i]
    {
      assert Block(p, from + i) == Some(canonical(p.sequence + (from + i)));
      assert LiveFate(p, from + i) == FateOf(canonical(p.sequence + from + i), p.sequence + from + i);
      assert Live(p, from)[i] == LiveFate(p, from + i);
      assert Canonical(canonical, p.sequence + from, p.count - from)[i]
        == FateOf(canonical(p.sequence + from + i), p.sequence + from + i);
    }
  }

  // ---------- the sender's side ----------

  function MoldHeader(sequence: nat, count: nat): (header: seq<byte>)
    ensures |header| == HEADER_SIZE
  {
    PutBigEndian(0, 10) + PutBigEndian(sequence, 8) + PutBigEndian(count, 2)
  }

  function MoldPacket(sequence: nat, messages: seq<seq<byte>>): seq<byte> {
    MoldHeader(sequence, |messages|) + FrameAll(messages)
  }

  lemma HeaderParsed(sequence: nat, count: nat, blocks: seq<byte>)
    requires sequence < Bound(8) && count < Bound(2)
    ensures
      var data := MoldHeader(sequence, count) + blocks;
      Parse(data) == Some(Packet(data, sequence, count))
  {
    var session, number, announced := PutBigEndian(0, 10), PutBigEndian(sequence, 8), PutBigEndian(count, 2);
    assert MoldHeader(sequence, count) + blocks == session + number + (announced + blocks);
    FieldAt(session, sequence, 8, announced + blocks);
    FieldAt(session + number, count, 2, blocks);
  }

  lemma BlockPut(before: seq<byte>, message: seq<byte>, behind: seq<byte>)
    requires |message| < Bound(2)
    ensures BlockAt(before + Framed(message) + behind, |before|) == Some(message)
  {
    var prefix := PutBigEndian(|message|, 2);
    var data := before + Framed(message) + behind;
    assert data == before + prefix + (message + behind);
    FieldAt(before, |message|, 2, message + behind);
    assert data[|before| + 2..|before| + 2 + |message|] == message;
  }

  /** The blocks, cut around one of them. */
  lemma CutAround(messages: seq<seq<byte>>, i: nat)
    requires i < |messages|
    ensures FrameAll(messages) == FrameAll(messages[..i]) + Framed(messages[i]) + FrameAll(messages[i + 1..])
    ensures |FrameAll(messages[..i + 1])| == |FrameAll(messages[..i])| + 2 + |messages[i]|
  {
    hide PutBigEndian;
    FrameAllSplits(messages, i);
    assert messages[i..][0] == messages[i] && messages[i..][1..] == messages[i + 1..];
    FrameAllSplits(messages[..i + 1], i);
    assert messages[..i + 1][..i] == messages[..i] && messages[..i + 1][i..] == [messages[i]];
    assert FrameAll([messages[i]]) == Framed(messages[i]) + FrameAll([]);
  }

  lemma BlockThere(sequence: nat, messages: seq<seq<byte>>, i: nat)
    requires i < |messages| && |messages[i]| < Bound(2)
    ensures BlockAt(MoldPacket(sequence, messages), HEADER_SIZE + |FrameAll(messages[..i])|) == Some(messages[i])
  {
    hide BlockAt, PutBigEndian, Framed, FrameAll, Bound;
    CutAround(messages, i);
    var before, behind := MoldHeader(sequence, |messages|) + FrameAll(messages[..i]), FrameAll(messages[i + 1..]);
    assert MoldPacket(sequence, messages) == before + Framed(messages[i]) + behind;
    BlockPut(before, messages[i], behind);
  }

  lemma {:induction false} BlocksPut(sequence: nat, messages: seq<seq<byte>>, i: nat)
    requires i <= |messages| && forall j :: 0 <= j < |messages| ==> |messages[j]| < Bound(2)
    ensures BlockOffset(MoldPacket(sequence, messages), i) == Some(HEADER_SIZE + |FrameAll(messages[..i])|)
  {
    hide BlockAt, MoldPacket, Framed, Bound;
    if i > 0 {
      BlocksPut(sequence, messages, i - 1);
      BlockThere(sequence, messages, i - 1);
      CutAround(messages, i - 1);
    }
  }

  /** A packet built from consecutive messages of a stream is a slice of it. */
  lemma PacketIsSlice(sequence: nat, messages: seq<seq<byte>>, canonical: nat -> seq<byte>)
    requires sequence < Bound(8) && |messages| < Bound(2)
    requires forall j :: 0 <= j < |messages| ==> |messages[j]| < Bound(2) && messages[j] == canonical(sequence + j)
    ensures
      var p := Parse(MoldPacket(sequence, messages));
      p.Some? && p.value.sequence == sequence && p.value.count == |messages| && SliceOf(p.value, canonical)
  {
    hide BlockAt, Framed, Bound, Parse, BlockOffset, FrameAll;
    HeaderParsed(sequence, |messages|, FrameAll(messages));
    var p := Parse(MoldPacket(sequence, messages)).value;
    BlocksPut(sequence, messages, |messages|);
    forall i | 0 <= i < |messages|
      ensures Block(p, i) == Some(canonical(sequence + i))
    {
      BlocksPut(sequence, messages, i);
      BlockThere(sequence, messages, i);
    }
  }

  // ---------- packets by their bytes ----------

  /** A header has twenty bytes: the number of the first message at 10, the count of
      messages at 18. */
  lemma HeaderByBytes(datagram: seq<byte>)
    ensures Parse(datagram).None? <==> |datagram| < 20
    ensures Parse(datagram).Some? ==>
      var p := Parse(datagram).value;
      && p.data == datagram && p.sequence == Field(datagram, 10, 8)
      && p.count == 256 * (datagram[18] as int) + datagram[19]
  {
    if |datagram| >= 20 {
      TwoBytes(datagram, 18);
    }
    hide Field;
  }

  /** Of the datagrams those carry messages that have a header whose count is neither
      zero nor all ones. */
  lemma DataPacketsByBytes(datagram: seq<byte>, later: seq<seq<byte>>)
    ensures DataPackets([datagram] + later) ==
      if |datagram| < 20 then DataPackets(later)
      else
        var count := 256 * (datagram[18] as int) + datagram[19];
        if count == 0 || count == 65535 then DataPackets(later)
        else [Packet(datagram, Field(datagram, 10, 8), count)] + DataPackets(later)
  {
    HeaderByBytes(datagram);
    assert ([datagram] + later)[1..] == later;
    hide Field;
  }

  /** A block is as long as the two bytes before it say; the first one starts behind
      the header, each further one behind the one before. */
  lemma BlocksByBytes(p: Packet, i: nat, offset: nat)
    requires BlockOffset(p.data, i) == Some(offset)
    ensures i == 0 ==> offset == 20
    ensures Block(p, i).None? <==>
      || |p.data| < offset + 2
      || |p.data| < offset + 2 + 256 * (p.data[offset] as int) + p.data[offset + 1]
    ensures Block(p, i).Some? ==>
      var length := 256 * (p.data[offset] as int) + p.data[offset + 1];
      && Block(p, i).value == p.data[offset + 2..offset + 2 + length]
      && BlockOffset(p.data, i + 1) == Some(offset + 2 + length)
  {
    if offset + 2 <= |p.data| {
      TwoBytes(p.data, offset);
    }
    hide Field;
  }

  // ---------- what is delivered, by what the messages decode to ----------

  /** The event for every message that decodes to one, and nothing else, under the
      number of the message and otherwise as it was decoded. */
  ghost predicate EachOnce(canonical: nat -> seq<byte>, first: nat, end: nat, events: seq<MarketDataEvent>) {
    && (forall i :: 0 <= i < |events| ==>
          && first <= events[i].sequence < end
          && Decode(canonical(events[i].sequence)).Event?
          && events[i] == Decode(canonical(events[i].sequence)).event.(sequence := events[i].sequence))
    && (forall i, j :: 0 <= i < j < |events| ==> events[i].sequence < events[j].sequence)
    && (forall n :: first <= n < end && Decode(canonical(n)).Event? ==> HasNumber(events, n))
  }

  ghost predicate HasNumber(events: seq<MarketDataEvent>, n: nat) {
    exists i :: 0 <= i < |events| && events[i].sequence == n
  }

  lemma {:induction false} CanonicalDelivers(canonical: nat -> seq<byte>, first: nat, n: nat)
    ensures EachOnce(canonical, first, first + n, Deliveries(Canonical(canonical, first, n)))
  {
    hide Decode, EachOnce, Canonical, FateOf, Deliveries;
    CanonicalStep(canonical, first, n);
    if n > 0 {
      var before := Canonical(canonical, first, n - 1);
      CanonicalDelivers(canonical, first, n - 1);
      FateByDecode(canonical(first + n - 1), first + n - 1);
      AppendFate(before, FateOf(canonical(first + n - 1), first + n - 1));
      OneMoreDelivery(canonical, first, first + n - 1, Deliveries(before));
    } else {
      NothingDue(canonical, first);
    }
  }

  lemma CanonicalStep(canonical: nat -> seq<byte>, first: nat, n: nat)
    ensures n == 0 ==> Canonical(canonical, first, n) == []
    ensures n > 0 ==>
      Canonical(canonical, first, n)
      == Canonical(canonical, first, n - 1) + [FateOf(canonical(first + n - 1), first + n - 1)]
  {
    hide FateOf;
  }

  lemma NothingDue(canonical: nat -> seq<byte>, first: nat)
    ensures EachOnce(canonical, first, first, Deliveries([]))
  {
  }

  /** What becomes of a message is settled by what it decodes to. */
  lemma FateByDecode(payload: seq<byte>, n: nat)
    ensures FateOf(payload, n) == Bad <==> Decode(payload).Malformed?
    ensures FateOf(payload, n) == Ignored <==> Decode(payload).Skipped?
    ensures FateOf(payload, n).Delivered? <==> Decode(payload).Event?
    ensures Decode(payload).Event? ==> FateOf(payload, n).event == Decode(payload).event.(sequence := n)
  {
    hide Decode;
  }

  lemma OneMoreDelivery(canonical: nat -> seq<byte>, first: nat, n: nat, events: seq<MarketDataEvent>)
    requires first <= n && EachOnce(canonical, first, n, events)
    ensures
      var decoded := Decode(canonical(n));
      EachOnce(canonical, first, n + 1,
               events + if decoded.Event? then [decoded.event.(sequence := n)] else [])
  {
    hide Decode;
    var decoded := Decode(canonical(n));
    var more := events + if decoded.Event? then [decoded.event.(sequence := n)] else [];
    forall m | first <= m < n + 1 && Decode(canonical(m)).Event?
      ensures HasNumber(more, m)
    {
      if m < n {
        assert HasNumber(events, m);
        var i :| 0 <= i < |events| && events[i].sequence == m;
        assert more[i].sequence == m;
      } else {
        assert more[|events|].sequence == n;
      }
    }
  }

  /** The largest end is that of some packet, and no packet reaches beyond it. */
  lemma {:induction false} LargestEndIsLargest(packets: seq<Packet>)
    ensures forall i :: 0 <= i < |packets| ==> packets[i].sequence + packets[i].count <= LargestEnd(packets)
    ensures packets != [] ==>
      exists i :: 0 <= i < |packets| && packets[i].sequence + packets[i].count == LargestEnd(packets)
  {
    if packets != [] {
      var n := |packets| - 1;
      LargestEndIsLargest(packets[..n]);
      if LargestEnd(packets) == packets[n].sequence + packets[n].count {
      } else {
        var i :| 0 <= i < n && packets[i].sequence + packets[i].count == LargestEnd(packets[..n]);
      }
    }
  }

  /** The packets that start beyond everything seen before them. */
  ghost function Jumps(packets: seq<Packet>): set<nat> {
    set i | 0 < i < |packets| && packets[i].sequence > LargestEnd(packets[..i])
  }

  lemma JumpsStep(packets: seq<Packet>, p: Packet)
    requires packets != []
    ensures |Jumps(packets + [p])| == |Jumps(packets)| + if p.sequence > LargestEnd(packets) then 1 else 0
  {
    hide LargestEnd;
    var all, n := packets + [p], |packets|;
    assert all[..n] == packets;
    forall i | 0 < i < n
      ensures all[..i] == packets[..i] && all[i] == packets[i]
    {
    }
    assert Jumps(all) == Jumps(packets) + if p.sequence > LargestEnd(packets) then {n} else {};
  }

  /** Packets that are not cut short account for every number up to the largest end. */
  lemma {:induction false} AccountReaches(retransmit: Retransmit, packets: seq<Packet>)
    requires packets != [] && forall i :: 0 <= i < |packets| ==> Intact(packets[i])
    ensures LargestEnd(packets) == packets[0].sequence + |Account(retransmit, packets)|
  {
    hide Intact, Whole, Recovered, LiveFate;
    var n := |packets| - 1;
    IntactWhole(packets[n]);
    if n > 0 {
      AccountReaches(retransmit, packets[..n]);
    }
  }

  /** Those and no other packets find a gap. */
  lemma {:induction false} GapsByNumbers(retransmit: Retransmit, packets: seq<Packet>)
    requires packets != [] && forall i :: 0 <= i < |packets| ==> Intact(packets[i])
    ensures Gaps(retransmit, packets) == |Jumps(packets)|
  {
    hide Intact, Account, Gaps, LargestEnd;
    var n := |packets| - 1;
    var init := packets[..n];
    assert init + [packets[n]] == packets;
    GapsStep(retransmit, init, packets[n]);
    if n > 0 {
      GapsByNumbers(retransmit, init);
      AccountReaches(retransmit, init);
      JumpsStep(init, packets[n]);
    } else {
      NoGaps(retransmit);
      assert Jumps(packets) == {};
    }
  }

  lemma NoGaps(retransmit: Retransmit)
    ensures Gaps(retransmit, []) == 0
  {
  }
}
