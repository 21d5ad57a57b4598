/** The connectors over byte streams: the length-framed ITCH file, and the
    SoupBinTCP session whose sequenced packets carry one ITCH message each. */
module ItchStreams {
  import opened MarketTypes
  import opened ItchDecoders
  import opened ReadWindows

  /** What one call of `next` gives: an event or the end, whether the stream
      failed or its session ended, and what is left of it. */
  datatype Pulled = Pulled(event: Option<MarketDataEvent>, failed: bool, ended: bool, sequence: nat, rest: seq<byte>)

  /** Which framing a stream uses. */
  datatype Framing = ItchFile | SoupBinTcp

  const SOUP_END := 'Z' as int
  const SOUP_SEQUENCED := 'S' as int

  /** What a packet of the stream carries: the end of the session, an ITCH
      message, or nothing for the book. */
  datatype Content = EndOfSession | Message(data: seq<byte>) | Nothing

  function ContentOf(framing: Framing, body: seq<byte>): Content
    requires body != []
  {
    if framing == ItchFile then Message(body)
    else if body[0] == SOUP_END then EndOfSession
    else if body[0] == SOUP_SEQUENCED then Message(body[1..])
    else Nothing
  }

  /** The number after a message: a session numbers every sequenced message, a file
      only the events. */
  function Count(framing: Framing, sequence: nat, data: seq<byte>): nat {
    if framing == SoupBinTcp || Decode(data).Event? then sequence + 1 else sequence
  }

  function Pull(framing: Framing, bytes: seq<byte>, sequence: nat): (p: Pulled)
    ensures |p.rest| <= |bytes| && (p.event.Some? ==> |p.rest| < |bytes| && !p.failed && !p.ended)
    decreases |bytes|
  {
    match FirstFrame(bytes)
    case End => Pulled(None, false, false, sequence, bytes)
    case Broken => Pulled(None, true, false, sequence, bytes)
    case Whole(body) =>
      var rest := bytes[2 + |body|..];
      match ContentOf(framing, body)
      case EndOfSession => Pulled(None, false, true, sequence, rest)
      case Nothing => Pull(framing, rest, sequence)
      case Message(data) =>
        var n := Count(framing, sequence, data);
        match Decode(data)
        case Malformed => Pulled(None, true, false, n, rest)
        case Skipped => Pull(framing, rest, n)
        case Event(event) => Pulled(Some(event.(sequence := n)), false, false, n, rest)
  }

  class StreamConnector {
    const framing: Framing
    const window: ReadWindow
    var sequence: nat
    var messagesDecoded: nat
    var bytesConsumed: nat
    var failed: bool
    var endOfSession: bool

    ghost predicate Valid()
      reads this, window
    {
      window.Valid()
    }

    ghost function Unread(): seq<byte>
      requires Valid()
      reads this, window, window.buffer, window.input
    {
      window.Unread()
    }

    constructor (framing: Framing, window: ReadWindow)
      requires window.Valid()
      ensures Valid() && this.framing == framing && this.window == window
      ensures sequence == 0 && messagesDecoded == 0 && bytesConsumed == 0 && !failed && !endOfSession
    {
      this.framing, this.window := framing, window;
      sequence, messagesDecoded, bytesConsumed, failed, endOfSession := 0, 0, 0, false, false;
    }

    /** The connector after a call that gave `event`, when the call began with the
        given flags and `p` is what it had to give. */
    ghost predicate After(p: Pulled, event: Option<MarketDataEvent>, failedWas: bool, endedWas: bool)
      requires Valid()
      reads this, window, window.buffer, window.input
    {
      && event == p.event && Unread() == p.rest && sequence == p.sequence
      && failed == (failedWas || p.failed) && endOfSession == (endedWas || p.ended)
    }

    method Next() returns (event: Option<MarketDataEvent>)
      requires Valid()
      modifies this, window, window.buffer, window.input
      ensures Valid() && (window.buffer == old(window.buffer) || fresh(window.buffer))
      ensures After(Pull(framing, old(Unread()), old(sequence)), event, old(failed), old(endOfSession))
      ensures messagesDecoded == old(messagesDecoded) + (if event.Some? then 1 else 0)
      ensures bytesConsumed + |Unread()| == old(bytesConsumed) + old(|Unread()|)
    {
      ghost var p := Pull(framing, Unread(), sequence);
      event := None;
      var searching := true;
      while searching
        invariant Valid() && (window.buffer == old(window.buffer) || fresh(window.buffer))
        invariant searching ==>
          && failed == old(failed) && endOfSession == old(endOfSession)
          && Pull(framing, Unread(), sequence) == p
        invariant !searching ==> After(p, event, old(failed), old(endOfSession))
        invariant bytesConsumed + |Unread()| == old(bytesConsumed) + old(|Unread()|)
        invariant messagesDecoded == old(messagesDecoded) + (if !searching && event.Some? then 1 else 0)
        decreases searching, |Unread()|
      {
        hide Pull, After;
        event, searching := NextPacket();
      }
    }

    /** One packet: it settles what the call gives, or leaves that to the rest. */
    method NextPacket() returns (event: Option<MarketDataEvent>, searching: bool)
      requires Valid()
      modifies this, window, window.buffer, window.input
      ensures Valid() && (window.buffer == old(window.buffer) || fresh(window.buffer))
      ensures searching ==>
        && event == None && failed == old(failed) && endOfSession == old(endOfSession)
        && |Unread()| < old(|Unread()|)
        && Pull(framing, Unread(), sequence) == Pull(framing, old(Unread()), old(sequence))
      ensures !searching ==>
        After(Pull(framing, old(Unread()), old(sequence)), event, old(failed), old(endOfSession))
      ensures messagesDecoded == old(messagesDecoded) + (if event.Some? then 1 else 0)
      ensures bytesConsumed + |Unread()| == old(bytesConsumed) + old(|Unread()|)
    {
      hide Decode, FirstFrame;
      var frame := window.TakeFrame();
      event, searching := None, false;
      match frame {
        case End =>
        case Broken =>
          failed := true;
        case Whole(body) =>
          bytesConsumed := bytesConsumed + 2 + |body|;
          match ContentOf(framing, body) {
            case EndOfSession =>
              endOfSession := true;
            case Nothing =>
              searching := true;
            case Message(data) =>
              event, searching := Decoded(data);
          }
      }
    }

    /** One message: an event to return, a reason to stop, or neither. */
    method Decoded(data: seq<byte>) returns (event: Option<MarketDataEvent>, searching: bool)
      modifies this`sequence, this`messagesDecoded, this`failed
      ensures sequence == Count(framing, old(sequence), data)
      ensures event == if Decode(data).Event? then Some(Decode(data).event.(sequence := sequence)) else None
      ensures searching == Decode(data).Skipped?
      ensures failed == (old(failed) || Decode(data).Malformed?)
      ensures messagesDecoded == old(messagesDecoded) + (if event.Some? then 1 else 0)
    {
      var r := DecodeMessage(data);
      if framing == SoupBinTcp || r.Event? {
        sequence := sequence + 1;
      }
      event, searching := None, r.Skipped?;
      if r.Malformed? {
        failed := true;
      } else if r.Event? {
        event := Some(r.event.(sequence := sequence));
        messagesDecoded := messagesDecoded + 1;
      }
    }
  }

  // ---------- whole streams ----------

  datatype Stream = Stream(events: seq<MarketDataEvent>, failed: bool, ended: bool)

  /** What calling `next` until it gives nothing yields. */
  function Drained(framing: Framing, bytes: seq<byte>, sequence: nat): Stream
    decreases |bytes|
  {
    var p := Pull(framing, bytes, sequence);
    if p.event.None? then Stream([], p.failed, p.ended)
    else
      var later := Drained(framing, p.rest, p.sequence);
      later.(events := [p.event.value] + later.events)
  }

  /** The events so far, then what the latest call gave and what follows it. */
  ghost predicate Draining(whole: Stream, framing: Framing, events: seq<MarketDataEvent>, p: Pulled) {
    whole ==
      if p.event.None? then Stream(events, p.failed, p.ended)
      else
        var later := Drained(framing, p.rest, p.sequence);
        later.(events := events + ([p.event.value] + later.events))
  }

  lemma DrainingOn(whole: Stream, framing: Framing, events: seq<MarketDataEvent>, p: Pulled)
    requires p.event.Some? && Draining(whole, framing, events, p)
    ensures Draining(whole, framing, events + [p.event.value], Pull(framing, p.rest, p.sequence))
  {
    hide Pull;
    var later := Drained(framing, p.rest, p.sequence);
    assert events + ([p.event.value] + later.events) == (events + [p.event.value]) + later.events;
  }

  method Drain(connector: StreamConnector) returns (events: seq<MarketDataEvent>)
    requires connector.Valid() && !connector.failed && !connector.endOfSession
    modifies connector, connector.window, connector.window.buffer, connector.window.input
    ensures connector.Valid() && connector.messagesDecoded == old(connector.messagesDecoded) + |events|
    ensures Stream(events, connector.failed, connector.endOfSession)
         == Drained(connector.framing, old(connector.Unread()), old(connector.sequence))
  {
    ghost var whole := Drained(connector.framing, connector.Unread(), connector.sequence);
    ghost var p := Pull(connector.framing, connector.Unread(), connector.sequence);
    events := [];
    assert Draining(whole, connector.framing, events, p);
    hide Pull, Drained, Draining;
    var event := connector.Next();
    while event.Some?
      invariant connector.Valid()
        && (connector.window.buffer == old(connector.window.buffer) || fresh(connector.window.buffer))
      invariant p.event.Some? ==> !p.failed && !p.ended
      invariant connector.After(p, event, false, false)
      invariant Draining(whole, connector.framing, events, p)
      invariant connector.messagesDecoded == old(connector.messagesDecoded) + |events| + if event.Some? then 1 else 0
      decreases event.Some?, |connector.Unread()|
    {
      DrainingOn(whole, connector.framing, events, p);
      p := Pull(connector.framing, p.rest, p.sequence);
      events := events + [event.value];
      event := connector.Next();
    }
    assert Draining(whole, connector.framing, events, p) ==> whole == Stream(events, p.failed, p.ended) by {
      DrainedAll(whole, connector.framing, events, p);
    }
  }

  lemma DrainedAll(whole: Stream, framing: Framing, events: seq<MarketDataEvent>, p: Pulled)
    requires p.event.None?
    ensures Draining(whole, framing, events, p) ==> whole == Stream(events, p.failed, p.ended)
  {
  }

  /** The same bytes, once held in memory and once read from a file in whatever
      portions it hands out, give the same events and end the same way. */
  method EitherWay(framing: Framing, bytes: seq<byte>, capacity: nat)
    returns (held: StreamConnector, read: StreamConnector, a: seq<MarketDataEvent>, b: seq<MarketDataEvent>)
    requires capacity > 0
    ensures a == b && held.failed == read.failed && held.endOfSession == read.endOfSession
    ensures Stream(a, held.failed, held.endOfSession) == Drained(framing, bytes, 0)
  {
    hide Pull, Drained;
    var memory := new ReadWindow.InMemory(bytes);
    held := new StreamConnector(framing, memory);
    a := Drain(held);
    var file := new ByteSource(bytes);
    var window := new ReadWindow.Over(file, capacity);
    read := new StreamConnector(framing, window);
    b := Drain(read);
  }

  /** What a list of packets means, whatever their framing. */
  function Meaning(framing: Framing, bodies: seq<seq<byte>>, sequence: nat): Stream
    requires forall i :: 0 <= i < |bodies| ==> bodies[i] != []
  {
    if bodies == [] then Stream([], false, false)
    else
      match ContentOf(framing, bodies[0])
      case EndOfSession => Stream([], false, true)
      case Nothing => Meaning(framing, bodies[1..], sequence)
      case Message(data) =>
        var n := Count(framing, sequence, data);
        match Decode(data)
        case Malformed => Stream([], true, false)
        case Skipped => Meaning(framing, bodies[1..], n)
        case Event(event) =>
          var later := Meaning(framing, bodies[1..], n);
          later.(events := [event.(sequence := n)] + later.events)
  }

  lemma {:induction false} FramingUndone(framing: Framing, bodies: seq<seq<byte>>, sequence: nat)
    requires forall i :: 0 <= i < |bodies| ==> 0 < |bodies[i]| < 0x1_0000
    ensures Drained(framing, FrameAll(bodies), sequence) == Meaning(framing, bodies, sequence)
    decreases |bodies|
  {
    hide Decode, FirstFrame, Framed;
    if bodies != [] {
      var body, behind := bodies[0], FrameAll(bodies[1..]);
      FirstOfFramed(body, behind);
      FramingUndone(framing, bodies[1..], sequence);
      match ContentOf(framing, body) {
        case EndOfSession =>
        case Nothing =>
        case Message(data) =>
          FramingUndone(framing, bodies[1..], Count(framing, sequence, data));
      }
    } else {
      EmptyEnds();
    }
  }

  lemma EmptyEnds()
    ensures FirstFrame([]) == End
  {
  }

  /** The packet that carries an event. */
  function Carrier(framing: Framing, e: MarketDataEvent): seq<byte>
    requires InRange(e)
  {
    if framing == ItchFile then Encode(e) else [SOUP_SEQUENCED] + Encode(e)
  }

  function Carriers(framing: Framing, events: seq<MarketDataEvent>): seq<seq<byte>>
    requires forall i :: 0 <= i < |events| ==> InRange(events[i])
  {
    seq(|events|, i requires 0 <= i < |events| => Carrier(framing, events[i]))
  }

  /** Events as they come off the wire, numbered behind `sequence`. */
  function Numbered(events: seq<MarketDataEvent>, sequence: nat): seq<MarketDataEvent> {
    seq(|events|, i requires 0 <= i < |events| => OnWire(events[i]).(sequence := sequence + 1 + i))
  }

  lemma CarrierCarries(framing: Framing, e: MarketDataEvent)
    requires InRange(e)
    ensures 0 < |Carrier(framing, e)| < 0x1_0000
    ensures ContentOf(framing, Carrier(framing, e)) == Message(Encode(e))
  {
  }

  lemma {:induction false} CarriersMean(framing: Framing, events: seq<MarketDataEvent>, sequence: nat)
    requires forall i :: 0 <= i < |events| ==> InRange(events[i])
    ensures forall i :: 0 <= i < |events| ==> 0 < |Carrier(framing, events[i])| < 0x1_0000
    ensures Meaning(framing, Carriers(framing, events), sequence) == Stream(Numbered(events, sequence), false, false)
    decreases |events|
  {
    hide Decode, EncodeTracked, OnWire, Carrier, ContentOf;
    if events != [] {
      var e, behind := events[0], events[1..];
      DecodeUndoesEncode(e, 0);
      CarriersMean(framing, behind, sequence + 1);
      assert Carriers(framing, events)[1..] == Carriers(framing, behind);
      CarrierCarries(framing, e);
      assert Numbered(events, sequence) == [OnWire(e).(sequence := sequence + 1)] + Numbered(behind, sequence + 1);
    }
  }

  /** In-range events, encoded and framed, come back as they were, numbered 1..N,
      without failure. */
  lemma EventsRoundTrip(framing: Framing, events: seq<MarketDataEvent>)
    requires forall i :: 0 <= i < |events| ==> InRange(events[i])
    ensures Drained(framing, FrameAll(Carriers(framing, events)), 0) == Stream(Numbered(events, 0), false, false)
  {
    CarriersMean(framing, events, 0);
    FramingUndone(framing, Carriers(framing, events), 0);
  }

  // ---------- after a failure ----------

  lemma {:induction false} WholeFrameIsTaken(framing: Framing, bytes: seq<byte>, sequence: nat)
    requires FirstFrame(bytes).Whole?
    ensures |Pull(framing, bytes, sequence).rest| < |bytes|
  {
  }

  /** A failed stream stays where it is, call after call, exactly when it failed at
      a frame that is empty or cut short. A malformed message is passed over. */
  lemma {:induction false} FailureIsFinal(framing: Framing, bytes: seq<byte>, sequence: nat)
    ensures
      var p := Pull(framing, bytes, sequence);
      p.failed ==> (Pull(framing, p.rest, p.sequence) == p <==> FirstFrame(p.rest).Broken?)
    decreases |bytes|
  {
    var p := Pull(framing, bytes, sequence);
    if FirstFrame(p.rest).Whole? {
      WholeFrameIsTaken(framing, p.rest, p.sequence);
    }
    match FirstFrame(bytes) {
      case End =>
      case Broken =>
      case Whole(body) =>
        var rest := bytes[2 + |body|..];
        match ContentOf(framing, body) {
          case EndOfSession =>
          case Nothing =>
            FailureIsFinal(framing, rest, sequence);
          case Message(data) =>
            FailureIsFinal(framing, rest, Count(framing, sequence, data));
        }
    }
  }

  /** The shortest malformed packet: an Add Order message without its fields. */
  function CutAdd(framing: Framing): seq<byte> {
    if framing == ItchFile then [TAG_ADD] else [SOUP_SEQUENCED, TAG_ADD]
  }

  /** A stream of that packet and a good one: the first call fails, and the second
      returns the event. */
  lemma ReturnsAnEventAfterFailing(framing: Framing, e: MarketDataEvent, sequence: nat)
    requires InRange(e)
    ensures
      var p := Pull(framing, Framed(CutAdd(framing)) + Framed(Carrier(framing, e)), sequence);
      var q := Pull(framing, p.rest, p.sequence);
      && p.failed && p.event == None
      && !q.failed && q.event == Some(OnWire(e).(sequence := p.sequence + 1)) && q.rest == []
  {
    hide EncodeTracked, OnWire, Framed, Decode, Field, FirstFrame, LayoutOf, OptionalField, SideOf;
    CutAddIsMalformed(framing);
    FirstOfFramed(CutAdd(framing), Framed(Carrier(framing, e)));
    CarrierCarries(framing, e);
    DecodeUndoesEncode(e, 0);
    FirstOfFramed(Carrier(framing, e), []);
    assert Framed(Carrier(framing, e)) + [] == Framed(Carrier(framing, e));
  }

  lemma CutAddIsMalformed(framing: Framing)
    ensures ContentOf(framing, CutAdd(framing)) == Message([TAG_ADD]) && Decode([TAG_ADD]) == Malformed
  {
  }

  // ---------- one packet at a time, by its bytes ----------

  /** A file: a frame is one message. An event gets the next number; nothing else
      counts. A malformed message fails the call, which has passed over it. */
  lemma FileFrame(bytes: seq<byte>, sequence: nat)
    requires |bytes| >= 2
    ensures
      var length := 256 * (bytes[0] as int) + bytes[1];
      var p := Pull(ItchFile, bytes, sequence);
      if length == 0 || |bytes| < 2 + length then p == Pulled(None, true, false, sequence, bytes)
      else
        var message, rest := bytes[2..2 + length], bytes[2 + length..];
        && (Decode(message).Event? ==>
              p == Pulled(Some(Decode(message).event.(sequence := sequence + 1)), false, false, sequence + 1, rest))
        && (Decode(message).Malformed? ==> p == Pulled(None, true, false, sequence, rest))
        && (Decode(message).Skipped? ==> p == Pull(ItchFile, rest, sequence))
  {
    FrameByBytes(bytes);
    hide Decode;
  }

  /** A session: a frame is a packet whose type is its first byte. A sequenced packet,
      type S, takes the next number whatever its message is; type Z ends the session;
      every other type is passed over and has no number. */
  lemma SessionFrame(bytes: seq<byte>, sequence: nat)
    requires |bytes| >= 2
    ensures
      var length := 256 * (bytes[0] as int) + bytes[1];
      var p := Pull(SoupBinTcp, bytes, sequence);
      if length == 0 || |bytes| < 2 + length then p == Pulled(None, true, false, sequence, bytes)
      else
        var message, rest := bytes[3..2 + length], bytes[2 + length..];
        && (bytes[2] as char == 'Z' ==> p == Pulled(None, false, true, sequence, rest))
        && (bytes[2] as char !in {'S', 'Z'} ==> p == Pull(SoupBinTcp, rest, sequence))
        && (bytes[2] as char == 'S' && Decode(message).Event? ==>
              p == Pulled(Some(Decode(message).event.(sequence := sequence + 1)), false, false, sequence + 1, rest))
        && (bytes[2] as char == 'S' && Decode(message).Malformed? ==>
              p == Pulled(None, true, false, sequence + 1, rest))
        && (bytes[2] as char == 'S' && Decode(message).Skipped? ==> p == Pull(SoupBinTcp, rest, sequence + 1))
  {
    FrameByBytes(bytes);
    hide Decode;
    var length := 256 * (bytes[0] as int) + bytes[1];
    if 0 < length && 2 + length <= |bytes| {
      assert bytes[2..2 + length][1..] == bytes[3..2 + length];
    }
  }

  /** Messages of a session, one in each sequenced packet. */
  function Sequenced(messages: seq<seq<byte>>): seq<byte> {
    if messages == [] then [] else Framed(['S' as int] + messages[0]) + Sequenced(messages[1..])
  }

  /** An event behind any number of messages that are skipped: a session numbers it by
      its place among all of them, a file by its place among the events. */
  lemma {:induction false} SkippedMessagesCount(skipped: seq<seq<byte>>, message: seq<byte>, sequence: nat)
    requires forall i :: 0 <= i < |skipped| ==> Decode(skipped[i]).Skipped? && |skipped[i]| < 0xFFFF
    requires Decode(message).Event? && |message| < 0xFFFF
    ensures Pull(SoupBinTcp, Sequenced(skipped + [message]), sequence).event
         == Some(Decode(message).event.(sequence := sequence + |skipped| + 1))
    ensures Pull(ItchFile, FrameAll(skipped + [message]), sequence).event
         == Some(Decode(message).event.(sequence := sequence + 1))
    decreases |skipped|
  {
    hide Decode, FirstFrame, Framed;
    var all := skipped + [message];
    FirstOfFramed(['S' as int] + all[0], Sequenced(all[1..]));
    NotEmpty(all[0]);
    FirstOfFramed(all[0], FrameAll(all[1..]));
    if skipped != [] {
      assert all[1..] == skipped[1..] + [message];
      SkippedMessagesCount(skipped[1..], message, sequence + 1);
      SkippedMessagesCount(skipped[1..], message, sequence);
    }
  }

  lemma NotEmpty(message: seq<byte>)
    requires !Decode(message).Malformed?
    ensures message != []
  {
  }
}
