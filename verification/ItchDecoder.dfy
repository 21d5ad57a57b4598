/** One de-framed NASDAQ TotalView-ITCH 5.0 message (sections 1.3 and 1.4): the
    decoder of the book-affecting subset, and the encoder it undoes. */
module ItchDecoders {
  import opened MarketTypes

  type byte = b: int | 0 <= b < 256

  // ---------- big-endian numbers ----------

  function BigEndian(data: seq<byte>): nat {
    if data == [] then 0 else 256 * BigEndian(data[..|data| - 1]) + data[|data| - 1]
  }

  /** The numbers that `width` bytes can hold. */
  function Bound(width: nat): nat {
    if width == 0 then 1 else 256 * Bound(width - 1)
  }

  function PutBigEndian(value: nat, width: nat): (data: seq<byte>)
    ensures |data| == width
  {
    if width == 0 then [] else PutBigEndian(value / 256, width - 1) + [value % 256]
  }

  lemma {:induction false} BigEndianRoundTrip(value: nat, width: nat)
    requires value < Bound(width)
    ensures BigEndian(PutBigEndian(value, width)) == value
  {
    if width > 0 {
      BigEndianRoundTrip(value / 256, width - 1);
      var data := PutBigEndian(value, width);
      assert data[..|data| - 1] == PutBigEndian(value / 256, width - 1);
    }
  }

  function Field(data: seq<byte>, at: nat, width: nat): nat
    requires at + width <= |data|
  {
    BigEndian(data[at..at + width])
  }

  /** One more byte shifts the number and adds itself. */
  lemma FieldStep(data: seq<byte>, at: nat, width: nat)
    requires at + width < |data|
    ensures Field(data, at, width + 1) == 256 * Field(data, at, width) + data[at + width]
  {
    var field := data[at..at + width + 1];
    assert field[..|field| - 1] == data[at..at + width];
  }

  function ReadBe16(data: seq<byte>, at: nat): (value: nat)
    requires at + 2 <= |data|
    ensures value == Field(data, at, 2) < 0x1_0000
  {
    FieldStep(data, at, 0);
    FieldStep(data, at, 1);
    256 * (data[at] as int) + data[at + 1]
  }

  function ReadBe32(data: seq<byte>, at: nat): (value: nat)
    requires at + 4 <= |data|
    ensures value == Field(data, at, 4)
  {
    FieldStep(data, at, 2);
    FieldStep(data, at, 3);
    0x1_0000 * ReadBe16(data, at) + 256 * (data[at + 2] as int) + data[at + 3]
  }

  /** The loop that the 48-bit and 64-bit readers share. */
  method ReadBeLong(data: seq<byte>, at: nat, width: nat) returns (value: nat)
    requires at + width <= |data|
    ensures value == Field(data, at, width)
  {
    value := 0;
    for i := 0 to width
      invariant value == Field(data, at, i)
    {
      FieldStep(data, at, i);
      value := 256 * value + data[at + i];
    }
  }

  // ---------- messages ----------

  datatype DecodeResult = Event(event: MarketDataEvent) | Skipped | Malformed

  const TAG_ADD := 'A' as int
  const TAG_ADD_MPID := 'F' as int
  const TAG_EXECUTED := 'E' as int
  const TAG_EXECUTED_WITH_PRICE := 'C' as int
  const TAG_CANCEL := 'X' as int
  const TAG_DELETE := 'D' as int
  const TAG_REPLACE := 'U' as int

  /** Where a message type keeps its fields. The stock locate code is at 1, the
      timestamp at 5 and the order reference at 11 in every one of them. */
  datatype Layout = Layout(
    kind: EventType,
    length: nat,
    newIdAt: Option<nat>,
    sideAt: Option<nat>,
    quantityAt: Option<nat>,
    priceAt: Option<nat>)

  function LayoutOf(tag: byte): Option<Layout> {
    if tag == TAG_ADD || tag == TAG_ADD_MPID then Some(Layout(Add, 36, None, Some(19), Some(20), Some(32)))
    else if tag == TAG_EXECUTED then Some(Layout(Trade, 31, None, None, Some(19), None))
    else if tag == TAG_EXECUTED_WITH_PRICE then Some(Layout(Trade, 36, None, None, Some(19), Some(32)))
    else if tag == TAG_CANCEL then Some(Layout(Reduce, 23, None, None, Some(19), None))
    else if tag == TAG_DELETE then Some(Layout(Cancel, 19, None, None, None, None))
    else if tag == TAG_REPLACE then Some(Layout(Replace, 35, Some(19), None, Some(27), Some(31)))
    else None
  }

  function SideOf(code: byte): Option<Side> {
    if code == 'B' as int then Some(Buy) else if code == 'S' as int then Some(Sell) else None
  }

  function OptionalField(data: seq<byte>, at: Option<nat>, width: nat): nat {
    if at.Some? && at.value + width <= |data| then Field(data, at.value, width) else 0
  }

  /** What a message means, read off the layout of its type. */
  function Decode(data: seq<byte>): DecodeResult {
    if data == [] then Malformed
    else
      match LayoutOf(data[0])
      case None => Skipped
      case Some(layout) =>
        if |data| < layout.length then Malformed
        else
          var side :=
            if layout.sideAt.Some? && layout.sideAt.value < |data| then SideOf(data[layout.sideAt.value])
            else Some(Buy);
          if side.None? then Malformed
          else Event(MarketDataEvent(
            0, OptionalField(data, Some(5), 6), OptionalField(data, Some(1), 2), layout.kind,
            OptionalField(data, Some(11), 8), OptionalField(data, layout.newIdAt, 8), side.value,
            OptionalField(data, layout.priceAt, 4), OptionalField(data, layout.quantityAt, 4)))
  }

  const BLANK := MarketDataEvent(0, 0, 0, Add, 0, 0, Buy, 0, 0)

  /** The decoder: a record filled field by field. */
  method DecodeMessage(data: seq<byte>) returns (r: DecodeResult)
    ensures r == Decode(data)
  {
    if |data| == 0 {
      return Malformed;
    }
    var tag := data[0];
    var event := BLANK;
    if |data| >= 3 {
      event := event.(symbol := ReadBe16(data, 1));
    }
    if tag == TAG_ADD || tag == TAG_ADD_MPID {
      if |data| < 36 {
        return Malformed;
      }
      event := ReadHeader(data, event.(kind := Add));
      var side := SideOf(data[19]);
      if side.None? {
        return Malformed;
      }
      event := event.(side := side.value, quantity := ReadBe32(data, 20), priceTicks := ReadBe32(data, 32));
    } else if tag == TAG_EXECUTED {
      if |data| < 31 {
        return Malformed;
      }
      event := ReadHeader(data, event.(kind := Trade));
      event := event.(quantity := ReadBe32(data, 19));
    } else if tag == TAG_EXECUTED_WITH_PRICE {
      if |data| < 36 {
        return Malformed;
      }
      event := ReadHeader(data, event.(kind := Trade));
      event := event.(quantity := ReadBe32(data, 19), priceTicks := ReadBe32(data, 32));
    } else if tag == TAG_CANCEL {
      if |data| < 23 {
        return Malformed;
      }
      event := ReadHeader(data, event.(kind := Reduce));
      event := event.(quantity := ReadBe32(data, 19));
    } else if tag == TAG_DELETE {
      if |data| < 19 {
        return Malformed;
      }
      event := ReadHeader(data, event.(kind := Cancel));
    } else if tag == TAG_REPLACE {
      if |data| < 35 {
        return Malformed;
      }
      event := ReadHeader(data, event.(kind := Replace));
      var newId := ReadBeLong(data, 19, 8);
      event := event.(newOrderId := newId, quantity := ReadBe32(data, 27), priceTicks := ReadBe32(data, 31));
    } else {
      return Skipped;
    }
    return Event(event);
  }

  /** The timestamp and the order reference, which every applied message has. */
  method ReadHeader(data: seq<byte>, event: MarketDataEvent) returns (filled: MarketDataEvent)
    requires |data| >= 19
    ensures filled == event.(exchangeTimestampNs := Field(data, 5, 6), orderId := Field(data, 11, 8))
  {
    var timestamp := ReadBeLong(data, 5, 6);
    var id := ReadBeLong(data, 11, 8);
    filled := event.(exchangeTimestampNs := timestamp, orderId := id);
  }

  // ---------- the encoder ----------

  predicate InRange(e: MarketDataEvent) {
    && e.kind != Modify && e.symbol < Bound(2)
    && e.exchangeTimestampNs < Bound(6) && e.orderId < Bound(8) && e.newOrderId < Bound(8)
    && e.quantity < Bound(4) && 0 <= e.priceTicks < Bound(4)
  }

  /** What the wire carries of an event: a message has no room for a sequence number
      or for fields its type lacks. */
  function OnWire(e: MarketDataEvent): MarketDataEvent {
    e.(sequence := 0,
       newOrderId := if e.kind == Replace then e.newOrderId else 0,
       side := if e.kind == Add then e.side else Buy,
       priceTicks := if e.kind == Add || e.kind == Replace || e.kind == Trade then e.priceTicks else 0,
       quantity := if e.kind == Cancel then 0 else e.quantity)
  }

  function Header(tag: byte, e: MarketDataEvent, tracking: nat): (data: seq<byte>)
    ensures |data| == 19 && data[0] == tag
  {
    [tag] + PutBigEndian(e.symbol, 2) + PutBigEndian(tracking, 2) + PutBigEndian(e.exchangeTimestampNs, 6)
      + PutBigEndian(e.orderId, 8)
  }

  function Blanks(n: nat): (data: seq<byte>)
    ensures |data| == n
  {
    seq(n, _ => 32)
  }

  /** The message for an event, with a tracking number that means nothing to the
      decoder. */
  function EncodeTracked(e: MarketDataEvent, tracking: nat): seq<byte>
    requires InRange(e)
  {
    match e.kind
    case Add =>
      Header(TAG_ADD, e, tracking) + [if e.side == Buy then 'B' as int else 'S' as int]
      + PutBigEndian(e.quantity, 4) + Blanks(8) + PutBigEndian(e.priceTicks, 4)
    case Trade =>
      if e.priceTicks != 0 then
        Header(TAG_EXECUTED_WITH_PRICE, e, tracking) + PutBigEndian(e.quantity, 4) + PutBigEndian(0, 8)
        + ['Y' as int] + PutBigEndian(e.priceTicks, 4)
      else
        Header(TAG_EXECUTED, e, tracking) + PutBigEndian(e.quantity, 4) + PutBigEndian(0, 8)
    case Reduce => Header(TAG_CANCEL, e, tracking) + PutBigEndian(e.quantity, 4)
    case Cancel => Header(TAG_DELETE, e, tracking)
    case Replace =>
      Header(TAG_REPLACE, e, tracking) + PutBigEndian(e.newOrderId, 8) + PutBigEndian(e.quantity, 4)
        + PutBigEndian(e.priceTicks, 4)
  }

  function Encode(e: MarketDataEvent): seq<byte>
    requires InRange(e)
  {
    EncodeTracked(e, 0)
  }

  /** A field that was put at some place is read back from there. */
  lemma FieldAt(before: seq<byte>, value: nat, width: nat, behind: seq<byte>)
    requires value < Bound(width)
    ensures Field(before + PutBigEndian(value, width) + behind, |before|, width) == value
  {
    BigEndianRoundTrip(value, width);
    assert (before + PutBigEndian(value, width) + behind)[|before|..|before| + width] == PutBigEndian(value, width);
  }

  lemma HeaderFields(tag: byte, e: MarketDataEvent, tracking: nat, body: seq<byte>)
    requires InRange(e)
    ensures
      var data := Header(tag, e, tracking) + body;
      && Field(data, 1, 2) == e.symbol
      && Field(data, 5, 6) == e.exchangeTimestampNs
      && Field(data, 11, 8) == e.orderId
  {
    hide Field, Bound, PutBigEndian;
    var symbol, number := PutBigEndian(e.symbol, 2), PutBigEndian(tracking, 2);
    var stamp, id := PutBigEndian(e.exchangeTimestampNs, 6), PutBigEndian(e.orderId, 8);
    var data := Header(tag, e, tracking) + body;
    assert data == [tag] + symbol + (number + stamp + id + body);
    FieldAt([tag], e.symbol, 2, number + stamp + id + body);
    assert data == ([tag] + symbol + number) + stamp + (id + body);
    FieldAt([tag] + symbol + number, e.exchangeTimestampNs, 6, id + body);
    assert data == ([tag] + symbol + number + stamp) + id + body;
    FieldAt([tag] + symbol + number + stamp, e.orderId, 8, body);
  }

  lemma AddFields(e: MarketDataEvent, tracking: nat)
    requires InRange(e) && e.kind == Add
    ensures Field(EncodeTracked(e, tracking), 20, 4) == e.quantity
    ensures Field(EncodeTracked(e, tracking), 32, 4) == e.priceTicks
  {
    var data, quantity, price := EncodeTracked(e, tracking), PutBigEndian(e.quantity, 4), PutBigEndian(e.priceTicks, 4);
    FieldAt(data[..20], e.quantity, 4, Blanks(8) + price);
    assert data == data[..20] + quantity + (Blanks(8) + price);
    FieldAt(data[..32], e.priceTicks, 4, []);
    assert data == data[..32] + price + [];
  }

  lemma QuantityField(e: MarketDataEvent, tracking: nat)
    requires InRange(e) && (e.kind == Trade || e.kind == Reduce)
    ensures Field(EncodeTracked(e, tracking), 19, 4) == e.quantity
    ensures e.kind == Trade && e.priceTicks != 0 ==> Field(EncodeTracked(e, tracking), 32, 4) == e.priceTicks
  {
    var data := EncodeTracked(e, tracking);
    FieldAt(data[..19], e.quantity, 4, data[23..]);
    assert data == data[..19] + PutBigEndian(e.quantity, 4) + data[23..];
    if e.kind == Trade && e.priceTicks != 0 {
      FieldAt(data[..32], e.priceTicks, 4, []);
      assert data == data[..32] + PutBigEndian(e.priceTicks, 4) + [];
    }
  }

  lemma ReplaceFields(e: MarketDataEvent, tracking: nat)
    requires InRange(e) && e.kind == Replace
    ensures Field(EncodeTracked(e, tracking), 19, 8) == e.newOrderId
    ensures Field(EncodeTracked(e, tracking), 27, 4) == e.quantity
    ensures Field(EncodeTracked(e, tracking), 31, 4) == e.priceTicks
  {
    var data := EncodeTracked(e, tracking);
    var id, quantity, price := PutBigEndian(e.newOrderId, 8), PutBigEndian(e.quantity, 4),
      PutBigEndian(e.priceTicks, 4);
    FieldAt(data[..19], e.newOrderId, 8, quantity + price);
    assert data == data[..19] + id + (quantity + price);
    FieldAt(data[..27], e.quantity, 4, price);
    assert data == data[..27] + quantity + price;
    FieldAt(data[..31], e.priceTicks, 4, []);
    assert data == data[..31] + price + [];
  }

  /** Decoding undoes encoding, up to what the wire does not carry: for every locate
      code and whatever the tracking number. */
  lemma DecodeUndoesEncode(e: MarketDataEvent, tracking: nat)
    requires InRange(e)
    ensures Decode(EncodeTracked(e, tracking)) == Event(OnWire(e))
  {
    hide Field, BigEndian, PutBigEndian, Bound;
    var data := EncodeTracked(e, tracking);
    HeaderFields(data[0], e, tracking, data[19..]);
    assert data == Header(data[0], e, tracking) + data[19..];
    match e.kind {
      case Add => AddFields(e, tracking);
      case Trade => QuantityField(e, tracking);
      case Reduce => QuantityField(e, tracking);
      case Cancel =>
      case Replace => ReplaceFields(e, tracking);
    }
  }

  // ---------- the messages byte by byte ----------

  /** The first byte is the most significant one. */
  lemma {:induction false} MostSignificantFirst(first: byte, rest: seq<byte>)
    ensures BigEndian([first] + rest) == first * Bound(|rest|) + BigEndian(rest)
  {
    var data := [first] + rest;
    if rest != [] {
      MostSignificantFirst(first, rest[..|rest| - 1]);
      assert data[..|data| - 1] == [first] + rest[..|rest| - 1];
    } else {
      assert data[..0] == [];
    }
  }

  lemma TwoBytes(data: seq<byte>, at: nat)
    requires at + 2 <= |data|
    ensures Field(data, at, 2) == 256 * (data[at] as int) + data[at + 1]
  {
    FieldStep(data, at, 0);
    FieldStep(data, at, 1);
  }

  /** When a message is malformed and when it is none for the book: by its type, its
      length and, for an added order, its side. */
  lemma KindOfMessage(data: seq<byte>)
    ensures Decode(data).Malformed? <==>
      || data == []
      || (data[0] as char in {'A', 'F'} && (|data| < 36 || data[19] as char !in {'B', 'S'}))
      || (data[0] as char == 'E' && |data| < 31)
      || (data[0] as char == 'C' && |data| < 36)
      || (data[0] as char == 'X' && |data| < 23)
      || (data[0] as char == 'D' && |data| < 19)
      || (data[0] as char == 'U' && |data| < 35)
    ensures Decode(data).Skipped? <==> data != [] && data[0] as char !in {'A', 'F', 'E', 'C', 'X', 'D', 'U'}
  {
    hide Field;
  }

  /** Where each field of a message is. Every applied message has the locate code, the
      timestamp and the order reference at the same places. */
  lemma FieldsOfMessage(data: seq<byte>)
    requires Decode(data).Event?
    ensures |data| >= 19
    ensures
      var e := Decode(data).event;
      && e.symbol == 256 * (data[1] as int) + data[2]
      && e.exchangeTimestampNs == Field(data, 5, 6) && e.orderId == Field(data, 11, 8) && e.sequence == 0
    ensures data[0] as char in {'A', 'F'} ==>
      var e := Decode(data).event;
      && |data| >= 36 && e.kind == Add && e.newOrderId == 0
      && (e.side == Buy <==> data[19] as char == 'B') && (e.side == Sell <==> data[19] as char == 'S')
      && e.quantity == Field(data, 20, 4) && e.priceTicks == Field(data, 32, 4)
    ensures data[0] as char == 'E' ==>
      var e := Decode(data).event;
      && |data| >= 31 && e.kind == Trade && e.newOrderId == 0 && e.side == Buy
      && e.quantity == Field(data, 19, 4) && e.priceTicks == 0
    ensures data[0] as char == 'C' ==>
      var e := Decode(data).event;
      && |data| >= 36 && e.kind == Trade && e.newOrderId == 0 && e.side == Buy
      && e.quantity == Field(data, 19, 4) && e.priceTicks == Field(data, 32, 4)
    ensures data[0] as char == 'X' ==>
      var e := Decode(data).event;
      && |data| >= 23 && e.kind == Reduce && e.newOrderId == 0 && e.side == Buy
      && e.quantity == Field(data, 19, 4) && e.priceTicks == 0
    ensures data[0] as char == 'D' ==>
      var e := Decode(data).event;
      e.kind == Cancel && e.newOrderId == 0 && e.side == Buy && e.quantity == 0 && e.priceTicks == 0
    ensures data[0] as char == 'U' ==>
      var e := Decode(data).event;
      && |data| >= 35 && e.kind == Replace && e.newOrderId == Field(data, 19, 8) && e.side == Buy
      && e.quantity == Field(data, 27, 4) && e.priceTicks == Field(data, 31, 4)
    ensures data[0] as char in {'A', 'F', 'E', 'C', 'X', 'D', 'U'}
  {
    TwoBytes(data, 1);
    hide Field;
  }

  /** An added order with attribution, type F with four more bytes, decodes like the
      one without. */
  lemma AttributionIsIgnored(e: MarketDataEvent, tracking: nat, mpid: seq<byte>)
    requires InRange(e) && e.kind == Add
    ensures
      var data := EncodeTracked(e, tracking);
      data[0] as char == 'A' && Decode(['F' as int] + data[1..] + mpid) == Event(OnWire(e))
  {
    hide BigEndian, PutBigEndian, Bound;
    var data := EncodeTracked(e, tracking);
    var attributed := ['F' as int] + data[1..] + mpid;
    HeaderFields(data[0], e, tracking, data[19..]);
    assert data == Header(data[0], e, tracking) + data[19..];
    AddFields(e, tracking);
    assert attributed[1..3] == data[1..3] && attributed[5..11] == data[5..11] && attributed[11..19] == data[11..19];
    assert attributed[20..24] == data[20..24] && attributed[32..36] == data[32..36];
  }
}
