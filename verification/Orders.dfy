/** Orders, events and their enumerations, and the order payload stored in the log. */
module Orders {
  import opened Bits
  import opened Words

  // Ticker symbols and strategy names are eight bytes padded with zeros.
  type Name = s: bytes | |s| == 8 witness [0, 0, 0, 0, 0, 0, 0, 0]

  const NO_NAME: Name := [0, 0, 0, 0, 0, 0, 0, 0]

  type Side = byte
  const SIDE_BUY: Side := 1
  const SIDE_COVER: Side := 4

  type Status = byte
  const EMPTY: Status := 0
  const NEW: Status := 1
  const PENDING_NEW: Status := 2
  const ACKNOWLEDGED: Status := 3
  const PARTIAL_FILL: Status := 4
  const FILLED: Status := 5
  const PENDING_CANCEL: Status := 6
  const CANCELLED: Status := 7
  const REJECTED: Status := 8
  const HELD: Status := 9

  predicate IsCancellable(s: Status) {
    s == NEW || s == PENDING_NEW || s == ACKNOWLEDGED || s == PARTIAL_FILL || s == HELD
  }

  datatype Order = Order(
    id: uint32, symbol: Name, strategy: Name,
    side: Side, ordType: byte, tif: byte, status: Status,
    qty: int32, filledQty: int32, price: int64, stopPrice: int64,
    trailType: byte, trailValue: int32,
    filledAvgPx: int64, lastFillPx: int64,
    linked1: uint32, linked2: uint32,
    createdAt: int64, submittedAt: int64, filledAt: int64)

  const NO_ORDER: Order :=
    Order(0, NO_NAME, NO_NAME, 0, 0, 0, EMPTY, 0, 0, 0, 0, 0, 0, 0, 0, 0, 0, 0, 0, 0)

  datatype EventKind = SubmitOrder | CancelOrder | ReplaceOrder | FillOrder | KillSwitch

  datatype Event = Event(
    kind: EventKind, orderIdx: uint32, timestamp: int64,
    symbol: Name, strategy: Name, side: Side, ordType: byte, tif: byte,
    qty: int32, price: int64, stopPrice: int64, trailVal: int64, trailType: byte)

  function PlainEvent(kind: EventKind, idx: uint32, now: int64, qty: int32, price: int64): Event {
    Event(kind, idx, now, NO_NAME, NO_NAME, 0, 0, 0, qty, price, 0, 0, 0)
  }

  // ----- Symbol hash -----

  const FNV_OFFSET: uint32 := 2166136261
  const FNV_PRIME: uint32 := 16777619
  const POSITION_SLOTS: nat := 4096

  function HashFrom(h: nat, symbol: bytes): nat
    decreases |symbol|
  {
    if symbol == [] || symbol[0] == 0 then h
    else HashFrom(Xor(h, symbol[0]) * FNV_PRIME % TWO_32, symbol[1..])
  }

  function HashSymbol(symbol: Name): (slot: nat)
    ensures slot < POSITION_SLOTS
  {
    AndAtMostMask(HashFrom(FNV_OFFSET, symbol), 0x0FFF);
    And(HashFrom(FNV_OFFSET, symbol), 0x0FFF)
  }

  method ComputeHash(symbol: Name) returns (slot: nat)
    ensures slot == HashSymbol(symbol) < POSITION_SLOTS
  {
    var h: nat := FNV_OFFSET;
    var i := 0;
    while i < |symbol| && symbol[i] != 0
      invariant 0 <= i <= |symbol|
      invariant HashFrom(h, symbol[i..]) == HashFrom(FNV_OFFSET, symbol)
    {
      assert symbol[i..][1..] == symbol[i + 1..];
      h := Xor(h, symbol[i]) * FNV_PRIME % TWO_32;
      i := i + 1;
    }
    AndAtMostMask(h, 0x0FFF);
    slot := And(h, 0x0FFF);
  }

  // The hash of a symbol ignores everything from its first zero byte on, as the conversion of
  // a symbol to text does.
  lemma {:induction false} HashStopsAtPadding(h: nat, text: bytes, rest: bytes)
    requires 0 !in text && (rest == [] || rest[0] == 0)
    ensures HashFrom(h, text + rest) == HashFrom(h, text)
    decreases |text|
  {
    if text == [] {
      assert text + rest == rest;
    } else {
      assert (text + rest)[1..] == text[1..] + rest;
      HashStopsAtPadding(Xor(h, text[0]) * FNV_PRIME % TWO_32, text[1..], rest);
    }
  }

  // ----- Payload codec -----

  const PAYLOAD_SIZE: nat := 44

  function EncodeOrder(o: Order): (data: bytes)
    ensures |data| == PAYLOAD_SIZE
  {
    PutLE(o.id, 4) + [o.side, o.ordType, o.tif, o.status] + o.symbol
    + PutLE(o.qty, 4) + PutLE(o.price, 8) + PutLE(o.stopPrice, 8) + PutLE(o.createdAt, 8)
  }

  // Reads the ten stored fields into an order; short data changes nothing.
  function DecodeOrder(data: bytes, o: Order): Order {
    if |data| < PAYLOAD_SIZE then o
    else
      o.(id := GetLE(data[0..4]) % TWO_32,
         side := data[4], ordType := data[5], tif := data[6], status := data[7],
         symbol := data[8..16],
         qty := Wrap32(GetLE(data[16..20])),
         price := Wrap64(GetLE(data[20..28])),
         stopPrice := Wrap64(GetLE(data[28..36])),
         createdAt := Wrap64(GetLE(data[36..44])))
  }

  // The stored fields agree.
  predicate SameStored(o: Order, p: Order) {
    && o.id == p.id && o.side == p.side && o.ordType == p.ordType && o.tif == p.tif
    && o.status == p.status && SameTerms(o, p)
  }

  predicate SameTerms(o: Order, p: Order) {
    && o.symbol == p.symbol && o.qty == p.qty && o.price == p.price
    && o.stopPrice == p.stopPrice && o.createdAt == p.createdAt
  }

  // Every field that is not stored.
  predicate SameUnstored(o: Order, p: Order) {
    && o.strategy == p.strategy && o.filledQty == p.filledQty
    && o.trailType == p.trailType && o.trailValue == p.trailValue
    && o.filledAvgPx == p.filledAvgPx && o.lastFillPx == p.lastFillPx
    && o.linked1 == p.linked1 && o.linked2 == p.linked2
    && o.submittedAt == p.submittedAt && o.filledAt == p.filledAt
  }

  lemma PayloadLayout(o: Order)
    ensures var d := EncodeOrder(o);
      && d[0..4] == PutLE(o.id, 4)
      && d[4] == o.side && d[5] == o.ordType && d[6] == o.tif && d[7] == o.status
      && d[8..16] == o.symbol
      && d[16..20] == PutLE(o.qty, 4)
      && d[20..28] == PutLE(o.price, 8)
      && d[28..36] == PutLE(o.stopPrice, 8)
      && d[36..44] == PutLE(o.createdAt, 8)
  {
    hide PutLE;
  }

  // Decoding an encoded order into any target restores all ten stored fields, negative
  // quantities and prices included, and leaves the other fields of the target alone.
  lemma PayloadRoundTrip(o: Order, target: Order)
    ensures SameStored(DecodeOrder(EncodeOrder(o), target), o)
    ensures SameUnstored(DecodeOrder(EncodeOrder(o), target), target)
  {
    hide PutLE, GetLE, Wrap32, Wrap64;
    PayloadLayout(o);
    Get32(o.id);
    Get32(o.qty);
    Get64(o.price);
    Get64(o.stopPrice);
    Get64(o.createdAt);
    hide EncodeOrder;
  }

  // Short data is ignored, longer data is read up to the payload size.
  lemma DecodeReadsOnlyThePayload(data: bytes, extra: bytes, o: Order)
    requires |data| >= PAYLOAD_SIZE
    ensures DecodeOrder(data + extra, o) == DecodeOrder(data, o)
  {
    hide GetLE, Wrap32, Wrap64;
    var all := data + extra;
    assert all[0..4] == data[0..4] && all[8..16] == data[8..16] && all[16..20] == data[16..20];
    assert all[20..28] == data[20..28] && all[28..36] == data[28..36] && all[36..44] == data[36..44];
  }

  // The encoder fills a 48-byte buffer field by field and returns its first 44 bytes.
  method WriteOrder(o: Order) returns (data: bytes)
    ensures data == EncodeOrder(o)
  {
    hide PutLE;
    var buf := new byte[48];
    WriteLE(buf, 0, o.id, 4);
    buf[4] := o.side;
    buf[5] := o.ordType;
    buf[6] := o.tif;
    buf[7] := o.status;
    assert buf[..8] == PutLE(o.id, 4) + [o.side, o.ordType, o.tif, o.status];
    WriteBytes(buf, 8, o.symbol);
    assert buf[..16] == buf[..8] + buf[8..16];
    WriteLE(buf, 16, o.qty, 4);
    assert buf[..20] == buf[..16] + buf[16..20];
    WriteLE(buf, 20, o.price, 8);
    assert buf[..28] == buf[..20] + buf[20..28];
    WriteLE(buf, 28, o.stopPrice, 8);
    assert buf[..36] == buf[..28] + buf[28..36];
    WriteLE(buf, 36, o.createdAt, 8);
    assert buf[..44] == buf[..36] + buf[36..44];
    data := buf[..PAYLOAD_SIZE];
  }
}
