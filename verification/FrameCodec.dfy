/**
 The link frame: a thirteen-byte header, up to 235 payload bytes and a CRC-16 trailer. Decoding inverts
 encoding and encoding inverts decoding.
*/
module FrameCodec {
  import opened FixedWidth
  import opened Options
  import opened CrcRegister
  import opened Crc16
  import opened Octets

  const MAGIC: bv8 := 0xE2
  const VERSION: bv8 := 2
  const HEADER_BYTES: nat := 13
  const CRC_BYTES: nat := 2
  const MAX_PAYLOAD: nat := 235

  datatype MessageType =
    | Discovery
    | PairInit
    | PairInitAck
    | PairConfirm
    | PairConfirmAck
    | PairBusy
    | PullRequest
    | PullResponse
    | ChannelSwitchPrepare
    | ChannelSwitchAck
    | ChannelSwitchCommitAck
    | FirmwareBegin
    | FirmwareChunk
    | FirmwareEnd
    | UnpairRequest
    | UnpairAck
    | EventReport
    | FirmwareStatus
    | TopologyTrigger
    | TopologyTriggerAck
    | TopologyTriggerBatch
    | Error

  /** The three wire fields a message type maps to. */
  datatype Wire = Wire(msg: bv8, service: bv8, op: bv8)

  const REQUEST: bv8 := 1
  const RESPONSE_OK: bv8 := 2
  const RESPONSE_ERR: bv8 := 3
  const EVENT: bv8 := 4
  const ACK_ONLY: bv8 := 5

  const PAIRING: bv8 := 1
  const DESCRIPTOR: bv8 := 2
  const SETTINGS: bv8 := 3
  const TELEMETRY: bv8 := 4
  const LIVENESS: bv8 := 5
  const CONTROL: bv8 := 6
  const FIRMWARE: bv8 := 7
  const CHANNEL: bv8 := 8
  const DISCOVERY: bv8 := 9

  function ToWire(t: MessageType): Option<Wire> {
    match t
    case Discovery => Some(Wire(EVENT, DISCOVERY, 1))
    case PairInit => Some(Wire(REQUEST, PAIRING, 1))
    case PairInitAck => Some(Wire(RESPONSE_OK, PAIRING, 2))
    case PairConfirm => Some(Wire(REQUEST, PAIRING, 3))
    case PairConfirmAck => Some(Wire(RESPONSE_OK, PAIRING, 4))
    case PairBusy => Some(Wire(RESPONSE_ERR, PAIRING, 7))
    case UnpairRequest => Some(Wire(REQUEST, PAIRING, 5))
    case UnpairAck => Some(Wire(RESPONSE_OK, PAIRING, 6))
    case ChannelSwitchPrepare => Some(Wire(REQUEST, CHANNEL, 1))
    case ChannelSwitchAck => Some(Wire(RESPONSE_OK, CHANNEL, 2))
    case ChannelSwitchCommitAck => Some(Wire(RESPONSE_OK, CHANNEL, 3))
    case FirmwareBegin => Some(Wire(REQUEST, FIRMWARE, 1))
    case FirmwareChunk => Some(Wire(REQUEST, FIRMWARE, 2))
    case FirmwareEnd => Some(Wire(REQUEST, FIRMWARE, 3))
    case FirmwareStatus => Some(Wire(RESPONSE_OK, FIRMWARE, 4))
    case PullRequest => Some(Wire(REQUEST, CONTROL, 1))
    case PullResponse => Some(Wire(RESPONSE_OK, CONTROL, 2))
    case EventReport => Some(Wire(EVENT, CONTROL, 0x10))
    case TopologyTrigger => Some(Wire(EVENT, CONTROL, 0x11))
    case TopologyTriggerAck => Some(Wire(ACK_ONLY, CONTROL, 0x12))
    case TopologyTriggerBatch => Some(Wire(EVENT, CONTROL, 0x13))
    case Error => None
  }

  function PairingType(msg: bv8, op: bv8): Option<MessageType> {
    if msg == REQUEST && op == 1 then Some(PairInit)
    else if msg == RESPONSE_OK && op == 2 then Some(PairInitAck)
    else if msg == REQUEST && op == 3 then Some(PairConfirm)
    else if msg == RESPONSE_OK && op == 4 then Some(PairConfirmAck)
    else if msg == REQUEST && op == 5 then Some(UnpairRequest)
    else if msg == RESPONSE_OK && op == 6 then Some(UnpairAck)
    else if msg == RESPONSE_ERR && op == 7 then Some(PairBusy)
    else None
  }

  function ControlType(msg: bv8, op: bv8): Option<MessageType> {
    if msg == EVENT && op == 0x10 then Some(EventReport)
    else if msg == EVENT && op == 0x11 then Some(TopologyTrigger)
    else if msg == EVENT && op == 0x13 then Some(TopologyTriggerBatch)
    else if msg == ACK_ONLY && op == 0x12 then Some(TopologyTriggerAck)
    else PullType(msg, op)
  }

  function PullType(msg: bv8, op: bv8): Option<MessageType> {
    if msg == REQUEST && (op == 1 || op == 3 || op == 5) then Some(PullRequest)
    else if (msg == RESPONSE_OK || msg == RESPONSE_ERR) && (op == 2 || op == 4 || op == 6) then Some(PullResponse)
    else None
  }

  function FromWire(w: Wire): Option<MessageType> {
    if w.service == DISCOVERY then
      if w.msg == EVENT && w.op == 1 then Some(Discovery) else None
    else if w.service == PAIRING then PairingType(w.msg, w.op)
    else if w.service == CHANNEL then
      if w.msg == REQUEST && w.op == 1 then Some(ChannelSwitchPrepare)
      else if w.msg == RESPONSE_OK && w.op == 2 then Some(ChannelSwitchAck)
      else if w.msg == RESPONSE_OK && w.op == 3 then Some(ChannelSwitchCommitAck)
      else None
    else if w.service == FIRMWARE then
      if w.msg == REQUEST && w.op == 1 then Some(FirmwareBegin)
      else if w.msg == REQUEST && w.op == 2 then Some(FirmwareChunk)
      else if w.msg == REQUEST && w.op == 3 then Some(FirmwareEnd)
      else if w.msg == RESPONSE_OK && w.op == 4 then Some(FirmwareStatus)
      else None
    else if w.service == CONTROL then ControlType(w.msg, w.op)
    else if w.service == DESCRIPTOR || w.service == SETTINGS || w.service == TELEMETRY || w.service == LIVENESS then
      PullType(w.msg, w.op)
    else None
  }

  /** Every encodable type survives the wire, and everything the wire can name is encodable. */
  lemma WireRoundTrip(t: MessageType)
    ensures ToWire(t).Some? ==> FromWire(ToWire(t).value) == Some(t)
  {
    match t {
      case _ =>
    }
  }

  lemma WireNamesEncodable(w: Wire)
    requires FromWire(w).Some?
    ensures ToWire(FromWire(w).value).Some? && 1 <= w.msg <= 5 && w.service != 0 && w.op != 0
  {
  }

  datatype Header = Header(
    version: bv8,
    kind: MessageType,
    flags: bv8,
    correlation: bv32,
    role: bv8,
    wire: Wire,
    payloadLength: uint16)

  /** The type's wire fields, each replaced by the header's own where the header gives a usable one. */
  function Effective(h: Header, w: Wire): Wire {
    Wire(if 1 <= h.wire.msg <= 5 then h.wire.msg else w.msg,
         if h.wire.service != 0 then h.wire.service else w.service,
         if h.wire.op != 0 then h.wire.op else w.op)
  }

  function Byte0(n: bv32): bv8 { (n & 0xFF) as bv8 }
  function Byte1(n: bv32): bv8 { ((n >> 8) & 0xFF) as bv8 }
  function Byte2(n: bv32): bv8 { ((n >> 16) & 0xFF) as bv8 }
  function Byte3(n: bv32): bv8 { ((n >> 24) & 0xFF) as bv8 }

  function From32(a: bv8, b: bv8, c: bv8, d: bv8): bv32 {
    (a as bv32) | ((b as bv32) << 8) | ((c as bv32) << 16) | ((d as bv32) << 24)
  }

  lemma BytesOf32(n: bv32)
    ensures From32(Byte0(n), Byte1(n), Byte2(n), Byte3(n)) == n
  {
  }

  lemma Of32Bytes(a: bv8, b: bv8, c: bv8, d: bv8)
    ensures var n := From32(a, b, c, d); Byte0(n) == a && Byte1(n) == b && Byte2(n) == c && Byte3(n) == d
  {
  }

  function HeadBytes(w: Wire, flags: bv8, corr: bv32, role: bv8, len: uint16): (b: seq<bv8>)
    ensures |b| == HEADER_BYTES
  {
    [MAGIC, VERSION, w.msg, flags, Byte0(corr), Byte1(corr), Byte2(corr), Byte3(corr),
     role, w.service, w.op, Low(len), High(len)]
  }

  function Sealed(body: seq<bv8>): seq<bv8> {
    var crc := CrcFrom(START, body);
    body + [LowByte(crc), HighByte(crc)]
  }

  function Body(h: Header, w: Wire, payload: seq<bv8>): seq<bv8>
    requires |payload| <= MAX_PAYLOAD
  {
    HeadBytes(Effective(h, w), h.flags, h.correlation, h.role, |payload|) + payload
  }

  function Encode(h: Header, payload: seq<bv8>): Option<seq<bv8>> {
    if |payload| > MAX_PAYLOAD then None
    else
      match ToWire(h.kind)
      case None => None
      case Some(w) => Some(Sealed(Body(h, w, payload)))
  }

  predicate CrcMatches(data: seq<bv8>)
    requires |data| >= CRC_BYTES
  {
    var n := |data| - CRC_BYTES;
    FromBytes(data[n], data[n + 1]) == CrcFrom(START, data[..n])
  }

  function LengthField(data: seq<bv8>): uint16
    requires |data| >= HEADER_BYTES
  {
    Length(data[11], data[12])
  }

  function Decode(data: seq<bv8>): Option<(Header, seq<bv8>)> {
    if |data| < HEADER_BYTES + CRC_BYTES then None
    else if data[0] != MAGIC || data[1] != VERSION then None
    else if !CrcMatches(data) then None
    else
      var len := LengthField(data);
      if len > MAX_PAYLOAD || |data| != HEADER_BYTES + len + CRC_BYTES then None
      else
        var w := Wire(data[2], data[9], data[10]);
        match FromWire(w)
        case None => None
        case Some(kind) =>
          Some((Header(data[1], kind, data[3], From32(data[4], data[5], data[6], data[7]), data[8], w, len),
                data[HEADER_BYTES..HEADER_BYTES + len]))
  }

  // ---------------------------------------------------------------- round trips

  lemma SealedMatches(body: seq<bv8>)
    ensures CrcMatches(Sealed(body)) && |Sealed(body)| == |body| + CRC_BYTES && Sealed(body)[..|body|] == body
  {
    hide CrcFrom, LowByte, HighByte, FromBytes;
    BytesOfRegister(CrcFrom(START, body));
  }

  /** What a header becomes on the wire. */
  function Received(h: Header, w: Wire, kind: MessageType, payload: seq<bv8>): Header
    requires |payload| <= MAX_PAYLOAD
  {
    Header(VERSION, kind, h.flags, h.correlation, h.role, w, |payload|)
  }

  lemma BodyFields(h: Header, w: Wire, payload: seq<bv8>)
    requires |payload| <= MAX_PAYLOAD
    ensures var b, e := Sealed(Body(h, w, payload)), Effective(h, w);
            && |b| == HEADER_BYTES + |payload| + CRC_BYTES
            && b[0] == MAGIC && b[1] == VERSION && Wire(b[2], b[9], b[10]) == e && b[3] == h.flags && b[8] == h.role
            && From32(b[4], b[5], b[6], b[7]) == h.correlation && LengthField(b) == |payload|
            && b[HEADER_BYTES..HEADER_BYTES + |payload|] == payload
  {
    hide CrcFrom, LowByte, HighByte, FromBytes, Byte0, Byte1, Byte2, Byte3, From32, Low, High, Length, Effective;
    BytesOf32(h.correlation);
    LengthRoundTrip(|payload|);
  }

  /**
   Decoding an encoded frame: the payload and every header field come back, under the type the wire fields
   name; only a header whose own wire fields name no type is refused.
  */
  lemma DecodeEncoded(h: Header, payload: seq<bv8>)
    requires |payload| <= MAX_PAYLOAD && ToWire(h.kind).Some?
    ensures var e := Effective(h, ToWire(h.kind).value);
            Decode(Encode(h, payload).value)
              == match FromWire(e) case None => None case Some(kind) => Some((Received(h, e, kind, payload), payload))
  {
    hide CrcMatches, Sealed, Body, From32, LengthField, FromWire, ToWire, Effective;
    var w := ToWire(h.kind).value;
    BodyFields(h, w, payload);
    SealedMatches(Body(h, w, payload));
  }

  /** Without wire fields of its own, every header of an encodable type comes back as sent. */
  lemma DecodeInvertsEncode(h: Header, payload: seq<bv8>)
    requires |payload| <= MAX_PAYLOAD && ToWire(h.kind).Some? && h.wire == Wire(0, 0, 0)
    ensures Encode(h, payload).Some?
    ensures Decode(Encode(h, payload).value)
         == Some((Received(h, ToWire(h.kind).value, h.kind, payload), payload))
  {
    hide Decode, ToWire, FromWire, Body;
    DecodeEncoded(h, payload);
    WireRoundTrip(h.kind);
  }

  lemma HeadOf(data: seq<bv8>, h: Header)
    requires |data| >= HEADER_BYTES && data[0] == MAGIC && data[1] == VERSION
        && h.wire == Wire(data[2], data[9], data[10])
    requires h.flags == data[3] && h.correlation == From32(data[4], data[5], data[6], data[7]) && h.role == data[8]
    ensures HeadBytes(h.wire, h.flags, h.correlation, h.role, LengthField(data)) == data[..HEADER_BYTES]
  {
    hide From32, Byte0, Byte1, Byte2, Byte3, Low, High, Length;
    Of32Bytes(data[4], data[5], data[6], data[7]);
    LengthOfBytes(data[11], data[12]);
  }

  /** Whatever frame is accepted, encoding what was read from it gives the frame again, byte for byte. */
  lemma EncodeInvertsDecode(data: seq<bv8>)
    requires Decode(data).Some?
    ensures var r := Decode(data).value; Encode(r.0, r.1) == Some(data)
  {
    hide FromWire, ToWire, CrcFrom, HeadBytes, LowByte, HighByte, FromBytes, From32, Length;
    var (h, payload) := Decode(data).value;
    var n := |data| - CRC_BYTES;
    WireNamesEncodable(h.wire);
    HeadOf(data, h);
    RegisterOfBytes(data[n], data[n + 1]);
    assert Effective(h, ToWire(h.kind).value) == h.wire;
    assert Body(h, ToWire(h.kind).value, payload) == data[..n];
    assert data == data[..n] + [data[n], data[n + 1]];
  }

  // ---------------------------------------------------------------- the bytes of a frame

  /** The three wire bytes of every type, for a header that has none of its own. */
  lemma WireNumbers()
    ensures ToWire(Discovery) == Some(Wire(4, 9, 1)) && ToWire(Error) == None
    ensures ToWire(PairInit) == Some(Wire(1, 1, 1)) && ToWire(PairInitAck) == Some(Wire(2, 1, 2))
    ensures ToWire(PairConfirm) == Some(Wire(1, 1, 3)) && ToWire(PairConfirmAck) == Some(Wire(2, 1, 4))
    ensures ToWire(UnpairRequest) == Some(Wire(1, 1, 5)) && ToWire(UnpairAck) == Some(Wire(2, 1, 6))
    ensures ToWire(PairBusy) == Some(Wire(3, 1, 7))
    ensures ToWire(PullRequest) == Some(Wire(1, 6, 1)) && ToWire(PullResponse) == Some(Wire(2, 6, 2))
    ensures ToWire(EventReport) == Some(Wire(4, 6, 16)) && ToWire(TopologyTrigger) == Some(Wire(4, 6, 17))
    ensures ToWire(TopologyTriggerAck) == Some(Wire(5, 6, 18)) && ToWire(TopologyTriggerBatch) == Some(Wire(4, 6, 19))
    ensures ToWire(FirmwareBegin) == Some(Wire(1, 7, 1)) && ToWire(FirmwareChunk) == Some(Wire(1, 7, 2))
    ensures ToWire(FirmwareEnd) == Some(Wire(1, 7, 3)) && ToWire(FirmwareStatus) == Some(Wire(2, 7, 4))
    ensures ToWire(ChannelSwitchPrepare) == Some(Wire(1, 8, 1)) && ToWire(ChannelSwitchAck) == Some(Wire(2, 8, 2))
    ensures ToWire(ChannelSwitchCommitAck) == Some(Wire(2, 8, 3))
  {
  }

  /**
   The whole frame, byte by byte: the header with its numbers low byte first, the payload, and a trailer that is the
   register a bit-serial shift from all ones leaves after the bytes in front of it, low byte first.
  */
  lemma FrameLayout(h: Header, payload: seq<bv8>)
    requires |payload| <= 235 && h.kind != Error
    ensures Encode(h, payload).Some?
    ensures var f, w, n := Encode(h, payload).value, ToWire(h.kind).value, 13 + |payload|;
            && |f| == n + 2 && f[0] == 0xE2 && f[1] == 2
            && f[2] == (if h.wire.msg == 0 || h.wire.msg > 5 then w.msg else h.wire.msg)
            && f[3] == h.flags && f[8] == h.role
            && (f[4] as bv32) | ((f[5] as bv32) << 8) | ((f[6] as bv32) << 16) | ((f[7] as bv32) << 24) == h.correlation
            && f[9] == (if h.wire.service == 0 then w.service else h.wire.service)
            && f[10] == (if h.wire.op == 0 then w.op else h.wire.op)
            && Length(f[11], f[12]) == |payload| && f[13..n] == payload
            && (f[n] as bv16) | ((f[n + 1] as bv16) << 8) == Feed(0xFFFF, Bits(f[..n]))
  {
    EncodesAll(h.kind);
    hide ToWire, Sealed, Body, Feed, Bits, CrcFrom, Byte0, Byte1, Byte2, Byte3, Low, High, Length, LowByte, HighByte;
    var w := ToWire(h.kind).value;
    BodyFields(h, w, payload);
    var f := Encode(h, payload).value;
    TrailerOf(Body(h, w, payload));
    CrcIsFeed(0xFFFF, f[..13 + |payload|]);
  }

  lemma EncodesAll(t: MessageType)
    ensures t != Error ==> ToWire(t).Some?
  {
  }

  lemma {:induction false} TrailerOf(body: seq<bv8>)
    ensures var f, n := Sealed(body), |body|;
            && |f| == n + 2 && f[..n] == body
            && (f[n] as bv16) | ((f[n + 1] as bv16) << 8) == CrcFrom(0xFFFF, body)
  {
    hide CrcFrom, LowByte, HighByte;
    BytesOfRegister(CrcFrom(START, body));
  }

  // ---------------------------------------------------------------- the codec over a byte vector

  method EncodeFrame(h: Header, payload: seq<bv8>) returns (frame: Option<seq<bv8>>)
    ensures frame == Encode(h, payload)
  {
    hide ToWire, HeadBytes, Sealed, Effective;
    if |payload| > MAX_PAYLOAD {
      return None;
    }
    var mapped := ToWire(h.kind);
    if mapped.None? {
      return None;
    }
    var wire := OverrideWire(h, mapped.value);
    var out := HeadBytes(wire, h.flags, h.correlation, h.role, |payload|);
    out := out + payload;
    out := AppendCrc(out);
    return Some(out);
  }

  method OverrideWire(h: Header, mapped: Wire) returns (wire: Wire)
    ensures wire == Effective(h, mapped)
  {
    wire := mapped;
    if 1 <= h.wire.msg <= 5 {
      wire := wire.(msg := h.wire.msg);
    }
    if h.wire.service != 0 {
      wire := wire.(service := h.wire.service);
    }
    if h.wire.op != 0 {
      wire := wire.(op := h.wire.op);
    }
  }

  method AppendCrc(body: seq<bv8>) returns (frame: seq<bv8>)
    ensures frame == Sealed(body)
  {
    hide CrcFrom, LowByte, HighByte;
    var crc := Crc16CcittFalse(body);
    frame := body + [LowByte(crc), HighByte(crc)];
  }

  method DecodeFrame(data: seq<bv8>) returns (r: Option<(Header, seq<bv8>)>)
    ensures r == Decode(data)
  {
    hide FromWire, CrcFrom, From32, Length, FromBytes;
    if |data| < HEADER_BYTES + CRC_BYTES || data[0] != MAGIC || data[1] != VERSION {
      return None;
    }
    var n := |data| - CRC_BYTES;
    var crc := Crc16CcittFalse(data[..n]);
    if FromBytes(data[n], data[n + 1]) != crc {
      return None;
    }
    var len := Length(data[11], data[12]);
    if len > MAX_PAYLOAD || |data| != HEADER_BYTES + len + CRC_BYTES {
      return None;
    }
    var wire := Wire(data[2], data[9], data[10]);
    var kind := FromWire(wire);
    if kind.None? {
      return None;
    }
    var h := Header(data[1], kind.value, data[3], From32(data[4], data[5], data[6], data[7]), data[8], wire, len);
    return Some((h, data[HEADER_BYTES..HEADER_BYTES + len]));
  }
}
