/** The WaveStation protocol: constants, packets and the layout of every body, on both sides of the wire. */
module Protocol {
  import opened Bytes

  const MAGIC: uint32 := 0x57535031
  const PROTO_VER: byte := 1
  const HEADER_SIZE := 16
  const MAX_PAYLOAD := 4096
  const SAMPLE_RATE: uint32 := 16000
  const FRAME_MS: byte := 20
  const IR_MAX_RAW_LENGTH := 512
  const MIC_FRAME_SAMPLES := 320
  const OPUS_MAX_ENCODED_BYTES := 512
  const OPUS_MAX_DECODED_SAMPLES := 960
  const ERROR_MESSAGE_LIMIT := 96

  const MIC_PCM: uint16 := 0x0101
  const MIC_COMP: uint16 := 0x0102
  const SPK_PCM: uint16 := 0x0111
  const SPK_COMP: uint16 := 0x0112
  const IR_RECEIVE: uint16 := 0x0201
  const IR_TRANSMIT: uint16 := 0x0202
  const AMBIENT_LIGHT: uint16 := 0x0301
  const TEMPERATURE: uint16 := 0x0302
  const HUMIDITY: uint16 := 0x0303
  const SUBSCRIBE: uint16 := 0xF001
  const UNSUBSCRIBE: uint16 := 0xF002
  const ACK: uint16 := 0xF010
  const ERROR: uint16 := 0xF011
  const HEARTBEAT: uint16 := 0xF020

  const FLAG_KEY_FRAME: byte := 4
  const FLAG_HAS_TIMESTAMP: byte := 1
  const OPUS: byte := 1

  const ERROR_UNSUPPORTED: int32 := -1
  const ERROR_BUSY: int32 := -2
  const ERROR_INVALID_PAYLOAD: int32 := -3

  datatype SensorKind = Ambient | Temperature | Humidity

  /** The data types a host can subscribe to. */
  datatype Stream = MicPcm | MicComp | IrReceive | Sensor(kind: SensorKind)

  function SensorCode(kind: SensorKind): uint16 {
    match kind
    case Ambient => AMBIENT_LIGHT
    case Temperature => TEMPERATURE
    case Humidity => HUMIDITY
  }

  function Code(stream: Stream): uint16 {
    match stream
    case MicPcm => MIC_PCM
    case MicComp => MIC_COMP
    case IrReceive => IR_RECEIVE
    case Sensor(kind) => SensorCode(kind)
  }

  function Unit(kind: SensorKind): byte {
    match kind
    case Ambient => 1
    case Temperature => 2
    case Humidity => 3
  }

  /** The type values the host's `WspType` enumeration accepts. */
  predicate KnownType(typ: uint16) {
    typ in {MIC_PCM, MIC_COMP, SPK_PCM, SPK_COMP, IR_RECEIVE, IR_TRANSMIT, AMBIENT_LIGHT, TEMPERATURE, HUMIDITY,
            SUBSCRIBE, UNSUBSCRIBE, ACK, ERROR, HEARTBEAT}
  }

  // ----- Packets and frames -----

  /** `flags` is the header's reserved/flags byte; `id` its requestId or sequence. */
  datatype Packet = Packet(flags: byte, typ: uint16, id: uint32, payload: seq<byte>)

  datatype Header = Header(magic: uint32, version: byte, flags: byte, typ: uint16, size: uint32, id: uint32)

  function EncodeHeader(h: Header): (b: seq<byte>)
    ensures |b| == HEADER_SIZE
  {
    U32(h.magic) + [h.version, h.flags] + U16(h.typ) + U32(h.size) + U32(h.id)
  }

  function HeaderAt(b: seq<byte>): Header
    requires |b| >= HEADER_SIZE
  {
    Header(U32At(b, 0), b[4], b[5], U16At(b, 6), U32At(b, 8), U32At(b, 12))
  }

  predicate GoodHeader(h: Header) {
    h.magic == MAGIC && h.version == PROTO_VER && h.size <= MAX_PAYLOAD
  }

  predicate Legal(p: Packet) {
    |p.payload| <= MAX_PAYLOAD
  }

  function HeaderOf(p: Packet): Header
    requires Legal(p)
  {
    Header(MAGIC, PROTO_VER, p.flags, p.typ, |p.payload|, p.id)
  }

  function FrameSize(p: Packet): nat {
    HEADER_SIZE + |p.payload|
  }

  /** The bytes of one packet on the wire. */
  function Frame(p: Packet): (b: seq<byte>)
    requires Legal(p)
    ensures |b| == FrameSize(p)
  {
    EncodeHeader(HeaderOf(p)) + p.payload
  }

  lemma HeaderRoundTrip(h: Header, tail: seq<byte>)
    ensures HeaderAt(EncodeHeader(h) + tail) == h
  {
    U32RoundTrip(h.magic);
    U16RoundTrip(h.typ);
    U32RoundTrip(h.size);
    U32RoundTrip(h.id);
    var b := EncodeHeader(h) + tail;
    assert b[0..4] == U32(h.magic);
    assert b[4] == h.version && b[5] == h.flags;
    assert b[6..8] == U16(h.typ);
    assert b[8..12] == U32(h.size);
    assert b[12..16] == U32(h.id);
    U32Slice(b, 0, h.magic);
    U16Slice(b, 6, h.typ);
    U32Slice(b, 8, h.size);
    U32Slice(b, 12, h.id);
  }

  lemma U16Slice(b: seq<byte>, i: nat, x: uint16)
    requires i + 2 <= |b| && b[i..i + 2] == U16(x)
    ensures U16At(b, i) == x
  {
    U16RoundTrip(x);
    assert b[i] == b[i..i + 2][0] && b[i + 1] == b[i..i + 2][1];
  }

  lemma U32Slice(b: seq<byte>, i: nat, x: uint32)
    requires i + 4 <= |b| && b[i..i + 4] == U32(x)
    ensures U32At(b, i) == x
  {
    U32RoundTrip(x);
    var s := b[i..i + 4];
    assert b[i] == s[0] && b[i + 1] == s[1] && b[i + 2] == s[2] && b[i + 3] == s[3];
  }

  // ----- Body layouts written by the firmware -----

  function SubscribeBody(target: uint16, intervalMs: uint16, options: uint32): (b: seq<byte>)
    ensures |b| == 8
  {
    U16(target) + U16(intervalMs) + U32(options)
  }

  function AckBody(requestId: uint32): (b: seq<byte>)
    ensures |b| == 8
  {
    U32(requestId) + [0, 0, 0, 0]
  }

  function ErrorBody(requestId: uint32, code: int32): (b: seq<byte>)
    ensures |b| == 8
  {
    U32(requestId) + I32(code)
  }

  function AudioPcmBody(sampleRate: uint32, channels: byte, bits: byte, count: uint16): (b: seq<byte>)
    ensures |b| == 8
  {
    U32(sampleRate) + [channels, bits] + U16(count)
  }

  function AudioCompBody(sampleRate: uint32, channels: byte, frameMs: byte, size: uint16): (b: seq<byte>)
    ensures |b| == 9
  {
    [OPUS] + U32(sampleRate) + [channels, frameMs] + U16(size)
  }

  function IrReceiveBody(length: uint16, overflow: bool): (b: seq<byte>)
    ensures |b| == 4
  {
    U16(length) + [if overflow then 1 else 0, 0]
  }

  function IrTransmitBody(length: uint16, carrierHz: uint32, repeats: uint16): (b: seq<byte>)
    ensures |b| == 8
  {
    U16(length) + U32(carrierHz) + U16(repeats)
  }

  function SensorBody(unit: byte, quality: byte, bits: uint32): (b: seq<byte>)
    ensures |b| == 8
  {
    [unit, quality, 0, 0] + U32(bits)
  }

  // ----- Packets the firmware sends -----

  datatype Reason =
    | BadSubscribeSize | EncoderNotReady | LightNotReady | DhtNotReady | SubscribeTarget
    | BadUnsubscribeSize | UnsubscribeTarget
    | IrTooShort | IrBadSize | IrBadLength
    | SpeakerNotReady | PcmTooShort | PcmFormat | PcmBadSize | PcmBadCount | PcmPlayback
    | DecoderNotReady | CompTooShort | CompFormat | CompBadSize | CompDecode | CompPlayback
    | UnknownType

  function Text(reason: Reason): string {
    match reason
    case BadSubscribeSize => "invalid SubscribeBody size"
    case EncoderNotReady => "MicComp Opus encoder not ready"
    case LightNotReady => "BH1750 ambient light sensor not ready"
    case DhtNotReady => "DHT22 not ready"
    case SubscribeTarget => "target type not supported for Subscribe"
    case BadUnsubscribeSize => "invalid UnsubscribeBody size"
    case UnsubscribeTarget => "unsubscribe target type not supported"
    case IrTooShort => "invalid IrTransmit payload too short"
    case IrBadSize => "invalid IrTransmit payload size"
    case IrBadLength => "invalid IrTransmit raw length"
    case SpeakerNotReady => "speaker not ready"
    case PcmTooShort => "SpkPCM payload too short"
    case PcmFormat => "unsupported SpkPCM format"
    case PcmBadSize => "invalid SpkPCM payload size"
    case PcmBadCount => "invalid SpkPCM sample count"
    case PcmPlayback => "SpkPCM playback failed"
    case DecoderNotReady => "Opus decoder not ready"
    case CompTooShort => "SpkComp payload too short"
    case CompFormat => "unsupported SpkComp format"
    case CompBadSize => "invalid SpkComp payload size"
    case CompDecode => "SpkComp decode failed"
    case CompPlayback => "SpkComp playback failed"
    case UnknownType => "packet type not supported in firmware"
  }

  function ErrorCode(reason: Reason): int32 {
    match reason
    case EncoderNotReady | LightNotReady | DhtNotReady | SubscribeTarget | UnsubscribeTarget | SpeakerNotReady
       | PcmFormat | DecoderNotReady | CompFormat | UnknownType => ERROR_UNSUPPORTED
    case PcmPlayback | CompPlayback => ERROR_BUSY
    case _ => ERROR_INVALID_PAYLOAD
  }

  /** The message bytes, clipped at 96. */
  function Message(text: string): (b: seq<byte>)
    ensures |b| == Min(|text|, 96)
    ensures forall i :: 0 <= i < |b| && text[i] < 128 as char ==> b[i] == text[i] as int
  {
    seq(Min(|text|, ERROR_MESSAGE_LIMIT),
        i requires 0 <= i < |text| => if text[i] as int < 0x100 then text[i] as int else 0x3F)
  }

  function HeartbeatReply(id: uint32): Packet {
    Packet(0, HEARTBEAT, id, [])
  }

  function AckReply(id: uint32): Packet {
    Packet(0, ACK, id, AckBody(id))
  }

  function ErrorReply(id: uint32, reason: Reason): Packet {
    Packet(0, ERROR, id, ErrorBody(id, ErrorCode(reason)) + Message(Text(reason)))
  }

  type OpusFrame = s: seq<byte> | 1 <= |s| <= OPUS_MAX_ENCODED_BYTES witness [0]
  type DecodedPcm = s: seq<int16> | 1 <= |s| <= OPUS_MAX_DECODED_SAMPLES witness [0]
  type MicFrame = s: seq<int16> | |s| == MIC_FRAME_SAMPLES witness seq(MIC_FRAME_SAMPLES, i => 0)
  type IrTimings = s: seq<uint16> | 1 <= |s| <= IR_MAX_RAW_LENGTH witness [0]

  function PcmPayload(samples: seq<int16>): (b: seq<byte>)
    requires |samples| < 0x1_0000
    ensures |b| == 8 + 2 * |samples|
  {
    AudioPcmBody(SAMPLE_RATE, 1, 16, |samples|) + I16s(samples)
  }

  function CompPayload(encoded: seq<byte>): (b: seq<byte>)
    requires |encoded| < 0x1_0000
    ensures |b| == 9 + |encoded|
  {
    AudioCompBody(SAMPLE_RATE, 1, FRAME_MS, |encoded|) + encoded
  }

  function IrReceivePayload(raw: seq<uint16>, overflow: bool): (b: seq<byte>)
    requires |raw| < 0x1_0000
    ensures |b| == 4 + 2 * |raw|
  {
    IrReceiveBody(|raw|, overflow) + U16s(raw)
  }

  /** A reading is sent with quality 255, a failed reading with quality 0. */
  function SensorPayload(kind: SensorKind, valid: bool, bits: uint32): (b: seq<byte>)
    ensures |b| == 8
  {
    SensorBody(Unit(kind), if valid then 255 else 0, bits)
  }

  // ----- Capacity: no size check of a sender can reject what the drivers produce -----

  /** Every reply fits `sendControl`'s 128-byte payload area, and no error message is clipped. */
  lemma RepliesFit(id: uint32, reason: Reason)
    ensures |AckReply(id).payload| <= 128 && |HeartbeatReply(id).payload| <= 128
    ensures |ErrorReply(id, reason).payload| == 8 + |Text(reason)| <= 8 + ERROR_MESSAGE_LIMIT <= 128
    ensures |Text(reason)| <= 40
  {
    hide Message, ErrorCode, ErrorBody, AckBody;
    TextLength(reason);
  }

  /** Every message is short enough to reach the wire whole, character by character where it is ASCII. */
  lemma MessageExactly(reason: Reason)
    ensures |Message(Text(reason))| == |Text(reason)|
    ensures forall i :: 0 <= i < |Text(reason)| && Text(reason)[i] < 128 as char ==>
              Message(Text(reason))[i] == Text(reason)[i] as int
  {
    TextLength(reason);
    hide Text;
  }

  /** The type numbers and the units of the sensors, as the host's tables have them. */
  lemma NumbersExactly()
    ensures Code(MicPcm) == 0x0101 && Code(MicComp) == 0x0102 && Code(IrReceive) == 0x0201
    ensures Code(Sensor(Ambient)) == 0x0301 && Code(Sensor(Temperature)) == 0x0302 && Code(Sensor(Humidity)) == 0x0303
    ensures SPK_PCM == 0x0111 && SPK_COMP == 0x0112 && IR_TRANSMIT == 0x0202
    ensures SUBSCRIBE == 0xF001 && UNSUBSCRIBE == 0xF002 && ACK == 0xF010 && ERROR == 0xF011 && HEARTBEAT == 0xF020
    ensures Unit(Ambient) == 1 && Unit(Temperature) == 2 && Unit(Humidity) == 3
  {
  }

  lemma TextLength(reason: Reason)
    ensures |Text(reason)| <= 40
  {
  }

  /** Every frame a driver can produce fills at most its sender's static buffer and is legal. */
  lemma DataFramesFit(mic: MicFrame, opus: OpusFrame, raw: IrTimings, overflow: bool)
    ensures HEADER_SIZE + |PcmPayload(mic)| == HEADER_SIZE + 8 + 640
    ensures HEADER_SIZE + |CompPayload(opus)| <= HEADER_SIZE + 9 + 512
    ensures HEADER_SIZE + |IrReceivePayload(raw, overflow)| <= HEADER_SIZE + 4 + 1024
    ensures |PcmPayload(mic)| <= MAX_PAYLOAD && |CompPayload(opus)| <= MAX_PAYLOAD
    ensures |IrReceivePayload(raw, overflow)| <= MAX_PAYLOAD
  {
  }
}
