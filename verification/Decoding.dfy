/** What the host makes of the packets it reads: the decoding parts of its packet handlers. */
module Decoding {
  import opened Bytes
  import opened Protocol
  import opened Codec

  /** A data packet without its optional 64-bit timestamp. */
  function StripTimestamp(p: Packet): (seq<byte>, Option<nat>) {
    if p.flags / FLAG_HAS_TIMESTAMP % 2 == 0 || |p.payload| < 8 then (p.payload, None)
    else (p.payload[8..], Some(FromLittleEndian(p.payload[..8])))
  }

  /** What a packet says; `fits` tells whether its tail has the size announced in its body. */
  datatype Heard =
    | Malformed
    | Pcm(sampleRate: nat, channels: nat, bits: nat, count: nat, pcm: seq<byte>, fits: bool)
    | Comp(codec: nat, sampleRate: nat, channels: nat, frameMs: nat, encoded: seq<byte>, fits: bool)
    | Timings(length: nat, overflow: nat, raw: seq<uint16>)
    | Reading(unit: nat, quality: nat, bits: nat)
    | Acknowledged(requestId: nat, status: nat)
    | Rejected(requestId: nat, code: int, message: seq<byte>)
    | Beat(id: uint32)
    | Unexpected

  function DecodePcm(payload: seq<byte>): Heard {
    if |payload| < 8 then Malformed
    else
      var rate, channels, bits, count :=
        FromLittleEndian(payload[..4]), payload[4], payload[5], FromLittleEndian(payload[6..8]);
      var pcm := payload[8..];
      Pcm(rate, channels, bits, count, pcm, |pcm| == count * channels as int * (bits as int / 8))
  }

  function DecodeComp(payload: seq<byte>): Heard {
    if |payload| < 9 then Malformed
    else
      var encoded := payload[9..];
      Comp(payload[0], FromLittleEndian(payload[1..5]), payload[5], payload[6], encoded,
           |encoded| == FromLittleEndian(payload[7..9]))
  }

  function DecodeTimings(payload: seq<byte>): Heard {
    if |payload| < 4 then Malformed
    else
      var length, tail := FromLittleEndian(payload[..2]), payload[4..];
      if |tail| < 2 * length then Malformed else Timings(length, payload[2], U16sOf(tail, length))
  }

  function DecodeReading(payload: seq<byte>): Heard {
    if |payload| != 8 then Malformed else Reading(payload[0], payload[1], FromLittleEndian(payload[4..8]))
  }

  function DecodeControl(p: Packet): Heard {
    if p.typ == ACK then
      if |p.payload| != 8 then Malformed else Acknowledged(FromLittleEndian(p.payload[..4]), p.payload[4])
    else if p.typ == ERROR then
      if |p.payload| < 8 then Malformed
      else Rejected(FromLittleEndian(p.payload[..4]), I32At(p.payload, 4), p.payload[8..])
    else if p.typ == HEARTBEAT then Beat(p.id)
    else Unexpected
  }

  predicate IsControl(typ: uint16) {
    typ in {SUBSCRIBE, UNSUBSCRIBE, ACK, ERROR, HEARTBEAT}
  }

  /** `handle_packet`. */
  function Decode(p: Packet): Heard {
    if IsControl(p.typ) then DecodeControl(p)
    else
      var payload := StripTimestamp(p).0;
      if p.typ == MIC_PCM then DecodePcm(payload)
      else if p.typ == MIC_COMP then DecodeComp(payload)
      else if p.typ == IR_RECEIVE then DecodeTimings(payload)
      else if p.typ in {AMBIENT_LIGHT, TEMPERATURE, HUMIDITY} then DecodeReading(payload)
      else Unexpected
  }

  // ----- What the firmware sends is what the host hears -----

  lemma U16Front(x: uint16, b: seq<byte>, i: nat)
    requires i + 2 <= |b| && b[i..i + 2] == U16(x)
    ensures FromLittleEndian(b[i..i + 2]) == x
  {
    U16Slice(b, i, x);
    U16Read(b, i);
  }

  lemma U32Front(x: uint32, b: seq<byte>, i: nat)
    requires i + 4 <= |b| && b[i..i + 4] == U32(x)
    ensures FromLittleEndian(b[i..i + 4]) == x
  {
    U32Slice(b, i, x);
    U32Read(b, i);
  }

  lemma PcmLayout(sampleRate: uint32, channels: byte, bits: byte, count: uint16, tail: seq<byte>)
    ensures var b := AudioPcmBody(sampleRate, channels, bits, count) + tail;
            && U32At(b, 0) == sampleRate == FromLittleEndian(b[..4]) && b[4] == channels && b[5] == bits
            && U16At(b, 6) == count == FromLittleEndian(b[6..8]) && b[8..] == tail
  {
    var b := AudioPcmBody(sampleRate, channels, bits, count) + tail;
    hide FromLittleEndian, U32, U16, U32At, U16At;
    assert b[0..4] == U32(sampleRate) && b[6..8] == U16(count);
    U32Slice(b, 0, sampleRate);
    U32Front(sampleRate, b, 0);
    U16Slice(b, 6, count);
    U16Front(count, b, 6);
    assert b[..4] == b[0..4];
  }

  lemma PcmDecoded(n: uint16, tail: seq<byte>)
    requires |tail| == 2 * n
    ensures DecodePcm(AudioPcmBody(SAMPLE_RATE, 1, 16, n) + tail) == Pcm(SAMPLE_RATE, 1, 16, n, tail, true)
  {
    PcmLayout(SAMPLE_RATE, 1, 16, n, tail);
    hide FromLittleEndian, U32At, U16At, AudioPcmBody;
  }

  lemma ByType(id: uint32, b: seq<byte>)
    ensures Decode(Packet(0, MIC_PCM, id, b)) == DecodePcm(b)
    ensures Decode(Packet(0, MIC_COMP, id, b)) == DecodeComp(b)
    ensures Decode(Packet(0, IR_RECEIVE, id, b)) == DecodeTimings(b)
    ensures forall kind :: Decode(Packet(0, SensorCode(kind), id, b)) == DecodeReading(b)
  {
    hide DecodePcm, DecodeComp, DecodeTimings, DecodeReading;
  }

  /** The samples of a MicPCM packet reach the host in order and with the announced format. */
  lemma HearsPcm(samples: seq<int16>, id: uint32)
    requires |samples| < 0x1_0000
    ensures Decode(Packet(0, MIC_PCM, id, PcmPayload(samples))) ==
              Pcm(16000, 1, 16, |samples|, I16s(samples), true)
    ensures I16sOf(I16s(samples), |samples|) == samples
  {
    assert SAMPLE_RATE == 16000;
    hide *;
    PcmDecoded(|samples|, I16s(samples));
    PcmBody(samples);
    ByType(id, PcmPayload(samples));
    I16sRoundTrip(samples);
  }

  lemma PcmBody(samples: seq<int16>)
    requires |samples| < 0x1_0000
    ensures PcmPayload(samples) == AudioPcmBody(SAMPLE_RATE, 1, 16, |samples|) + I16s(samples)
  {
  }

  lemma HearsComp(encoded: seq<byte>, id: uint32)
    requires |encoded| < 0x1_0000
    ensures Decode(Packet(0, MIC_COMP, id, CompPayload(encoded))) == Comp(1, 16000, 1, 20, encoded, true)
  {
    var b := CompPayload(encoded);
    hide FromLittleEndian, U32, U16;
    assert b[1..5] == U32(SAMPLE_RATE) && b[7..9] == U16(|encoded|) && b[9..] == encoded;
    U32Front(SAMPLE_RATE, b, 1);
    U16Front(|encoded|, b, 7);
    ByType(id, b);
    hide Decode;
  }

  lemma HearsTimings(raw: seq<uint16>, overflow: bool, id: uint32)
    requires |raw| < 0x1_0000
    ensures Decode(Packet(0, IR_RECEIVE, id, IrReceivePayload(raw, overflow))) ==
              Timings(|raw|, if overflow then 1 else 0, raw)
  {
    var b := IrReceivePayload(raw, overflow);
    U16sRoundTrip(raw);
    hide FromLittleEndian, U16, U16s, U16sOf;
    assert b[0..2] == U16(|raw|);
    assert b[4..] == U16s(raw);
    U16Front(|raw|, b, 0);
    assert b[..2] == b[0..2];
    ByType(id, b);
    hide Decode;
  }

  lemma HearsReading(kind: SensorKind, valid: bool, bits: uint32, id: uint32)
    ensures Decode(Packet(0, SensorCode(kind), id, SensorPayload(kind, valid, bits))) ==
            Reading(if kind.Ambient? then 1 else if kind.Temperature? then 2 else 3, if valid then 255 else 0, bits)
  {
    var b := SensorPayload(kind, valid, bits);
    hide FromLittleEndian, U32;
    assert b[4..8] == U32(bits);
    U32Front(bits, b, 4);
    ByType(id, b);
    hide Decode;
  }

  lemma HearsReplies(id: uint32, reason: Reason)
    ensures Decode(HeartbeatReply(id)) == Beat(id)
    ensures Decode(AckReply(id)) == Acknowledged(id, 0)
    ensures Decode(ErrorReply(id, reason)) == Rejected(id, ErrorCode(reason), Message(Text(reason)))
  {
    hide FromLittleEndian, U32, I32At, Text, ErrorCode, Message;
    var a, e := AckBody(id), ErrorReply(id, reason).payload;
    assert a[0..4] == U32(id) && a[..4] == a[0..4];
    U32Front(id, a, 0);
    assert e[0..4] == U32(id) && e[..4] == e[0..4] && e[8..] == Message(Text(reason));
    U32Front(id, e, 0);
    ErrorCodeRead(id, ErrorCode(reason), Message(Text(reason)));
  }

  lemma ErrorCodeRead(id: uint32, code: int32, message: seq<byte>)
    ensures I32At(ErrorBody(id, code) + message, 4) == code
  {
    var b := ErrorBody(id, code) + message;
    assert b[4..8] == U32(Pattern(code));
    U32Slice(b, 4, Pattern(code));
  }

  /** A timestamp in front of any body is found and taken off, and a packet without the flag is left alone. */
  lemma TimestampStripped(typ: uint16, id: uint32, timestamp: nat, body: seq<byte>)
    requires Fits(timestamp, 8)
    ensures StripTimestamp(Packet(FLAG_HAS_TIMESTAMP, typ, id, LittleEndian(timestamp, 8) + body)) ==
              (body, Some(timestamp))
    ensures StripTimestamp(Packet(0, typ, id, body)) == (body, None)
  {
    LittleEndianRoundTrip(timestamp, 8);
    hide LittleEndian, FromLittleEndian;
    var b := LittleEndian(timestamp, 8) + body;
    assert b[..8] == LittleEndian(timestamp, 8) && b[8..] == body;
  }

  // ----- Every packet, well formed or not -----

  lemma PcmExactly(b: seq<byte>)
    ensures DecodePcm(b) ==
            if |b| < 8 then Malformed
            else Pcm(U32At(b, 0), b[4], b[5], U16At(b, 6), b[8..],
                     |b| == 8 + U16At(b, 6) * b[4] as int * (b[5] as int / 8))
  {
    if |b| >= 8 {
      U32Read(b, 0);
      U16Read(b, 6);
      assert b[..4] == b[0..4];
    }
    hide FromLittleEndian, U32At, U16At;
  }

  lemma CompExactly(b: seq<byte>)
    ensures DecodeComp(b) ==
            if |b| < 9 then Malformed
            else Comp(b[0], U32At(b, 1), b[5], b[6], b[9..], |b| == 9 + U16At(b, 7))
  {
    if |b| >= 9 {
      U32Read(b, 1);
      U16Read(b, 7);
    }
    hide FromLittleEndian, U32At, U16At;
  }

  lemma TimingsExactly(b: seq<byte>)
    ensures DecodeTimings(b) ==
            if |b| < 4 || |b| < 4 + 2 * U16At(b, 0) then Malformed
            else Timings(U16At(b, 0), b[2], U16sOf(b[4..], U16At(b, 0)))
  {
    if |b| >= 4 {
      U16Read(b, 0);
      assert b[..2] == b[0..2];
    }
    hide FromLittleEndian, U16At, U16sOf;
  }

  lemma ReadingExactly(b: seq<byte>)
    ensures DecodeReading(b) == if |b| != 8 then Malformed else Reading(b[0], b[1], U32At(b, 4))
  {
    if |b| == 8 {
      U32Read(b, 4);
    }
    hide FromLittleEndian, U32At;
  }

  /** What the host makes of any packet at all: which are malformed, and otherwise which bytes mean what. A timestamp
      is taken off a flagged payload of at least eight bytes. */
  lemma DecodesExactly(p: Packet)
    ensures StripTimestamp(p) ==
            if p.flags % 2 == 1 && |p.payload| >= 8 then (p.payload[8..], Some(FromLittleEndian(p.payload[..8])))
            else (p.payload, None)
    ensures var b := StripTimestamp(p).0;
            && (p.typ == 0x0101 ==> Decode(p) == DecodePcm(b))
            && (p.typ == 0x0102 ==> Decode(p) == DecodeComp(b))
            && (p.typ == 0x0201 ==> Decode(p) == DecodeTimings(b))
            && (p.typ in {0x0301, 0x0302, 0x0303} ==> Decode(p) == DecodeReading(b))
    ensures p.typ == 0xF010 && |p.payload| == 8 ==> Decode(p) == Acknowledged(U32At(p.payload, 0), p.payload[4])
    ensures p.typ == 0xF011 && |p.payload| >= 8 ==>
              Decode(p) == Rejected(U32At(p.payload, 0), I32At(p.payload, 4), p.payload[8..])
    ensures p.typ == 0xF020 ==> Decode(p) == Beat(p.id)
    ensures (p.typ == 0xF010 && |p.payload| != 8) || (p.typ == 0xF011 && |p.payload| < 8) ==> Decode(p) == Malformed
  {
    if |p.payload| >= 8 {
      U32Read(p.payload, 0);
      assert p.payload[..4] == p.payload[0..4];
    }
    hide FromLittleEndian, U32At, I32At, DecodePcm, DecodeComp, DecodeTimings, DecodeReading;
  }
}
