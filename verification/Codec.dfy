/** The host's packed formats and the firmware's packed structs are the same bytes, for the header and for every
    body. */
module Codec {
  import opened Bytes
  import opened Protocol
  import opened Parsing

  // The format strings of the host.
  const HEADER_FORMAT: Format := I(B(B(H(I(I(End))))))
  const SUBSCRIBE_FORMAT: Format := H(H(I(End)))
  const UNSUBSCRIBE_FORMAT: Format := H(End)
  const ACK_FORMAT: Format := I(B(B(B(B(End)))))
  const ERROR_FORMAT: Format := I(I(End))
  const AUDIO_PCM_FORMAT: Format := I(B(B(H(End))))
  const AUDIO_COMP_FORMAT: Format := B(I(B(B(H(End)))))
  const IR_TRANSMIT_FORMAT: Format := H(I(H(End)))
  const IR_RECEIVE_FORMAT: Format := H(B(B(End)))
  const SENSOR_FORMAT: Format := B(B(H(I(End))))

  // ----- Field by field -----

  lemma PackByte(x: byte, f: Format, values: Values)
    requires AllFit(f, values)
    ensures AllFit(B(f), Value(x, values)) && Pack(B(f), Value(x, values)) == [x] + Pack(f, values)
  {
    ByteField(x);
  }

  lemma PackU16(x: uint16, f: Format, values: Values)
    requires AllFit(f, values)
    ensures AllFit(H(f), Value(x, values)) && Pack(H(f), Value(x, values)) == U16(x) + Pack(f, values)
  {
    U16Field(x);
  }

  lemma PackU32(x: uint32, f: Format, values: Values)
    requires AllFit(f, values)
    ensures AllFit(I(f), Value(x, values)) && Pack(I(f), Value(x, values)) == U32(x) + Pack(f, values)
  {
    U32Field(x);
  }

  lemma PackEnd()
    ensures AllFit(End, Nil) && Pack(End, Nil) == []
  {
  }

  // ----- The header -----

  function HeaderValues(h: Header): Values {
    Value(h.magic, Value(h.version, Value(h.flags, Value(h.typ, Value(h.size, Value(h.id, Nil))))))
  }

  /** The host's "<IBBHII" is the firmware's header struct. */
  lemma HeaderAgrees(h: Header)
    ensures AllFit(HEADER_FORMAT, HeaderValues(h)) && Pack(HEADER_FORMAT, HeaderValues(h)) == EncodeHeader(h)
  {
    hide Pack, AllFit, U32, U16;
    PackEnd();
    PackU32(h.id, End, Nil);
    var v1 := Value(h.id, Nil);
    PackU32(h.size, I(End), v1);
    var v2 := Value(h.size, v1);
    PackU16(h.typ, I(I(End)), v2);
    var v3 := Value(h.typ, v2);
    PackByte(h.flags, H(I(I(End))), v3);
    var v4 := Value(h.flags, v3);
    PackByte(h.version, B(H(I(I(End)))), v4);
    PackU32(h.magic, B(B(H(I(I(End))))), Value(h.version, v4));
  }

  lemma U16Reverse(b: seq<byte>, i: nat)
    requires i + 2 <= |b|
    ensures U16(U16At(b, i)) == b[i..i + 2]
  {
    U16Field(U16At(b, i));
    U16Read(b, i);
    FromLittleEndianRoundTrip(b[i..i + 2]);
  }

  lemma U32Reverse(b: seq<byte>, i: nat)
    requires i + 4 <= |b|
    ensures U32(U32At(b, i)) == b[i..i + 4]
  {
    U32Field(U32At(b, i));
    U32Read(b, i);
    FromLittleEndianRoundTrip(b[i..i + 4]);
  }

  /** Decoding any sixteen bytes and encoding them again changes nothing; with `HeaderRoundTrip`, the two are
      inverses. */
  lemma HeaderReverse(b: seq<byte>)
    requires |b| >= HEADER_SIZE
    ensures EncodeHeader(HeaderAt(b)) == b[..HEADER_SIZE]
  {
    U32Reverse(b, 0);
    U16Reverse(b, 6);
    U32Reverse(b, 8);
    U32Reverse(b, 12);
    hide U32, U16, U16At, U32At;
    assert b[..16] == b[0..4] + [b[4], b[5]] + b[6..8] + b[8..12] + b[12..16];
  }

  /** What the host unpacks from any header is what the firmware's struct fields hold. */
  lemma HeaderUnpacked(b: seq<byte>)
    requires |b| >= HEADER_SIZE
    ensures Size(HEADER_FORMAT) == HEADER_SIZE && Unpack(HEADER_FORMAT, b) == HeaderValues(HeaderAt(b))
  {
    HeaderReverse(b);
    HeaderAgrees(HeaderAt(b));
    hide HeaderAt, EncodeHeader, Unpack, Pack, AllFit, HeaderValues, Size, B, H, I;
    PackRoundTrip(HEADER_FORMAT, HeaderValues(HeaderAt(b)), b[HEADER_SIZE..]);
    assert b[..HEADER_SIZE] + b[HEADER_SIZE..] == b;
  }

  // ----- Which headers are refused -----

  lemma MagicBytes(b: seq<byte>)
    requires |b| >= 4
    ensures U32At(b, 0) == 0x57535031 <==> b[..4] == [0x31, 0x50, 0x53, 0x57]
  {
    U32Reverse(b, 0);
    assert b[0..4] == b[..4];
    assert U32(0x57535031) == [0x31, 0x50, 0x53, 0x57];
    if b[..4] == [0x31, 0x50, 0x53, 0x57] {
      U32Slice(b, 0, 0x57535031);
    }
  }

  /** The firmware ends the session exactly at sixteen bytes that do not start with "1PSW", are not of version 1, or
      announce more than 4096 bytes; it waits exactly while such a header or the bytes it announces are incomplete;
      and otherwise it finds the packet that the header and the bytes after it describe. */
  lemma FrontExactly(b: seq<byte>)
    ensures var size: int := if |b| >= 16 then U32At(b, 8) else 0;
            var good := |b| >= 16 && b[..4] == [0x31, 0x50, 0x53, 0x57] && b[4] == 1 && size <= 4096;
            && (FrontOf(b).Corrupt? <==> |b| >= 16 && !good)
            && (FrontOf(b).Incomplete? <==> |b| < 16 || (good && |b| < 16 + size))
            && (FrontOf(b).Whole? ==>
                  FrontOf(b).packet == Packet(b[5], U16At(b, 6), U32At(b, 12), b[16..16 + size]))
  {
    if |b| >= 16 {
      MagicBytes(b);
    }
    hide U32At, U16At;
  }

  /** The host refuses the same headers, and those of a type it does not know. */
  lemma ReadExactly(b: seq<byte>)
    ensures ReadPacket(b) == Refused <==>
              |b| >= 16
              && (FrontOf(b).Corrupt?
                  || U16At(b, 6) !in {0x0101, 0x0102, 0x0111, 0x0112, 0x0201, 0x0202, 0x0301, 0x0302, 0x0303,
                                      0xF001, 0xF002, 0xF010, 0xF011, 0xF020})
  {
    hide U32At, U16At;
  }

  // ----- Bodies -----

  function SubscribeValues(target: uint16, intervalMs: uint16, options: uint32): Values {
    Value(target, Value(intervalMs, Value(options, Nil)))
  }

  lemma SubscribeAgrees(target: uint16, intervalMs: uint16, options: uint32)
    ensures AllFit(SUBSCRIBE_FORMAT, SubscribeValues(target, intervalMs, options))
    ensures Pack(SUBSCRIBE_FORMAT, SubscribeValues(target, intervalMs, options)) ==
              SubscribeBody(target, intervalMs, options)
  {
    hide Pack, AllFit, U32, U16;
    PackEnd();
    PackU32(options, End, Nil);
    PackU16(intervalMs, I(End), Value(options, Nil));
    PackU16(target, H(I(End)), Value(intervalMs, Value(options, Nil)));
  }

  lemma UnsubscribeAgrees(target: uint16)
    ensures AllFit(UNSUBSCRIBE_FORMAT, Value(target, Nil))
              && Pack(UNSUBSCRIBE_FORMAT, Value(target, Nil)) == U16(target)
  {
    hide Pack, AllFit, U16;
    PackEnd();
    PackU16(target, End, Nil);
  }

  function AckValues(requestId: uint32): Values {
    Value(requestId, Value(0, Value(0, Value(0, Value(0, Nil)))))
  }

  lemma AckAgrees(requestId: uint32)
    ensures AllFit(ACK_FORMAT, AckValues(requestId)) && Pack(ACK_FORMAT, AckValues(requestId)) == AckBody(requestId)
  {
    hide Pack, AllFit, U32;
    PackEnd();
    PackByte(0, End, Nil);
    PackByte(0, B(End), Value(0, Nil));
    PackByte(0, B(B(End)), Value(0, Value(0, Nil)));
    PackByte(0, B(B(B(End))), Value(0, Value(0, Value(0, Nil))));
    PackU32(requestId, B(B(B(B(End)))), Value(0, Value(0, Value(0, Value(0, Nil)))));
  }

  /** The bit pattern of a signed 32-bit value. */
  function Pattern(x: int32): uint32 {
    if x < 0 then x + 0x1_0000_0000 else x
  }

  function Signed(u: uint32): int32 {
    if u < 0x8000_0000 then u else u - 0x1_0000_0000
  }

  function ErrorValues(requestId: uint32, code: int32): Values {
    Value(requestId, Value(Pattern(code), Nil))
  }

  lemma ErrorAgrees(requestId: uint32, code: int32)
    ensures AllFit(ERROR_FORMAT, ErrorValues(requestId, code))
    ensures Pack(ERROR_FORMAT, ErrorValues(requestId, code)) == ErrorBody(requestId, code)
    ensures Signed(Pattern(code)) == code
  {
    hide Pack, AllFit, U32;
    PackEnd();
    PackU32(Pattern(code), End, Nil);
    PackU32(requestId, I(End), Value(Pattern(code), Nil));
  }

  function AudioPcmValues(sampleRate: uint32, channels: byte, bits: byte, count: uint16): Values {
    Value(sampleRate, Value(channels, Value(bits, Value(count, Nil))))
  }

  lemma AudioPcmAgrees(sampleRate: uint32, channels: byte, bits: byte, count: uint16)
    ensures AllFit(AUDIO_PCM_FORMAT, AudioPcmValues(sampleRate, channels, bits, count))
    ensures Pack(AUDIO_PCM_FORMAT, AudioPcmValues(sampleRate, channels, bits, count)) ==
              AudioPcmBody(sampleRate, channels, bits, count)
  {
    hide Pack, AllFit, U32, U16;
    PackEnd();
    PackU16(count, End, Nil);
    PackByte(bits, H(End), Value(count, Nil));
    PackByte(channels, B(H(End)), Value(bits, Value(count, Nil)));
    PackU32(sampleRate, B(B(H(End))), Value(channels, Value(bits, Value(count, Nil))));
  }

  function AudioCompValues(codec: byte, sampleRate: uint32, channels: byte, frameMs: byte, size: uint16): Values {
    Value(codec, Value(sampleRate, Value(channels, Value(frameMs, Value(size, Nil)))))
  }

  lemma AudioCompAgrees(sampleRate: uint32, channels: byte, frameMs: byte, size: uint16)
    ensures AllFit(AUDIO_COMP_FORMAT, AudioCompValues(OPUS, sampleRate, channels, frameMs, size))
    ensures Pack(AUDIO_COMP_FORMAT, AudioCompValues(OPUS, sampleRate, channels, frameMs, size)) ==
            AudioCompBody(sampleRate, channels, frameMs, size)
  {
    hide Pack, AllFit, U32, U16;
    PackEnd();
    PackU16(size, End, Nil);
    PackByte(frameMs, H(End), Value(size, Nil));
    PackByte(channels, B(H(End)), Value(frameMs, Value(size, Nil)));
    PackU32(sampleRate, B(B(H(End))), Value(channels, Value(frameMs, Value(size, Nil))));
    PackByte(OPUS, I(B(B(H(End)))), Value(sampleRate, Value(channels, Value(frameMs, Value(size, Nil)))));
  }

  function IrTransmitValues(length: uint16, carrierHz: uint32, repeats: uint16): Values {
    Value(length, Value(carrierHz, Value(repeats, Nil)))
  }

  lemma IrTransmitAgrees(length: uint16, carrierHz: uint32, repeats: uint16)
    ensures AllFit(IR_TRANSMIT_FORMAT, IrTransmitValues(length, carrierHz, repeats))
    ensures Pack(IR_TRANSMIT_FORMAT, IrTransmitValues(length, carrierHz, repeats)) ==
              IrTransmitBody(length, carrierHz, repeats)
  {
    hide Pack, AllFit, U32, U16;
    PackEnd();
    PackU16(repeats, End, Nil);
    PackU32(carrierHz, H(End), Value(repeats, Nil));
    PackU16(length, I(H(End)), Value(carrierHz, Value(repeats, Nil)));
  }

  function IrReceiveValues(length: uint16, overflow: bool): Values {
    Value(length, Value(if overflow then 1 else 0, Value(0, Nil)))
  }

  lemma IrReceiveAgrees(length: uint16, overflow: bool)
    ensures AllFit(IR_RECEIVE_FORMAT, IrReceiveValues(length, overflow))
    ensures Pack(IR_RECEIVE_FORMAT, IrReceiveValues(length, overflow)) == IrReceiveBody(length, overflow)
  {
    hide Pack, AllFit, U16;
    PackEnd();
    PackByte(0, End, Nil);
    PackByte(if overflow then 1 else 0, B(End), Value(0, Nil));
    PackU16(length, B(B(End)), Value(if overflow then 1 else 0, Value(0, Nil)));
  }

  function SensorValues(unit: byte, quality: byte, bits: uint32): Values {
    Value(unit, Value(quality, Value(0, Value(bits, Nil))))
  }

  lemma SensorAgrees(unit: byte, quality: byte, bits: uint32)
    ensures AllFit(SENSOR_FORMAT, SensorValues(unit, quality, bits))
    ensures Pack(SENSOR_FORMAT, SensorValues(unit, quality, bits)) == SensorBody(unit, quality, bits)
  {
    hide Pack, AllFit, U32;
    PackEnd();
    PackU32(bits, End, Nil);
    PackU16(0, I(End), Value(bits, Nil));
    PackByte(quality, H(I(End)), Value(0, Value(bits, Nil)));
    PackByte(unit, B(H(I(End))), Value(quality, Value(0, Value(bits, Nil))));
  }
}
