/** The firmware as it runs: globals updated in place, a receive buffer compacted with memmove, packets assembled in
    buffers at a moving offset. Every method computes the meaning given in Session.dfy. */
module Firmware {
  import opened Bytes
  import opened Protocol
  import opened Parsing
  import opened Transmit
  import opened Drivers
  import opened Session
  import opened History
  import opened Emission
  import opened Reactions

  /** `memcpy(dst + at, src, |src|)`. */
  method MemCpy(dst: array<byte>, at: nat, src: seq<byte>)
    requires at + |src| <= dst.Length
    modifies dst
    ensures dst[..at] == old(dst[..at]) && dst[at..at + |src|] == src && dst[at + |src|..] == old(dst[at + |src|..])
  {
    for i := 0 to |src|
      invariant dst[..at] == old(dst[..at]) && dst[at + |src|..] == old(dst[at + |src|..])
      invariant forall j :: 0 <= j < i ==> dst[at + j] == src[j]
    {
      dst[at + i] := src[i];
    }
  }

  /** `memmove(buffer, buffer + from, count)` towards the front, in place. */
  method MemMoveDown(buffer: array<byte>, from: nat, count: nat)
    requires from + count <= buffer.Length
    modifies buffer
    ensures buffer[..count] == old(buffer[from..from + count])
  {
    for i := 0 to count
      invariant forall j :: 0 <= j < i ==> buffer[j] == old(buffer[from + j])
      invariant forall j :: from + i <= j < buffer.Length ==> buffer[j] == old(buffer[j])
    {
      buffer[i] := buffer[from + i];
    }
  }

  /** A header, a body and a tail copied one after the other at a moving offset are the packet's frame. */
  method Assemble(packet: array<byte>, ghost p: Packet, hdr: seq<byte>, body: seq<byte>, tail: seq<byte>)
      returns (offset: nat)
    requires Legal(p) && hdr == EncodeHeader(HeaderOf(p)) && p.payload == body + tail
    requires FrameSize(p) <= packet.Length
    modifies packet
    ensures offset == FrameSize(p) && packet[..offset] == Frame(p)
  {
    hide EncodeHeader;
    offset := 0;
    MemCpy(packet, offset, hdr);
    offset := offset + |hdr|;
    MemCpy(packet, offset, body);
    offset := offset + |body|;
    assert packet[..offset] == hdr + body by {
      assert packet[..|hdr|] == hdr && packet[|hdr|..offset] == body;
    }
    ghost var before := packet[..offset];
    MemCpy(packet, offset, tail);
    assert packet[..offset] == before;
    offset := offset + |tail|;
    assert packet[..offset] == before + tail;
    assert (hdr + body) + tail == hdr + (body + tail);
  }

  /** The flags of the subscription record that are not about a sensor. */
  datatype Flags = Flags(micPcm: bool, micComp: bool, irReceive: bool)

  class Device {
    const env: Env

    // The session globals.
    var sub: Flags
    var ambient: SensorState
    var temperature: SensorState
    var humidity: SensorState
    var micPcmSeq: uint32
    var micCompSeq: uint32
    var irReceiveSeq: uint32
    const rxBuffer: array<byte>
    var rxSize: nat

    // The client connection, the clock, and how often the outside world has been asked.
    var open: bool
    var inbox: seq<byte>
    var wire: seq<byte>
    var clock: nat
    var writes: nat
    var plays: nat
    var decodes: nat

    /** What all of this amounts to; its trace exists only here. */
    ghost var model: World

    /** The fields hold the world `w`. */
    ghost predicate Shows(w: World)
      reads this, rxBuffer
    {
      rxBuffer.Length == RX_BUFFER_SIZE && rxSize <= RX_BUFFER_SIZE
      && w == World(open,
                    State(sub.micPcm, sub.micComp, sub.irReceive, ambient, temperature, humidity,
                          micPcmSeq, micCompSeq, irReceiveSeq, rxBuffer[..rxSize]),
                    inbox, clock, Cursors(writes, plays, decodes), w.trace)
      && wire == Wire(w.trace)
    }

    ghost predicate Valid()
      reads this, rxBuffer
    {
      Shows(model)
    }

    /** The packet `p` has been written, but the trace does not say so yet. */
    ghost predicate Ahead(p: Packet)
      reads this, rxBuffer
    {
      rxBuffer.Length == RX_BUFFER_SIZE && rxSize <= RX_BUFFER_SIZE && Legal(p) && KnownType(p.typ)
      && model == World(open,
                        State(sub.micPcm, sub.micComp, sub.irReceive, ambient, temperature, humidity,
                              micPcmSeq, micCompSeq, irReceiveSeq, rxBuffer[..rxSize]),
                        inbox, clock, Cursors(model.cursors.writes, plays, decodes), model.trace)
      && writes == model.cursors.writes + 1
      && wire == Wire(model.trace) + Frame(p)[..Send(env, model, p).accepted]
    }

    constructor (env: Env)
      ensures Valid() && model == Initial() && this.env == env && fresh(rxBuffer)
    {
      this.env := env;
      sub := Flags(false, false, false);
      ambient := SensorState(false, 1000, false, 0, false, 0.0, 0);
      temperature := SensorState(false, 2000, false, 0, false, 0.0, 0);
      humidity := SensorState(false, 2000, false, 0, false, 0.0, 0);
      micPcmSeq, micCompSeq, irReceiveSeq := 0, 0, 0;
      rxBuffer := new byte[RX_BUFFER_SIZE];
      rxSize := 0;
      open, inbox, wire, clock := false, [], [], 0;
      writes, plays, decodes := 0, 0, 0;
      model := Initial();
    }

    // ----- Connection -----

    method ResetSessionState()
      requires Valid()
      modifies this
      ensures Valid() && model == old(model).(s := Reset(old(model).s))
    {
      hide Wire, ResetSensor;
      ResetSensors();
      sub := Flags(false, false, false);
      rxSize := 0;
      micPcmSeq, micCompSeq, irReceiveSeq := 0, 0, 0;
      assert rxBuffer[..0] == [];
      model := model.(s := State(false, false, false, ambient, temperature, humidity, 0, 0, 0, []));
    }

    method ResetSensors()
      requires Valid()
      modifies this
      ensures Valid()
      ensures var s := old(model).s;
              model == old(model).(s := s.(ambient := ResetSensor(Ambient, s.ambient),
                                           temperature := ResetSensor(Temperature, s.temperature),
                                           humidity := ResetSensor(Humidity, s.humidity)))
    {
      hide Wire;
      ambient := SensorState(false, 1000, false, 0, false, ambient.lastValue, 0);
      temperature := SensorState(false, 2000, false, 0, false, temperature.lastValue, 0);
      humidity := SensorState(false, 2000, false, 0, false, humidity.lastValue, 0);
      model := model.(s := model.s.(ambient := ambient, temperature := temperature, humidity := humidity));
    }

    method DisconnectClient(ghost why: Why)
      requires Valid()
      modifies this
      ensures Valid() && model == Close(old(model), why)
    {
      hide Reset;
      open := false;
      inbox := [];
      model := model.(open := false, inbox := []);
      ResetSessionState();
      model := model.(trace := After(model.trace, Closed(why)));
    }

    // ----- esp32/wsp_packet.cpp -----

    /** Write an assembled packet and record how far the socket got. */
    method Transmit(packet: array<byte>, size: nat, ghost p: Packet) returns (ok: bool)
      requires Valid() && Legal(p) && KnownType(p.typ) && size == FrameSize(p) <= packet.Length
                && packet[..size] == Frame(p)
      modifies `wire, `writes
      ensures Ahead(p) && (ok <==> !Failed(Send(env, model, p)))
    {
      hide Frame, Wire;
      var accepted: seq<byte>;
      ok, accepted := WspWritePacket(env.link(writes), open, packet, size);
      writes := writes + 1;
      wire := wire + accepted;
      assert packet[..Accepted(env.link(old(writes)), open, size)] ==
             packet[..size][..Accepted(env.link(old(writes)), open, size)];
      assert |accepted| == size <==> accepted == packet[..size];
    }

    method SendControl(typ: uint16, requestId: uint32, payload: seq<byte>) returns (ok: bool)
      requires Valid() && KnownType(typ)
      modifies `wire, `writes
      ensures if |payload| > 128 then !ok && Valid()
              else Ahead(Packet(0, typ, requestId, payload))
                   && (ok <==> !Failed(Send(env, model, Packet(0, typ, requestId, payload))))
    {
      if |payload| > MAX_PAYLOAD || |payload| > 128 {
        return false;
      }
      var packet := new byte[HEADER_SIZE + 128];
      ghost var p := Packet(0, typ, requestId, payload);
      var hdr := EncodeHeader(Header(MAGIC, PROTO_VER, 0, typ, |payload|, requestId));
      hide EncodeHeader, Frame, Wire;
      var size := Assemble(packet, p, hdr, payload, []);
      ok := Transmit(packet, size, p);
    }

    /** The trace after the packet being handled has been answered; every caller ignores whether that failed. */
    ghost method Record(p: Packet, action: Action, reply: Packet)
      requires Ahead(reply)
      modifies `model
      ensures Valid()
      ensures model == old(model).(cursors := old(model).cursors.(writes := writes),
                                   trace := After(old(model).trace,
                                       Handled(p, action, Some(Send(env, old(model), reply)))))
    {
      hide KnownType, Frame, Accepted;
      var sent := Send(env, model, reply);
      model := model.(cursors := model.cursors.(writes := writes),
                      trace := After(model.trace, Handled(p, action, Some(sent))));
      assert SentOk(sent) && AcceptedBytes(sent) == Frame(reply)[..sent.accepted];
    }

    method WspSendAck(requestId: uint32, ghost p: Packet, ghost action: Action)
      requires Valid()
      modifies `wire, `writes, `model
      ensures Valid()
      ensures var reply := AckReply(requestId);
              model == old(model).(cursors := old(model).cursors.(writes := old(model).cursors.writes + 1),
                                   trace := After(old(model).trace,
                                       Handled(p, action, Some(Send(env, old(model), reply)))))
    {
      var body := U32(requestId) + [0, 0, 0, 0];
      assert Packet(0, ACK, requestId, body) == AckReply(requestId);
      var _ := SendControl(ACK, requestId, body);
      hide AckReply, Frame, Wire;
      Record(p, action, AckReply(requestId));
    }

    method WspSendError(requestId: uint32, reason: Reason, ghost p: Packet, ghost action: Action)
      requires Valid()
      modifies `wire, `writes, `model
      ensures Valid()
      ensures var reply := ErrorReply(requestId, reason);
              model == old(model).(cursors := old(model).cursors.(writes := old(model).cursors.writes + 1),
                                   trace := After(old(model).trace,
                                       Handled(p, action, Some(Send(env, old(model), reply)))))
    {
      RepliesFit(requestId, reason);
      hide Text, ErrorCode, Message, Wire, Frame, Accepted;
      var payload := ErrorBody(requestId, ErrorCode(reason)) + Message(Text(reason));
      ghost var reply := ErrorReply(requestId, reason);
      assert Packet(0, ERROR, requestId, payload) == reply && |payload| <= 128;
      var _ := SendControl(ERROR, requestId, payload);
      hide ErrorReply, ErrorBody;
      Record(p, action, reply);
    }

    method WspSendHeartbeat(requestId: uint32, ghost p: Packet)
      requires Valid()
      modifies `wire, `writes, `model
      ensures Valid()
      ensures var reply := HeartbeatReply(requestId);
              model == old(model).(cursors := old(model).cursors.(writes := old(model).cursors.writes + 1),
                                   trace := After(old(model).trace,
                                       Handled(p, Nothing, Some(Send(env, old(model), reply)))))
    {
      hide Wire, Frame, Accepted;
      var _ := SendControl(HEARTBEAT, requestId, []);
      Record(p, Nothing, HeartbeatReply(requestId));
    }

    // ----- Reactions -----

    function Sensor(kind: SensorKind): SensorState
      reads this
    {
      match kind
      case Ambient => ambient
      case Temperature => temperature
      case Humidity => humidity
    }

    method SetSensor(kind: SensorKind, c: SensorState)
      requires Valid()
      modifies `ambient, `temperature, `humidity, `model
      ensures Valid() && model == old(model).(s := With(old(model).s, kind, c))
    {
      hide Wire;
      match kind {
        case Ambient => ambient := c;
        case Temperature => temperature := c;
        case Humidity => humidity := c;
      }
      model := model.(s := With(model.s, kind, c));
    }

    method SetFlags(flags: Flags)
      requires Valid()
      modifies `sub, `model
      ensures Valid()
      ensures var s := old(model).s;
              model == old(model).(s := s.(micPcm := flags.micPcm, micComp := flags.micComp,
                                           irReceive := flags.irReceive))
    {
      hide Wire;
      sub := flags;
      model := model.(s := model.s.(micPcm := flags.micPcm, micComp := flags.micComp, irReceive := flags.irReceive));
    }

    /** The branches that only switch a flag. */
    method SwitchAndAck(flags: Flags, requestId: uint32, ghost p: Packet, ghost action: Action)
      requires Valid()
      modifies this
      ensures Valid()
      ensures var w, reply := old(model), AckReply(requestId);
              model == w.(s := w.s.(micPcm := flags.micPcm, micComp := flags.micComp, irReceive := flags.irReceive),
                          cursors := w.cursors.(writes := w.cursors.writes + 1),
                          trace := After(w.trace, Handled(p, action, Some(Send(env, w, reply)))))
    {
      hide Wire, AckReply, Accepted;
      SetFlags(flags);
      WspSendAck(requestId, p, action);
    }

    method HandleSubscribe(ghost p: Packet, requestId: uint32, payload: seq<byte>)
      requires Valid() && p.typ == SUBSCRIBE && p.id == requestId && p.payload == payload
      modifies this
      ensures Valid() && model == Handle(env, old(model), p)
    {
      hide Wire, Frame, U16At, U32At, AckReply, ErrorReply, HeartbeatReply, Accepted, With, Of, KindOf;
      hide ReactUnsubscribe, ReactIrTransmit, ReactSpkPcm, ReactSpkComp;
      if |payload| != 8 {
        WspSendError(requestId, BadSubscribeSize, p, Nothing);
        return;
      }
      var target, intervalMs, onChangeOnly := U16At(payload, 0), U16At(payload, 2), U32At(payload, 4) % 2 == 1;
      if target == MIC_PCM {
        SwitchAndAck(sub.(micPcm := true), requestId, p, Nothing);
        return;
      }
      if target == MIC_COMP {
        if !env.encoderReady {
          WspSendError(requestId, EncoderNotReady, p, Nothing);
          return;
        }
        SwitchAndAck(sub.(micComp := true), requestId, p, Nothing);
        return;
      }
      if target == IR_RECEIVE {
        SwitchAndAck(sub.(irReceive := true), requestId, p, DiscardCapture);
        return;
      }
      var kind := KindOf(target);
      if kind.Some? {
        HandleSubscribeSensor(p, requestId, kind.value, intervalMs, onChangeOnly);
        return;
      }
      WspSendError(requestId, SubscribeTarget, p, Nothing);
    }

    /** The three sensor branches, which differ only in the sensor. */
    method HandleSubscribeSensor(ghost p: Packet, requestId: uint32, kind: SensorKind,
                                 intervalMs: uint16, onChangeOnly: bool)
      requires Valid() && p.typ == SUBSCRIBE && p.id == requestId && |p.payload| == 8
      requires KindOf(U16At(p.payload, 0)) == Some(kind)
      requires intervalMs == U16At(p.payload, 2) && onChangeOnly == (U32At(p.payload, 4) % 2 == 1)
      modifies this
      ensures Valid() && model == Handle(env, old(model), p)
    {
      hide Wire, Frame, U16At, U32At, AckReply, ErrorReply, Accepted, With, NormalizedInterval;
      if !SensorReady(env, kind) {
        WspSendError(requestId, if kind.Ambient? then LightNotReady else DhtNotReady, p, Nothing);
        return;
      }
      var c := Sensor(kind).(enabled := true, intervalMs := NormalizedInterval(kind, intervalMs),
                             onChangeOnly := onChangeOnly, lastMs := 0, haveLast := false);
      SetSensor(kind, c);
      WspSendAck(requestId, p, Nothing);
    }

    method HandleUnsubscribe(ghost p: Packet, requestId: uint32, payload: seq<byte>)
      requires Valid() && p.typ == UNSUBSCRIBE && p.id == requestId && p.payload == payload
      modifies this
      ensures Valid() && model == Handle(env, old(model), p)
    {
      hide Wire, Frame, U16At, U32At, AckReply, ErrorReply, HeartbeatReply, Accepted, With, Of, KindOf;
      hide ReactSubscribe, ReactIrTransmit, ReactSpkPcm, ReactSpkComp;
      if |payload| != 2 {
        WspSendError(requestId, BadUnsubscribeSize, p, Nothing);
        return;
      }
      var target := U16At(payload, 0);
      if target == MIC_PCM {
        SwitchAndAck(sub.(micPcm := false), requestId, p, Nothing);
        return;
      }
      if target == MIC_COMP {
        SwitchAndAck(sub.(micComp := false), requestId, p, Nothing);
        return;
      }
      if target == IR_RECEIVE {
        SwitchAndAck(sub.(irReceive := false), requestId, p, Nothing);
        return;
      }
      var kind := KindOf(target);
      if kind.Some? {
        HandleUnsubscribeSensor(p, requestId, kind.value);
        return;
      }
      WspSendError(requestId, UnsubscribeTarget, p, Nothing);
    }

    method HandleUnsubscribeSensor(ghost p: Packet, requestId: uint32, kind: SensorKind)
      requires Valid() && p.typ == UNSUBSCRIBE && p.id == requestId && |p.payload| == 2
      requires KindOf(U16At(p.payload, 0)) == Some(kind)
      modifies this
      ensures Valid() && model == Handle(env, old(model), p)
    {
      hide Wire, Frame, U16At, U32At, AckReply, ErrorReply, Accepted, With;
      hide ReactSubscribe, ReactIrTransmit, ReactSpkPcm, ReactSpkComp;
      SetSensor(kind, Sensor(kind).(enabled := false));
      WspSendAck(requestId, p, Nothing);
    }

    /** The trace after a packet that needs no answer. */
    ghost method RecordSilent(p: Packet, action: Action)
      requires Valid()
      modifies `model
      ensures Valid() && model == old(model).(trace := After(old(model).trace, Handled(p, action, None)))
    {
      model := model.(trace := After(model.trace, Handled(p, action, None)));
    }

    method HandleIrTransmit(ghost p: Packet, sequence: uint32, payload: seq<byte>)
      requires Valid() && p.typ == IR_TRANSMIT && p.id == sequence && p.payload == payload
      modifies this
      ensures Valid() && model == Handle(env, old(model), p)
    {
      hide Wire, Frame, U16At, U32At, U16sOf, ErrorReply, Accepted, Bursts;
      if |payload| < 8 {
        WspSendError(sequence, IrTooShort, p, Nothing);
        return;
      }
      var length, carrierHz, repeats := U16At(payload, 0), U32At(payload, 2), U16At(payload, 6);
      var expected := 8 + 2 * length as int;
      if |payload| != expected {
        WspSendError(sequence, IrBadSize, p, Nothing);
        return;
      }
      if length == 0 || length > IR_MAX_RAW_LENGTH {
        WspSendError(sequence, IrBadLength, p, Nothing);
        return;
      }
      var raw := U16sOf(payload[8..], length);
      var sent := IrSendRaw(env.irReady, raw, carrierHz, repeats);
      RecordSilent(p, Emit(sent));
    }

    /** `slots` is what the I2S driver was handed. */
    method PlayPcm16Mono(samples: seq<int16>) returns (ok: bool, slots: seq<int16>)
      requires Valid() && env.speakerReady && 1 <= |samples| <= OPUS_MAX_DECODED_SAMPLES
      modifies `plays, `model
      ensures Valid() && ok == env.plays(old(plays)) && slots == Duplicate(samples)
      ensures model == old(model).(cursors := old(model).cursors.(plays := old(plays) + 1))
    {
      hide Wire;
      var stereo := new int16[2 * OPUS_MAX_DECODED_SAMPLES];
      ok := SpeakerPlayPcm16Mono(env.speakerReady, samples, env.plays(plays), stereo);
      slots := stereo[..2 * |samples|];
      plays := plays + 1;
      model := model.(cursors := model.cursors.(plays := plays));
    }

    method HandleSpkPcm(ghost p: Packet, sequence: uint32, payload: seq<byte>)
      requires Valid() && p.typ == SPK_PCM && p.id == sequence && p.payload == payload
      modifies this
      ensures Valid() && model == Handle(env, old(model), p)
    {
      hide Wire, Frame, U16At, U32At, I16sOf, ErrorReply, Accepted, Duplicate;
      if !env.speakerReady {
        WspSendError(sequence, SpeakerNotReady, p, Nothing);
        return;
      }
      if |payload| < 8 {
        WspSendError(sequence, PcmTooShort, p, Nothing);
        return;
      }
      var rate, channels, bits, count := U32At(payload, 0), payload[4], payload[5], U16At(payload, 6);
      if rate != SAMPLE_RATE || channels != 1 || bits != 16 {
        WspSendError(sequence, PcmFormat, p, Nothing);
        return;
      }
      var pcmBytes := count as int * channels as int * (bits as int / 8);
      if |payload| != 8 + pcmBytes {
        WspSendError(sequence, PcmBadSize, p, Nothing);
        return;
      }
      if count == 0 || count > OPUS_MAX_DECODED_SAMPLES {
        WspSendError(sequence, PcmBadCount, p, Nothing);
        return;
      }
      var samples := I16sOf(payload[8..], count);
      var ok, slots := PlayPcm16Mono(samples);
      ghost var action := Play(Playback(slots, ok));
      if !ok {
        WspSendError(sequence, PcmPlayback, p, action);
        return;
      }
      RecordSilent(p, action);
    }

    method HandleSpkComp(ghost p: Packet, sequence: uint32, flags: byte, payload: seq<byte>)
      requires Valid() && p.typ == SPK_COMP && p.id == sequence && p.payload == payload && p.flags == flags
      modifies this
      ensures Valid() && model == Handle(env, old(model), p)
    {
      hide Wire, Frame, U16At, U32At, ErrorReply, Accepted, Duplicate;
      if !env.speakerReady {
        WspSendError(sequence, SpeakerNotReady, p, Nothing);
        return;
      }
      if !env.decoderReady {
        WspSendError(sequence, DecoderNotReady, p, Nothing);
        return;
      }
      if |payload| < 9 {
        WspSendError(sequence, CompTooShort, p, Nothing);
        return;
      }
      var codec, rate, channels, size := payload[0], U32At(payload, 1), payload[5], U16At(payload, 7);
      if codec != OPUS || rate != SAMPLE_RATE || channels != 1 {
        WspSendError(sequence, CompFormat, p, Nothing);
        return;
      }
      if |payload| != 9 + size as int || size == 0 {
        WspSendError(sequence, CompBadSize, p, Nothing);
        return;
      }
      DecodeAndPlay(p, sequence, flags / FLAG_KEY_FRAME % 2 == 1, payload[9..]);
    }

    /** The decoder library is handed `encoded`; `handed` records that. */
    method OpusDecodeFrame(encoded: seq<byte>) returns (pcm: Option<DecodedPcm>, ghost handed: seq<byte>)
      requires Valid()
      modifies `decodes, `model
      ensures Valid() && pcm == env.decodes(old(decodes)) && handed == encoded
      ensures model == old(model).(cursors := old(model).cursors.(decodes := old(decodes) + 1))
    {
      hide Wire;
      handed := encoded;
      pcm := env.decodes(decodes);
      decodes := decodes + 1;
      model := model.(cursors := model.cursors.(decodes := decodes));
    }

    /** Reset the decoder on a key frame, decode, play. */
    method DecodeAndPlay(ghost p: Packet, sequence: uint32, reset: bool, encoded: seq<byte>)
      requires Valid() && p.typ == SPK_COMP && p.id == sequence && env.speakerReady && env.decoderReady
                && GoodSpkComp(p)
      requires reset == (p.flags / FLAG_KEY_FRAME % 2 == 1) && encoded == p.payload[9..]
      modifies this
      ensures Valid() && model == Handle(env, old(model), p)
    {
      hide Wire, Frame, U16At, U32At, ErrorReply, AckReply, HeartbeatReply, Accepted, Duplicate;
      hide ReactSubscribe, ReactUnsubscribe, ReactIrTransmit, ReactSpkPcm;
      var pcm, handed := OpusDecodeFrame(encoded);
      if pcm.None? {
        WspSendError(sequence, CompDecode, p, Decode(reset, handed, None));
        return;
      }
      var ok, slots := PlayPcm16Mono(pcm.value);
      ghost var action := Decode(reset, handed, Some(Playback(slots, ok)));
      if !ok {
        WspSendError(sequence, CompPlayback, p, action);
        return;
      }
      RecordSilent(p, action);
    }

    method DispatchPacket(ghost p: Packet, hdr: Header, payload: seq<byte>)
      requires Valid() && p == Packet(hdr.flags, hdr.typ, hdr.id, payload)
      modifies this
      ensures Valid() && model == Handle(env, old(model), p)
    {
      hide Wire, Frame, U16At, U32At, ErrorReply, Accepted;
      if hdr.typ == HEARTBEAT {
        WspSendHeartbeat(hdr.id, p);
        return;
      }
      if hdr.typ == SUBSCRIBE {
        HandleSubscribe(p, hdr.id, payload);
        return;
      }
      if hdr.typ == UNSUBSCRIBE {
        HandleUnsubscribe(p, hdr.id, payload);
        return;
      }
      if hdr.typ == IR_TRANSMIT {
        HandleIrTransmit(p, hdr.id, payload);
        return;
      }
      if hdr.typ == SPK_PCM {
        HandleSpkPcm(p, hdr.id, payload);
        return;
      }
      if hdr.typ == SPK_COMP {
        HandleSpkComp(p, hdr.id, hdr.flags, payload);
        return;
      }
      WspSendError(hdr.id, UnknownType, p, Nothing);
    }

    // ----- Receiving -----

    method ProcessRxBuffer()
      requires Valid()
      modifies this, rxBuffer
      ensures Valid() && model == ProcessRx(env, old(model))
    {
      hide Wire, Handle, HeaderAt, Reset, Consume;
      while rxSize >= HEADER_SIZE
        invariant Valid() && ProcessRx(env, model) == ProcessRx(env, old(model))
        decreases rxSize
      {
        var hdr := HeaderAt(rxBuffer[..rxSize]);
        if hdr.magic != MAGIC || hdr.version != PROTO_VER || hdr.size > MAX_PAYLOAD {
          DisconnectClient(BadHeader);
          return;
        }
        var totalSize := HEADER_SIZE + hdr.size;
        if rxSize < totalSize {
          return;
        }
        assert rxBuffer[HEADER_SIZE..totalSize] == rxBuffer[..rxSize][HEADER_SIZE..totalSize];
        TakeFront(hdr, totalSize);
      }
    }

    /** Dispatch the packet at the front of the buffer, then move what follows it down. */
    method TakeFront(hdr: Header, totalSize: nat)
      requires Valid() && HEADER_SIZE <= totalSize <= rxSize
      requires FrontOf(model.s.rx) == Whole(Packet(hdr.flags, hdr.typ, hdr.id, rxBuffer[HEADER_SIZE..totalSize]))
      modifies this, rxBuffer
      ensures Valid() && model == Consume(env, old(model)) && rxSize == old(rxSize) - totalSize
    {
      hide Wire, Handle, FrontOf;
      ghost var before := model;
      var payload := rxBuffer[HEADER_SIZE..totalSize];
      ghost var p := Packet(hdr.flags, hdr.typ, hdr.id, payload);
      HandleRx(env, model, p);
      DispatchPacket(p, hdr, payload);
      var remain := rxSize - totalSize;
      assert rxBuffer[totalSize..rxSize] == before.s.rx[totalSize..];
      MemMoveDown(rxBuffer, totalSize, remain);
      rxSize := remain;
      model := model.(s := model.s.(rx := rxBuffer[..rxSize]));
    }

    /** The world once `n` bytes have moved from the socket to the buffer, before this is recorded. */
    ghost function AfterReading(w: World, n: nat): World
      requires n <= |w.inbox|
    {
      w.(s := w.s.(rx := w.s.rx + w.inbox[..n]), inbox := w.inbox[n..])
    }

    ghost method RecordReading(n: nat)
      requires n <= |model.inbox| && Shows(AfterReading(model, n))
      modifies `model
      ensures Valid() && model == Receive(old(model), n)
    {
      model := Receive(model, n);
    }

    /** `client.read(rxBuffer + rxSize, m)`. */
    method ReadInto(m: nat)
      requires m <= |inbox| && rxSize + m <= rxBuffer.Length
      modifies `inbox, `rxSize, rxBuffer
      ensures rxSize == old(rxSize) + m && inbox == old(inbox)[m..]
      ensures rxBuffer[..rxSize] == old(rxBuffer[..rxSize]) + old(inbox)[..m]
    {
      MemCpy(rxBuffer, rxSize, inbox[..m]);
      rxSize := rxSize + m;
      inbox := inbox[m..];
    }

    method ReadWaiting(takes: seq<nat>) returns (overflow: bool)
      requires Valid()
      modifies this, rxBuffer
      ensures var d := Drain(RX_BUFFER_SIZE - |old(model).s.rx|, |old(model).inbox|, takes);
              Valid() && model == Receive(old(model), d.count) && overflow == d.overflow && open == old(open)
    {
      hide Wire, Drain;
      var n;
      n, overflow := FillBuffer(takes, model.s.rx, model.inbox);
      RecordReading(n);
    }

    /** Read what the socket offers, in any portions, until nothing waits, a read fails or the buffer is full. */
    method PollTcpReceive(input: LoopInput)
      requires Valid()
      modifies this, rxBuffer
      ensures Valid() && model == PollRx(env, old(model), input)
    {
      if !open || !input.upRx {
        return;
      }
      hide Wire, ProcessRx, FrontOf, Receive, Close, Drain;
      ghost var w, d := model, Drain(RX_BUFFER_SIZE - |model.s.rx|, |model.inbox|, input.takes);
      assert PollRx(env, w, input) ==
             if d.overflow then Close(Receive(w, d.count), Overflow) else ProcessRx(env, Receive(w, d.count));
      hide PollRx;
      var overflow := ReadWaiting(input.takes);
      if overflow {
        DisconnectClient(Overflow);
        return;
      }
      ProcessRxBuffer();
    }

    lemma JoinRead(rx: seq<byte>, waiting: seq<byte>, n: nat, m: nat)
      requires n + m <= |waiting|
      ensures (rx + waiting[..n]) + waiting[n..][..m] == rx + waiting[..n + m]
      ensures waiting[n..][m..] == waiting[n + m..]
    {
    }

    /** One read of the loop, in terms of what is left to drain. */
    lemma DrainStep(room: nat, available: nat, takes: seq<nat>, m: nat)
      requires available > 0 && room > 0
      requires m == if takes == [] then Min(available, room) else Min(takes[0], Min(available, room))
      ensures var d := Drain(room - m, available - m, if takes == [] then [] else takes[1..]);
              Drain(room, available, takes) == if m == 0 then Drained(0, false) else Drained(m + d.count, d.overflow)
    {
    }

    lemma DrainStop(room: nat, available: nat, takes: seq<nat>)
      ensures available == 0 ==> Drain(room, available, takes) == Drained(0, false)
      ensures available > 0 && room == 0 ==> Drain(room, available, takes) == Drained(0, true)
    {
    }

    /** The read loop: `rx` and `waiting` are the buffer and the socket before it. */
    method FillBuffer(takes: seq<nat>, ghost rx: seq<byte>, ghost waiting: seq<byte>) returns (n: nat, overflow: bool)
      requires rxBuffer.Length == RX_BUFFER_SIZE && rxSize <= RX_BUFFER_SIZE && rx == rxBuffer[..rxSize]
                && waiting == inbox
      modifies `inbox, `rxSize, rxBuffer
      ensures n <= |waiting| && inbox == waiting[n..]
      ensures rxSize == |rx| + n <= RX_BUFFER_SIZE && rxBuffer[..rxSize] == rx + waiting[..n]
      ensures Drain(RX_BUFFER_SIZE - |rx|, |waiting|, takes) == Drained(n, overflow)
    {
      hide Drain;
      var rest := takes;
      n, overflow := 0, false;
      ghost var d := Drain(RX_BUFFER_SIZE - |rx|, |waiting|, takes);
      assert rx + waiting[..0] == rx;
      while |inbox| > 0
        invariant n <= |waiting| && inbox == waiting[n..]
        invariant rxSize == |rx| + n <= RX_BUFFER_SIZE && rxBuffer[..rxSize] == rx + waiting[..n]
        invariant d == Drain(RX_BUFFER_SIZE - rxSize, |inbox|, rest)
        invariant Drain(RX_BUFFER_SIZE - |rx|, |waiting|, takes) == Drained(n + d.count, d.overflow)
        decreases |inbox|
      {
        DrainStop(RX_BUFFER_SIZE - rxSize, |inbox|, rest);
        if RX_BUFFER_SIZE - rxSize == 0 {
          return n, true;
        }
        var toRead := Min(|inbox|, RX_BUFFER_SIZE - rxSize);
        var m := if rest == [] then toRead else Min(rest[0], toRead);
        DrainStep(RX_BUFFER_SIZE - rxSize, |inbox|, rest, m);
        if m <= 0 {
          return;
        }
        ReadInto(m);
        JoinRead(rx, waiting, n, m);
        n := n + m;
        rest := if rest == [] then [] else rest[1..];
        d := Drain(RX_BUFFER_SIZE - rxSize, |inbox|, rest);
      }
      DrainStop(RX_BUFFER_SIZE - rxSize, 0, rest);
    }

    // ----- Data packets -----

    /** `wspSendMicPCM`: what does not fit its packet buffer is refused. */
    method WspSendMicPcm(samples: seq<int16>, sequence: uint32) returns (ok: bool)
      requires Valid() && |samples| < 0x1_0000
      modifies `wire, `writes
      ensures if 1 <= |samples| <= MIC_FRAME_SAMPLES then
                var p := Packet(0, MIC_PCM, sequence, PcmPayload(samples));
                Ahead(p) && (ok <==> !Failed(Send(env, model, p)))
              else !ok && Valid()
    {
      if |samples| == 0 {
        return false;
      }
      var body := AudioPcmBody(SAMPLE_RATE, 1, 16, |samples|);
      var payloadSize := 8 + 2 * |samples|;
      var packet := new byte[HEADER_SIZE + 8 + 640];
      if payloadSize > MAX_PAYLOAD || HEADER_SIZE + payloadSize > packet.Length {
        return false;
      }
      var hdr := EncodeHeader(Header(MAGIC, PROTO_VER, 0, MIC_PCM, payloadSize, sequence));
      ghost var p := Packet(0, MIC_PCM, sequence, PcmPayload(samples));
      var tail := I16s(samples);
      hide EncodeHeader, Frame, Wire, AudioPcmBody, I16s, Accepted;
      var offset := Assemble(packet, p, hdr, body, tail);
      ok := Transmit(packet, offset, p);
    }

    method WspSendMicComp(encoded: seq<byte>, sequence: uint32) returns (ok: bool)
      requires Valid() && |encoded| < 0x1_0000
      modifies `wire, `writes
      ensures if 1 <= |encoded| <= OPUS_MAX_ENCODED_BYTES then
                var p := Packet(0, MIC_COMP, sequence, CompPayload(encoded));
                Ahead(p) && (ok <==> !Failed(Send(env, model, p)))
              else !ok && Valid()
    {
      if |encoded| == 0 {
        return false;
      }
      var body := AudioCompBody(SAMPLE_RATE, 1, FRAME_MS, |encoded|);
      var payloadSize := 9 + |encoded|;
      var packet := new byte[HEADER_SIZE + 9 + 512];
      if payloadSize > MAX_PAYLOAD || HEADER_SIZE + payloadSize > packet.Length {
        return false;
      }
      var hdr := EncodeHeader(Header(MAGIC, PROTO_VER, 0, MIC_COMP, payloadSize, sequence));
      ghost var p := Packet(0, MIC_COMP, sequence, CompPayload(encoded));
      hide EncodeHeader, Frame, Wire, AudioCompBody, Accepted;
      var offset := Assemble(packet, p, hdr, body, encoded);
      ok := Transmit(packet, offset, p);
    }

    method WspSendIrReceive(raw: seq<uint16>, overflow: bool, sequence: uint32) returns (ok: bool)
      requires Valid() && |raw| < 0x1_0000
      modifies `wire, `writes
      ensures if 1 <= |raw| <= IR_MAX_RAW_LENGTH then
                var p := Packet(0, IR_RECEIVE, sequence, IrReceivePayload(raw, overflow));
                Ahead(p) && (ok <==> !Failed(Send(env, model, p)))
              else !ok && Valid()
    {
      if |raw| == 0 {
        return false;
      }
      var body := IrReceiveBody(|raw|, overflow);
      var payloadSize := 4 + 2 * |raw|;
      var packet := new byte[HEADER_SIZE + 4 + 1024];
      if payloadSize > MAX_PAYLOAD || HEADER_SIZE + payloadSize > packet.Length {
        return false;
      }
      var hdr := EncodeHeader(Header(MAGIC, PROTO_VER, 0, IR_RECEIVE, payloadSize, sequence));
      ghost var p := Packet(0, IR_RECEIVE, sequence, IrReceivePayload(raw, overflow));
      var tail := U16s(raw);
      hide EncodeHeader, Frame, Wire, IrReceiveBody, U16s, Accepted;
      var offset := Assemble(packet, p, hdr, body, tail);
      ok := Transmit(packet, offset, p);
    }

    method WspSendSensor(kind: SensorKind, valid: bool, value: real, sequence: uint32) returns (ok: bool)
      requires Valid()
      modifies `wire, `writes
      ensures var p := Packet(0, SensorCode(kind), sequence, SensorPayload(kind, valid, env.bits(value)));
              Ahead(p) && (ok <==> !Failed(Send(env, model, p)))
    {
      var quality: byte := if valid then 255 else 0;
      var body := SensorBody(Unit(kind), quality, env.bits(value));
      var packet := new byte[HEADER_SIZE + 8];
      var hdr := EncodeHeader(Header(MAGIC, PROTO_VER, 0, SensorCode(kind), 8, sequence));
      ghost var p := Packet(0, SensorCode(kind), sequence, SensorPayload(kind, valid, env.bits(value)));
      assert KnownType(p.typ) && p.payload == body + [];
      hide EncodeHeader, Frame, Wire, SensorPayload, SensorBody, Accepted, KnownType;
      var offset := Assemble(packet, p, hdr, body, []);
      ok := Transmit(packet, offset, p);
    }

    /** The counter moves with every attempt, and the trace catches up with the wire. */
    method CountAttempt(stream: Stream, ghost payload: seq<byte>)
      requires !stream.Sensor? && Ahead(NextPacket(model, stream, payload))
      modifies `micPcmSeq, `micCompSeq, `irReceiveSeq, `model
      ensures Valid() && model == Attempt(env, old(model), stream, payload)
    {
      ghost var sent := Send(env, model, NextPacket(model, stream, payload));
      WireGrows(model.trace, Data(stream, sent), sent);
      hide KnownType, Frame, Accepted, Wire, Send, NextPacket;
      match stream {
        case MicPcm => micPcmSeq := Wrap32(micPcmSeq + 1);
        case MicComp => micCompSeq := Wrap32(micCompSeq + 1);
        case IrReceive => irReceiveSeq := Wrap32(irReceiveSeq + 1);
      }
      model := Attempt(env, model, stream, payload);
    }

    /** A MicPCM packet: a failure ends the session. */
    method DeliverMicPcm(samples: seq<int16>) returns (ok: bool)
      requires Valid() && open && |samples| == MIC_FRAME_SAMPLES
      modifies this
      ensures Valid() && model == SendData(env, old(model), MicPcm, PcmPayload(samples)) && ok == open
    {
      hide Wire, Frame, Reset, PcmPayload, Accepted;
      ok := WspSendMicPcm(samples, micPcmSeq);
      CountAttempt(MicPcm, PcmPayload(samples));
      if !ok {
        DisconnectClient(SendFailed);
      }
    }

    /** A MicComp packet: a failure drops the frame. */
    method DeliverMicComp(encoded: OpusFrame)
      requires Valid() && open
      modifies this
      ensures Valid() && model == SendData(env, old(model), MicComp, CompPayload(encoded))
    {
      hide Wire, Frame, Reset, CompPayload, Accepted;
      var _ := WspSendMicComp(encoded, micCompSeq);
      CountAttempt(MicComp, CompPayload(encoded));
    }

    /** An IrReceive packet: a failure ends the session. */
    method DeliverIrReceive(raw: seq<uint16>, overflow: bool)
      requires Valid() && open && 1 <= |raw| <= IR_MAX_RAW_LENGTH
      modifies this
      ensures Valid() && model == SendData(env, old(model), IrReceive, IrReceivePayload(raw, overflow))
    {
      hide Wire, Frame, Reset, IrReceivePayload, Accepted;
      var ok := WspSendIrReceive(raw, overflow, irReceiveSeq);
      CountAttempt(IrReceive, IrReceivePayload(raw, overflow));
      if !ok {
        DisconnectClient(SendFailed);
      }
    }

    // ----- Polling -----

    method PollMic(input: LoopInput)
      requires Valid()
      modifies this
      ensures Valid() && model == Session.PollMic(env, old(model), input)
    {
      hide Wire, SendData, PcmPayload, CompPayload, LouderSlot;
      if !open || !input.upMic {
        return;
      }
      if !sub.micPcm && !sub.micComp {
        return;
      }
      var micFrame := new int16[MIC_FRAME_SAMPLES];
      var ok := MicReadFrame(env.micReady, input.mic, micFrame);
      if !ok {
        return;
      }
      if sub.micPcm {
        ok := DeliverMicPcm(micFrame[..]);
        if !ok {
          return;
        }
      }
      if sub.micComp {
        if input.encoded.None? {
          return;
        }
        DeliverMicComp(input.encoded.value);
      }
    }

    method PollIrReceive(input: LoopInput)
      requires Valid()
      modifies this
      ensures Valid() && model == PollIr(env, old(model), input)
    {
      hide Wire, SendData, IrReceivePayload;
      if !open || !input.upIr {
        return;
      }
      if !sub.irReceive {
        return;
      }
      var rawUs := new uint16[IR_MAX_RAW_LENGTH];
      var ok, length, overflow := IrReceiveRaw(env.irReady, env.rawTick, input.decoded, rawUs);
      if !ok {
        return;
      }
      DeliverIrReceive(rawUs[..length], overflow);
    }

    /** The report of a reading has been written: its number is used up, and the trace catches up with the wire. */
    method CountReport(kind: SensorKind, ghost reading: Option<real>)
      requires Ahead(SensorPacket(env, model, kind, reading)) && !TooClose(Of(model.s, kind), kind, reading)
      modifies `ambient, `temperature, `humidity, `model
      ensures Valid()
      ensures var w := old(model);
              model == w.(s := With(w.s, kind, Of(w.s, kind).(seqNo := Wrap32(Of(w.s, kind).seqNo + 1))),
                          cursors := w.cursors.(writes := w.cursors.writes + 1),
                          trace := After(w.trace, SensedEvent(env, w, kind, reading)))
    {
      ghost var w, e := model, SensedEvent(env, model, kind, reading);
      WireGrows(w.trace, e, Send(env, w, SensorPacket(env, w, kind, reading)));
      hide KnownType, Frame, Accepted, TooClose, SensorPayload, Wire, Send, SensedEvent, SensorPacket;
      match kind {
        case Ambient => ambient := ambient.(seqNo := Wrap32(ambient.seqNo + 1));
        case Temperature => temperature := temperature.(seqNo := Wrap32(temperature.seqNo + 1));
        case Humidity => humidity := humidity.(seqNo := Wrap32(humidity.seqNo + 1));
      }
      model := w.(s := With(w.s, kind, Of(w.s, kind).(seqNo := Wrap32(Of(w.s, kind).seqNo + 1))),
                  cursors := w.cursors.(writes := w.cursors.writes + 1),
                  trace := After(w.trace, e));
    }

    /** The trace after a reading that is not reported. */
    ghost method HoldBack(kind: SensorKind, reading: Option<real>)
      requires Valid() && TooClose(Of(model.s, kind), kind, reading)
      modifies `model
      ensures Valid()
      ensures model == old(model).(trace := After(old(model).trace, SensedEvent(env, old(model), kind, reading)))
    {
      hide TooClose;
      model := model.(trace := After(model.trace, SensedEvent(env, model, kind, reading)));
    }

    /** Report a reading that has been stamped, unless it is to be held back. */
    method MaybeSendSensor(kind: SensorKind, valid: bool, value: real)
      requires Valid() && Sensor(kind).lastMs == Wrap32(clock) && (!valid ==> value == 0.0)
      modifies this
      ensures Valid() && model == Sense(env, old(model), kind, if valid then Some(value) else None)
    {
      hide Wire, Frame, Close, Accepted, ChangedEnough, Threshold, SensorPayload, KnownType;
      ghost var w, reading := model, if valid then Some(value) else None;
      var c := Sensor(kind);
      assert Of(w.s, kind) == c;
      SenseStamped(env, w, kind, reading);
      hide Sense, With;
      if valid && c.onChangeOnly && c.haveLast && !ChangedEnough(c.lastValue, value, Threshold(kind)) {
        HoldBack(kind, reading);
        return;
      }
      hide SensedEvent;
      var ok := WspSendSensor(kind, valid, value, c.seqNo);
      CountReport(kind, reading);
      if !ok {
        DisconnectClient(SendFailed);
        return;
      }
      if valid {
        OverwriteSensor(w.s, kind, c.(seqNo := Wrap32(c.seqNo + 1)),
            c.(seqNo := Wrap32(c.seqNo + 1), lastValue := value, haveLast := true));
        SetSensor(kind, c.(seqNo := Wrap32(c.seqNo + 1), lastValue := value, haveLast := true));
      }
    }

    /** One due sensor: the stamp is set before the reading is looked at. */
    method ReadSensor(kind: SensorKind, reading: Option<real>)
      requires Valid()
      modifies this
      ensures Valid() && model == Sense(env, old(model), kind, reading)
    {
      hide Wire, Sense;
      StampFirst(env, model, kind, reading);
      SetSensor(kind, Sensor(kind).(lastMs := Wrap32(clock)));
      MaybeSendSensor(kind, reading.Some?, if reading.Some? then reading.value else 0.0);
    }

    predicate NeedsReading(c: SensorState, now: uint32) {
      c.enabled && (c.lastMs == 0 || Wrap32(now - c.lastMs) >= c.intervalMs)
    }

    method PollSensors(input: LoopInput)
      requires Valid()
      modifies this
      ensures Valid() && model == Session.PollSensors(env, old(model), input)
    {
      hide Wire, Sense;
      if !open || !input.upSensors {
        return;
      }
      if !ambient.enabled && !temperature.enabled && !humidity.enabled {
        return;
      }
      var now := Wrap32(clock);
      var needAmbient := NeedsReading(ambient, now);
      var needTemp := NeedsReading(temperature, now);
      var needHum := NeedsReading(humidity, now);
      if needAmbient {
        ReadSensor(Ambient, input.lux);
      }
      if needTemp {
        ReadSensor(Temperature, input.celsius);
      }
      if needHum {
        ReadSensor(Humidity, input.percent);
      }
    }

    // ----- The main loop -----

    /** What happens outside while the loop is away. */
    method Elapse(input: LoopInput)
      requires Valid()
      modifies `clock, `inbox, `model
      ensures Valid() && model == Arrive(old(model), input)
    {
      hide Wire;
      clock := clock + input.elapsed;
      if open {
        inbox := inbox + input.arrived;
      }
      model := Arrive(model, input);
    }

    method AcceptClient()
      requires Valid()
      modifies this
      ensures Valid() && model == Open(old(model))
    {
      hide Reset;
      open := true;
      inbox := [];
      model := model.(open := true, inbox := []);
      ResetSessionState();
      wire := [];
      model := model.(trace := After(model.trace, Opened));
    }

    method AppLoop(input: LoopInput)
      requires Valid()
      modifies this, rxBuffer
      ensures Valid() && model == Session.AppLoop(env, old(model), input)
    {
      hide Wire, Session.PollMic, Session.PollSensors, PollIr, PollRx, Open, Arrive;
      Elapse(input);
      if !open || !input.upLoop {
        if input.incoming {
          AcceptClient();
        }
        return;
      }
      PollTcpReceive(input);
      PollIrReceive(input);
      PollSensors(input);
      PollMic(input);
    }
  }

  lemma WireGrows(t: Trace, e: Event, sent: Sent)
    requires SendOf(e) == Some(sent) && SentOk(sent)
    ensures Wire(After(t, e)) == Wire(t) + Frame(sent.packet)[..sent.accepted]
  {
    hide Frame, SentOk;
  }

  function SensorPacket(env: Env, w: World, kind: SensorKind, reading: Option<real>): Packet {
    var valid, value := reading.Some?, if reading.Some? then reading.value else 0.0;
    Packet(0, SensorCode(kind), Of(w.s, kind).seqNo, SensorPayload(kind, valid, env.bits(value)))
  }

  lemma OverwriteSensor(s: State, kind: SensorKind, c: SensorState, d: SensorState)
    ensures With(With(s, kind, c), kind, d) == With(s, kind, d) && Of(With(s, kind, c), kind) == c
    ensures With(s, kind, Of(s, kind)) == s
  {
  }

  /** What becomes of a reading whose stamp has been set: nothing is held back, a failed report ends the session, and a
      report that went out leaves its value behind if it was valid. */
  lemma SenseStamped(env: Env, w: World, kind: SensorKind, reading: Option<real>)
    requires Of(w.s, kind).lastMs == Wrap32(w.clock)
    ensures var c, e := Of(w.s, kind), SensedEvent(env, w, kind, reading);
            var counted := c.(seqNo := Wrap32(c.seqNo + 1));
            var sent := w.(s := With(w.s, kind, counted), cursors := w.cursors.(writes := w.cursors.writes + 1),
                           trace := After(w.trace, e));
            Sense(env, w, kind, reading) ==
            if TooClose(c, kind, reading) then w.(trace := After(w.trace, e))
            else if Failed(Send(env, w, SensorPacket(env, w, kind, reading))) then Close(sent, SendFailed)
            else if reading.Some? then
              sent.(s := With(w.s, kind, counted.(lastValue := reading.value, haveLast := true)))
            else sent
  {
    hide Close, Accepted, TooClose, SensorPayload;
    var c := Of(w.s, kind);
    assert With(w.s, kind, c) == w.s by { OverwriteSensor(w.s, kind, c, c); }
    hide With, Of;
    assert c.(lastMs := Wrap32(w.clock)) == c;
  }

  /** Stamping a sensor before the reading is judged does not change what becomes of it. */
  lemma StampFirst(env: Env, w: World, kind: SensorKind, reading: Option<real>)
    ensures var stamped := w.(s := With(w.s, kind, Of(w.s, kind).(lastMs := Wrap32(w.clock))));
            Sense(env, stamped, kind, reading) == Sense(env, w, kind, reading)
  {
    hide Accepted, ChangedEnough, SensorPayload, Threshold;
    var c := Of(w.s, kind);
    var d := c.(lastMs := Wrap32(w.clock));
    var stamped := w.(s := With(w.s, kind, d));
    var e := SensedEvent(env, w, kind, reading);
    OverwriteSensor(w.s, kind, d, SensedState(c, e));
    hide With, Of;
    assert SensedEvent(env, stamped, kind, reading) == e by { SameEvent(env, w, stamped, kind, reading); }
    hide SensedEvent;
    assert SensedState(d, e) == SensedState(c, e);
    hide SensedState;
    assert Sense(env, stamped, kind, reading) == Sense(env, w, kind, reading);
  }

  /** The event of a reading does not depend on the stamp. */
  lemma SameEvent(env: Env, v: World, w: World, kind: SensorKind, reading: Option<real>)
    requires Of(w.s, kind).(lastMs := 0) == Of(v.s, kind).(lastMs := 0)
    requires w.open == v.open && w.clock == v.clock && w.cursors == v.cursors
    ensures SensedEvent(env, v, kind, reading) == SensedEvent(env, w, kind, reading)
  {
    hide Of, Accepted, ChangedEnough, SensorPayload, Threshold;
  }

  /** The firmware from power-up: whatever it meets, it is in the state that `Run` describes. */
  method RunDevice(env: Env, inputs: seq<LoopInput>) returns (device: Device)
    ensures device.Valid() && device.env == env && device.model == Run(env, inputs)
    ensures device.wire == Wire(Run(env, inputs).trace)
  {
    hide Wire, Session.AppLoop, Initial;
    device := new Device(env);
    assert inputs[..0] == [];
    for i := 0 to |inputs|
      invariant device.Valid() && device.env == env && device.model == Run(env, inputs[..i])
      invariant fresh(device) && fresh(device.rxBuffer)
    {
      device.AppLoop(inputs[i]);
      assert inputs[..i + 1][..i] == inputs[..i];
    }
    assert inputs[..|inputs|] == inputs;
  }
}
