/** Main results that span both peers: what one side puts in is what comes out on the other. */
module EndToEnd {
  import opened Bytes
  import opened Protocol
  import opened Parsing
  import opened Drivers
  import opened Session
  import opened History
  import opened Decoding
  import opened Audio
  import opened Reception
  import opened Emission
  import Invariant
  import Host
  import Reader
  import HostLock

  // ----- Requests built by the host, as the firmware reads them -----

  /** A Subscribe built by the host is accepted for exactly the stream it names, if that is available, with its
      options. */
  lemma SubscribeUnderstood(env: Env, target: uint16, intervalMs: uint16, options: uint32, id: uint32, stream: Stream)
    ensures var p := Host.BuildSubscribe(target, intervalMs, options, id).packet;
            && (Accepts(env, p, stream) <==> target == Code(stream) && Available(env, stream))
            && Wanted(p) == (intervalMs, options % 2 == 1)
            && p.typ == SUBSCRIBE && p.flags == 0 && p.id == id && U32At(p.payload, 4) == options
  {
    var b := SubscribeBody(target, intervalMs, options);
    hide U16, U32, U16At, U32At;
    assert b[0..2] == U16(target) && b[2..4] == U16(intervalMs) && b[4..8] == U32(options);
    U16Slice(b, 0, target);
    U16Slice(b, 2, intervalMs);
    U32Slice(b, 4, options);
    hide SubscribeBody, Available;
  }

  lemma UnsubscribeUnderstood(target: uint16, id: uint32, stream: Stream)
    ensures Cancels(Packet(0, UNSUBSCRIBE, id, U16(target)), stream) <==> target == Code(stream)
  {
    U16RoundTrip(target);
    hide U16, U16At, Code;
  }

  /** An IrTransmit packet built by the host passes the firmware's checks and carries its timings, carrier and repeat
      count. */
  lemma IrTransmitUnderstood(raw: seq<uint16>, carrierHz: uint32, repeats: uint16, id: uint32)
    requires 1 <= |raw| <= 512
    ensures var b := Host.BuildIrTransmit(raw, carrierHz, repeats, id);
            && b.Built? && b.packet.typ == IR_TRANSMIT && b.packet.flags == 0 && b.packet.id == id
                 && GoodIrTransmit(b.packet)
            && U16sOf(b.packet.payload[8..], U16At(b.packet.payload, 0)) == raw
            && U32At(b.packet.payload, 2) == carrierHz && U16At(b.packet.payload, 6) == repeats
  {
    var b := IrTransmitBody(|raw|, carrierHz, repeats) + U16s(raw);
    U16sRoundTrip(raw);
    hide U16, U32, U16At, U32At, U16s, U16sOf;
    assert b[0..2] == U16(|raw|);
    assert b[2..6] == U32(carrierHz);
    assert b[6..8] == U16(repeats);
    assert b[8..] == U16s(raw);
    U16Slice(b, 0, |raw|);
    U32Slice(b, 2, carrierHz);
    U16Slice(b, 6, repeats);
  }

  // ----- Playback: from the samples of a WAV file to the slots of the speaker -----

  /** The slots one action hands to the speaker. */
  function SlotsOf(a: Action): seq<int16> {
    match a
    case Play(playback) => playback.slots
    case Decode(_, _, Some(playback)) => playback.slots
    case _ => []
  }

  /** All the slots handed to the speaker in the latest session. */
  function Played(t: Trace): seq<int16> {
    match t
    case Boot => []
    case After(before, e) =>
      if e.Opened? then [] else if e.Handled? then Played(before) + SlotsOf(e.action) else Played(before)
  }

  /** One packet makes the speaker play what it says, twice over. */
  lemma VoicePlayed(env: Env, p: Packet, a: Action, reply: Option<Packet>)
    requires AnsweredWell(env, p, a, reply) && env.speakerReady && p.typ != SPK_COMP
    ensures SlotsOf(a) == Duplicate(Voice(p))
  {
    assert Duplicate([]) == [];
    hide Duplicate, SpkSamples, Bursts, GoodIrTransmit, GoodSpkPcm, GoodSpkComp;
  }

  lemma {:induction false} PlayedIsSpeech(env: Env, t: Trace)
    requires Orderly(env, t) && env.speakerReady
    requires forall p :: p in Dispatched(t) ==> p.typ != SPK_COMP
    ensures Played(t) == Duplicate(Speech(Dispatched(t)))
  {
    hide AnsweredWell, Numbered, Timely, HeldBack, Subscribed, Parse, SensorPayload, SlotsOf, Voice, Duplicate;
    if t.Boot? || t.last.Opened? {
      assert Duplicate([]) == [] by { NothingDuplicated(); }
    } else {
      var before, e := t.before, t.last;
      if e.Handled? {
        assert e.packet in Dispatched(t);
        assert forall p :: p in Dispatched(before) ==> p in Dispatched(t);
        PlayedIsSpeech(env, before);
        VoicePlayed(env, e.packet, e.action, if e.reply.None? then None else Some(e.reply.value.packet));
        SpeechPush(Dispatched(before), e.packet);
        DuplicateAppend(Speech(Dispatched(before)), Voice(e.packet));
      } else {
        PlayedIsSpeech(env, before);
      }
    }
  }

  lemma NothingDuplicated()
    ensures Duplicate([]) == []
  {
  }

  /** In the latest session the speaker took every piece as a whole. */
  predicate AllComplete(t: Trace) {
    match t
    case Boot => true
    case After(before, e) =>
      e.Opened? || (AllComplete(before) && (e.Handled? && e.action.Play? ==> e.action.playback.complete))
  }

  /** In the latest session no SpkPCM packet was answered with an error. */
  predicate NoComplaint(t: Trace) {
    match t
    case Boot => true
    case After(before, e) =>
      e.Opened? || (NoComplaint(before) && (e.Handled? && e.packet.typ == SPK_PCM ==> e.reply.None?))
  }

  lemma {:induction false} GoodUnanswered(env: Env, t: Trace)
    requires Orderly(env, t) && env.speakerReady && AllComplete(t)
    requires forall p :: p in Dispatched(t) && p.typ == SPK_PCM ==> GoodSpkPcm(p)
    ensures NoComplaint(t)
  {
    hide Numbered, Timely, HeldBack, Subscribed, Parse, SensorPayload, GoodSpkPcm, SpkSamples, Duplicate;
    if t.After? && !t.last.Opened? {
      var before, e := t.before, t.last;
      assert forall p :: p in Dispatched(before) ==> p in Dispatched(t);
      GoodUnanswered(env, before);
      if e.Handled? && e.packet.typ == SPK_PCM {
        assert e.packet in Dispatched(t);
      }
    }
  }

  /** End-to-end playback: take the packets that say the samples of a WAV file, mix them with heartbeats and other
      requests, and deliver the bytes in any portions: once they have been read and the session is still open, the
      left slots and the right slots handed to the speaker are the samples, each in both slots of its pair, and if the
      speaker took them all, no frame was answered with an error. */
  lemma Playback(env: Env, inputs: seq<LoopInput>, samples: seq<int16>, wav: seq<Packet>, ps: seq<Packet>)
    requires Speaks(wav, samples) && Only(ps, SPK_PCM) == wav
    requires env.speakerReady && AllLegal(ps) && forall p :: p in ps ==> p.typ != SPK_COMP
    requires Run(env, inputs).open && Run(env, inputs).inbox == [] && Arrivals(env, inputs) == Frames(ps)
    ensures var played := Played(Run(env, inputs).trace);
            && |played| == 2 * |samples|
            && (forall i :: 0 <= i < |samples| ==> played[2 * i] == played[2 * i + 1] == samples[i])
            && Slots(played, 0) == samples && Slots(played, 1) == samples
    ensures AllComplete(Run(env, inputs).trace) ==> NoComplaint(Run(env, inputs).trace)
  {
    var t := Run(env, inputs).trace;
    ArrivalsParsed(env, inputs);
    Invariant.RunOrderly(env, inputs, t);
    OnlyContains(ps, SPK_PCM);
    hide Run, Arrivals, Frames, Parse, Orderly, Speech, Only, Duplicate, Slots, GoodSpkPcm, AllComplete, NoComplaint;
    assert Parse(Frames(ps)).packets == ps by { FramesParse(ps); }
    PlayedIsSpeech(env, t);
    SpeechOnly(ps);
    if AllComplete(t) {
      GoodUnanswered(env, t);
    }
    DuplicatePairs(samples);
    DuplicateSlots(samples, 0);
    DuplicateSlots(samples, 1);
  }

  lemma FramesParse(ps: seq<Packet>)
    requires AllLegal(ps)
    ensures Parse(Frames(ps)) == Parsed(ps, [], false)
  {
    ParseFrames(ps, []);
    ParseEmpty();
    hide Frames, Parse;
    assert Frames(ps) + [] == Frames(ps) && ps + [] == ps;
  }

  // ----- Compressed audio: from the host's frames to the decoder -----

  /** A SpkComp frame built by the host passes the firmware's checks exactly if it is 16 kHz mono, and carries its
      encoding. */
  lemma SpkCompUnderstood(encoded: seq<byte>, sampleRate: uint32, channels: byte, frameMs: byte, id: uint32)
    requires 1 <= |encoded| <= MAX_PAYLOAD - 9
    ensures var b := Host.BuildSpkComp(encoded, sampleRate, channels, frameMs, id);
            && b.Built? && Legal(b.packet) && b.packet.typ == SPK_COMP && b.packet.flags == 0 && b.packet.id == id
            && (GoodSpkComp(b.packet) <==> sampleRate == 16000 && channels == 1)
            && b.packet.payload[6] == frameMs && b.packet.payload[9..] == encoded
  {
    var b := AudioCompBody(sampleRate, channels, frameMs, |encoded|) + encoded;
    hide U16, U32, U16At, U32At;
    assert b[1..5] == U32(sampleRate);
    assert b[7..9] == U16(|encoded|);
    assert b[0] == OPUS && b[5] == channels && b[6] == frameMs && b[9..] == encoded;
    U32Slice(b, 1, sampleRate);
    U16Slice(b, 7, |encoded|);
    hide AudioCompBody;
  }

  /** What the decoder is handed: whether it is reset first, and an encoded frame. */
  datatype Feed = Feed(reset: bool, encoded: seq<byte>)

  function FeedOf(a: Action): seq<Feed> {
    match a
    case Decode(reset, encoded, _) => [Feed(reset, encoded)]
    case _ => []
  }

  /** Everything the decoder was handed in the latest session. */
  function Fed(t: Trace): seq<Feed> {
    match t
    case Boot => []
    case After(before, e) =>
      if e.Opened? then [] else if e.Handled? then Fed(before) + FeedOf(e.action) else Fed(before)
  }

  /** What one packet asks to be decoded. */
  function Encoding(p: Packet): seq<Feed> {
    if p.typ == SPK_COMP && GoodSpkComp(p) then [Feed(p.flags / 4 % 2 == 1, p.payload[9..])] else []
  }

  function Encodings(ps: seq<Packet>): seq<Feed> {
    if ps == [] then [] else Encodings(ps[..|ps| - 1]) + Encoding(ps[|ps| - 1])
  }

  lemma EncodingsPush(ps: seq<Packet>, p: Packet)
    ensures Encodings(ps + [p]) == Encodings(ps) + Encoding(p)
  {
    assert (ps + [p])[..|ps|] == ps;
  }

  lemma EncodingFed(env: Env, p: Packet, a: Action)
    requires CausedWell(env, p, a) && env.speakerReady && env.decoderReady
    ensures FeedOf(a) == Encoding(p)
  {
    hide Duplicate, SpkSamples, Bursts, GoodIrTransmit, GoodSpkPcm, GoodSpkComp;
  }

  /** In every session the decoder is handed the encoded frames of the SpkComp packets that pass the checks, unchanged
      and in order, with a reset before each that is flagged as a key frame. */
  lemma {:induction false} FedIsEncodings(env: Env, t: Trace)
    requires Orderly(env, t) && env.speakerReady && env.decoderReady
    ensures Fed(t) == Encodings(Dispatched(t))
  {
    hide CausedWell, ReplyTo, Numbered, Timely, HeldBack, Subscribed, Parse, SensorPayload, FeedOf, Encoding;
    if t.After? && !t.last.Opened? {
      var before, e := t.before, t.last;
      FedIsEncodings(env, before);
      if e.Handled? {
        EncodingFed(env, e.packet, e.action);
        EncodingsPush(Dispatched(before), e.packet);
      }
    }
  }

  /** Other packets in between ask for nothing. */
  lemma {:induction false} EncodingsOnly(ps: seq<Packet>)
    ensures Encodings(Only(ps, SPK_COMP)) == Encodings(ps)
  {
    if ps != [] {
      var front, last := ps[..|ps| - 1], ps[|ps| - 1];
      EncodingsOnly(front);
      hide GoodSpkComp;
      if last.typ == SPK_COMP {
        EncodingsPush(Only(front, SPK_COMP), last);
      } else {
        assert Encoding(last) == [] && Only(ps, SPK_COMP) == Only(front, SPK_COMP);
      }
    }
  }

  predicate Encoded(frames: seq<seq<byte>>) {
    forall i :: 0 <= i < |frames| ==> 1 <= |frames[i]| <= MAX_PAYLOAD - 9
  }

  /** The packet that the host builds for an encoded frame. */
  function CompPacket(encoded: seq<byte>, id: uint32): Packet
    requires 1 <= |encoded| <= MAX_PAYLOAD - 9
  {
    Host.BuildSpkComp(encoded, 16000, 1, 20, id).packet
  }

  /** The packets of a list of encoded frames, numbered from `first`. */
  function CompPackets(frames: seq<seq<byte>>, first: uint32): seq<Packet>
    requires Encoded(frames)
  {
    if frames == [] then []
    else
      var n := |frames| - 1;
      CompPackets(frames[..n], first) + [CompPacket(frames[n], Wrap32(first + n))]
  }

  /** The frames as the decoder is to get them. */
  function Feeds(frames: seq<seq<byte>>): (feeds: seq<Feed>)
    ensures |feeds| == |frames|
  {
    seq(|frames|, i requires 0 <= i < |frames| => Feed(false, frames[i]))
  }

  lemma FeedsPush(frames: seq<seq<byte>>)
    requires frames != []
    ensures Feeds(frames) == Feeds(frames[..|frames| - 1]) + [Feed(false, frames[|frames| - 1])]
  {
  }

  lemma OneEncoding(encoded: seq<byte>, id: uint32)
    requires 1 <= |encoded| <= MAX_PAYLOAD - 9
    ensures Encoding(CompPacket(encoded, id)) == [Feed(false, encoded)]
  {
    SpkCompUnderstood(encoded, 16000, 1, 20, id);
    hide Host.BuildSpkComp, GoodSpkComp;
  }

  lemma FedNext(front: seq<Packet>, p: Packet, frames: seq<seq<byte>>)
    requires frames != [] && Encodings(front) == Feeds(frames[..|frames| - 1])
    requires Encoding(p) == [Feed(false, frames[|frames| - 1])]
    ensures Encodings(front + [p]) == Feeds(frames)
  {
    hide Encodings, Encoding, Feeds;
    EncodingsPush(front, p);
    FeedsPush(frames);
  }

  lemma {:induction false} CompEncodings(frames: seq<seq<byte>>, first: uint32)
    requires Encoded(frames)
    ensures Encodings(CompPackets(frames, first)) == Feeds(frames)
  {
    if frames == [] {
      assert Encodings([]) == [] && Feeds([]) == [];
    } else {
      hide Encodings, Encoding, Feeds, CompPacket, Wrap32;
      var n := |frames| - 1;
      CompEncodings(frames[..n], first);
      OneEncoding(frames[n], Wrap32(first + n));
      FedNext(CompPackets(frames[..n], first), CompPacket(frames[n], Wrap32(first + n)), frames);
    }
  }

  /** End-to-end compressed playback: mix the host's SpkComp frames with any other packets and deliver the bytes in any
      portions: once they have been read and the session is still open, the decoder has been handed exactly the encoded
      frames, in order and without a reset in between. */
  lemma CompPlayback(env: Env, inputs: seq<LoopInput>, frames: seq<seq<byte>>, first: uint32, ps: seq<Packet>)
    requires Encoded(frames) && env.speakerReady && env.decoderReady && AllLegal(ps)
    requires Only(ps, SPK_COMP) == CompPackets(frames, first)
    requires Run(env, inputs).open && Run(env, inputs).inbox == [] && Arrivals(env, inputs) == Frames(ps)
    ensures Fed(Run(env, inputs).trace) == Feeds(frames)
  {
    var t := Run(env, inputs).trace;
    ArrivalsParsed(env, inputs);
    Invariant.RunOrderly(env, inputs, t);
    hide Run, Arrivals, Frames, Parse, Orderly, Encodings, Only, CompPackets, Feeds;
    assert Parse(Frames(ps)).packets == ps by { FramesParse(ps); }
    FedIsEncodings(env, t);
    EncodingsOnly(ps);
    CompEncodings(frames, first);
  }

  // ----- Learning a remote control and replaying it -----

  /** What a capture amounts to: the first 512 timings after the gap, saturated at 65535, flagged if any was cut off. */
  lemma CapturedExactly(rawTick: uint16, c: Decoded)
    requires c.rawlen >= 2
    ensures var k := Captured(rawTick, c).value;
            && |k.raw| == Min(c.rawlen - 1, 512)
            && (k.overflow <==> c.overflow || c.rawlen - 1 > 512)
            && forall i :: 0 <= i < |k.raw| ==> k.raw[i] == Min(c.rawbuf[1 + i] as int * rawTick as int, 65535)
  {
    var k := Captured(rawTick, c).value;
    forall i | 0 <= i < |k.raw| ensures k.raw[i] == Min(c.rawbuf[1 + i] as int * rawTick as int, 65535) {
      assert k.raw[i] == Microseconds(c.rawbuf[1 + i], rawTick);
    }
  }

  /** A capture that reaches a subscribed, connected session is sent at once, and the host hears exactly its timings. */
  lemma CaptureHeard(env: Env, w: World, input: LoopInput)
    requires w.open && input.upIr && w.s.irReceive && env.irReady && input.decoded.Some?
              && input.decoded.value.rawlen >= 2
    ensures var c := Captured(env.rawTick, input.decoded.value).value;
            var p := NextPacket(w, IrReceive, IrReceivePayload(c.raw, c.overflow));
            && Within(After(w.trace, Data(IrReceive, Send(env, w, p))), PollIr(env, w, input).trace)
            && Decoding.Decode(p) == Timings(|c.raw|, if c.overflow then 1 else 0, c.raw)
  {
    var c := Captured(env.rawTick, input.decoded.value).value;
    var payload := IrReceivePayload(c.raw, c.overflow);
    HearsTimings(c.raw, c.overflow, w.s.irReceiveSeq);
    SendDataWithin(env, w, IrReceive, payload);
    hide Decoding.Decode, IrReceivePayload, SendData, NextPacket, Within, Captured;
    assert PollIr(env, w, input) == SendData(env, w, IrReceive, payload);
  }

  lemma SendDataWithin(env: Env, w: World, stream: Stream, payload: seq<byte>)
    ensures Within(After(w.trace, Data(stream, Send(env, w, NextPacket(w, stream, payload)))),
              SendData(env, w, stream, payload).trace)
    ensures NextPacket(w, stream, payload) == Packet(0, Code(stream), SeqOf(w.s, stream), payload)
  {
    hide Reset, NextSeq, Send, NextPacket;
    var sent := After(w.trace, Data(stream, Send(env, w, NextPacket(w, stream, payload))));
    assert Attempt(env, w, stream, payload).trace == sent;
    assert NextPacket(w, stream, payload) == Packet(0, Code(stream), SeqOf(w.s, stream), payload)
           by { NextPacketIs(w, stream, payload); }
  }

  lemma NextPacketIs(w: World, stream: Stream, payload: seq<byte>)
    ensures NextPacket(w, stream, payload) == Packet(0, Code(stream), SeqOf(w.s, stream), payload)
  {
  }

  /** Learn and replay: the timings the host heard are always accepted by its own builder; the packet passes the
      firmware's checks in every run, and the transmitter emits the identical timings `repeats + 1` times, or, because
      that sum is kept in sixteen bits, not at all when `repeats` is 65535. */
  lemma LearnAndReplay(env: Env, inputs: seq<LoopInput>, u: Trace, e: Event,
                       c: Decoded, carrierHz: uint32, repeats: uint16, id: uint32)
    requires c.rawlen >= 2 && env.irReady && Within(After(u, e), Run(env, inputs).trace) && e.Handled?
    requires var b := Host.BuildIrTransmit(Captured(env.rawTick, c).value.raw, carrierHz, repeats, id);
             b.Built? ==> e.packet == b.packet
    ensures Host.BuildIrTransmit(Captured(env.rawTick, c).value.raw, carrierHz, repeats, id).Built?
    ensures e.reply.None? && e.action.Emit?
    ensures |e.action.bursts| == if repeats < 65535 then repeats + 1 else 0
    ensures forall i :: 0 <= i < |e.action.bursts| ==>
              e.action.bursts[i] == Burst(Captured(env.rawTick, c).value.raw, CarrierKHz(carrierHz))
    ensures carrierHz < 1000 ==> CarrierKHz(carrierHz) == 38
    ensures 1000 <= carrierHz < 65_536_000 ==> CarrierKHz(carrierHz) == carrierHz / 1000
  {
    var raw := Captured(env.rawTick, c).value.raw;
    IrTransmitUnderstood(raw, carrierHz, repeats, id);
    Invariant.RunOrderly(env, inputs, After(u, e));
    assert EventOk(env, u, e);
    hide *;
    Replayed(env, e.packet, e.action, if e.reply.None? then None else Some(e.reply.value.packet),
             raw, carrierHz, repeats);
  }

  lemma Replayed(env: Env, p: Packet, a: Action, reply: Option<Packet>,
                 raw: seq<uint16>, carrierHz: uint32, repeats: uint16)
    requires AnsweredWell(env, p, a, reply) && env.irReady && p.typ == IR_TRANSMIT && GoodIrTransmit(p)
    requires U16sOf(p.payload[8..], U16At(p.payload, 0)) == raw
    requires U32At(p.payload, 2) == carrierHz && U16At(p.payload, 6) == repeats
    ensures reply.None? && a.Emit? && |a.bursts| == if repeats < 65535 then repeats + 1 else 0
    ensures forall i :: 0 <= i < |a.bursts| ==> a.bursts[i] == Burst(raw, CarrierKHz(carrierHz))
  {
    hide U16sOf, U16At, U32At, GoodSpkPcm, GoodSpkComp, CarrierKHz;
    assert a == Emit(Bursts(raw, carrierHz, repeats));
  }

  // ----- Microphone -----

  /** A complete I2S frame that a MicPCM subscriber's session gets is sent at once, and the host hears the louder
      slot. */
  lemma MicHeard(env: Env, w: World, input: LoopInput)
    requires w.open && input.upMic && w.s.micPcm && env.micReady && input.mic.Some?
    ensures var samples := LouderSlot(input.mic.value);
            var p := NextPacket(w, MicPcm, PcmPayload(samples));
            && Within(After(w.trace, Data(MicPcm, Send(env, w, p))), PollMic(env, w, input).trace)
            && Decoding.Decode(p) == Pcm(16000, 1, 16, 320, I16s(samples), true)
            && I16sOf(I16s(samples), 320) == samples
  {
    var payload := PcmPayload(LouderSlot(input.mic.value));
    HearsPcm(LouderSlot(input.mic.value), w.s.micPcmSeq);
    SendDataWithin(env, w, MicPcm, payload);
    hide LouderSlot, Decoding.Decode, PcmPayload, I16s, I16sOf, SendData, Send, NextPacket, Within, PollMic;
    PollMicKeeps(env, w, input, After(w.trace, Data(MicPcm, Send(env, w, NextPacket(w, MicPcm, payload)))));
  }

  lemma PollMicKeeps(env: Env, w: World, input: LoopInput, u: Trace)
    requires w.open && input.upMic && w.s.micPcm && env.micReady && input.mic.Some?
    requires Within(u, SendData(env, w, MicPcm, PcmPayload(LouderSlot(input.mic.value))).trace)
    ensures Within(u, PollMic(env, w, input).trace)
  {
    hide LouderSlot, PcmPayload, CompPayload, SendData, Within;
    var w1 := SendData(env, w, MicPcm, PcmPayload(LouderSlot(input.mic.value)));
    if input.encoded.Some? {
      SendDataKeeps(env, w1, MicComp, CompPayload(input.encoded.value), u);
    }
  }

  lemma SendDataKeeps(env: Env, w: World, stream: Stream, payload: seq<byte>, u: Trace)
    requires Within(u, w.trace)
    ensures Within(u, SendData(env, w, stream, payload).trace)
  {
    hide Reset, NextSeq, Send, NextPacket;
    assert Within(u, Attempt(env, w, stream, payload).trace);
  }

  /** The frame that the encoder makes of it is sent to a MicComp subscriber, unless the MicPCM packet before it ended
      the session, and reaches the host unchanged. */
  lemma CompHeard(env: Env, w: World, input: LoopInput)
    requires w.open && input.upMic && w.s.micComp && env.micReady && input.mic.Some? && input.encoded.Some?
    ensures var w1 := if w.s.micPcm then SendData(env, w, MicPcm, PcmPayload(LouderSlot(input.mic.value))) else w;
            var p := NextPacket(w1, MicComp, CompPayload(input.encoded.value));
            && Decoding.Decode(p) == Comp(1, 16000, 1, 20, input.encoded.value, true)
            && (w1.open ==> Within(After(w1.trace, Data(MicComp, Send(env, w1, p))), PollMic(env, w, input).trace))
            && (!w1.open ==> PollMic(env, w, input) == w1)
  {
    var payload := CompPayload(input.encoded.value);
    var w1 := if w.s.micPcm then SendData(env, w, MicPcm, PcmPayload(LouderSlot(input.mic.value))) else w;
    SendDataWithin(env, w1, MicComp, payload);
    HearsComp(input.encoded.value, SeqOf(w1.s, MicComp));
    StillSubscribed(env, w, PcmPayload(LouderSlot(input.mic.value)));
    hide Decoding.Decode, SendData, NextPacket, PcmPayload, CompPayload, LouderSlot, Within, Send;
    assert w1.open ==> PollMic(env, w, input) == SendData(env, w1, MicComp, payload);
  }

  lemma StillSubscribed(env: Env, w: World, payload: seq<byte>)
    ensures var r := SendData(env, w, MicPcm, payload); r.open ==> r.s.micComp == w.s.micComp
  {
    hide Send;
  }

  // ----- Sensors -----

  lemma SenseTrace(env: Env, w: World, kind: SensorKind, reading: Option<real>)
    ensures Within(After(w.trace, SensedEvent(env, w, kind, reading)), Sense(env, w, kind, reading).trace)
  {
    hide SensedEvent, SensedState, With, Reset, ReportFailed;
    var sent := After(w.trace, SensedEvent(env, w, kind, reading));
    assert Within(sent, sent) && Within(sent, After(sent, Closed(SendFailed)));
  }

  lemma SenseIfKeeps(env: Env, w: World, kind: SensorKind, needed: bool, input: LoopInput, u: Trace)
    requires Within(u, w.trace)
    ensures Within(u, SenseIf(env, w, kind, needed, input).trace)
  {
    hide SensedEvent, SensedState, With, Reset, ReportFailed;
    var sent := After(w.trace, SensedEvent(env, w, kind, Session.Reading(input, kind)));
    assert Within(u, sent) && Within(u, After(sent, Closed(SendFailed)));
  }

  /** `e` is what a reading at `time` must lead to: a report of the given type and unit, if any, that says what was
      read. */
  ghost predicate ReadingOf(env: Env, e: Event, typ: uint16, unit: byte, time: nat, reading: Option<real>) {
    && e.Sensed? && e.time == time && e.valid == reading.Some?
    && e.value == (if reading.Some? then reading.value else 0.0)
    && (e.report.Some? ==>
          && e.report.value.packet.typ == typ
          && Decoding.Decode(e.report.value.packet) ==
               Heard.Reading(unit, if e.valid then 255 else 0, env.bits(e.value)))
  }

  /** The pass `w`, `r` takes such a reading. */
  ghost predicate Takes(env: Env, time: nat, r: World, typ: uint16, unit: byte, reading: Option<real>) {
    exists u: Trace, e: Event :: Within(After(u, e), r.trace) && ReadingOf(env, e, typ, unit, time, reading)
  }

  lemma SensedIsReading(env: Env, w: World, kind: SensorKind, reading: Option<real>)
    ensures ReadingOf(env, SensedEvent(env, w, kind, reading), SensorCode(kind), Unit(kind), w.clock, reading)
  {
    HearsReading(kind, reading.Some?, env.bits(if reading.Some? then reading.value else 0.0), Of(w.s, kind).seqNo);
    hide Decoding.Decode, SensorPayload, TooClose, Send, Unit, Of;
    if !TooClose(Of(w.s, kind), kind, reading) {
      SendKeepsPacket(env, w, Packet(0, SensorCode(kind), Of(w.s, kind).seqNo,
                                     SensorPayload(kind, reading.Some?,
                                                   env.bits(if reading.Some? then reading.value else 0.0))));
    }
  }

  lemma SendKeepsPacket(env: Env, w: World, p: Packet)
    ensures Send(env, w, p).packet == p
  {
  }

  lemma SenseIfTakes(env: Env, w: World, kind: SensorKind, input: LoopInput)
    ensures Takes(env, w.clock, SenseIf(env, w, kind, true, input), SensorCode(kind), Unit(kind),
              Session.Reading(input, kind))
  {
    SenseTrace(env, w, kind, Session.Reading(input, kind));
    SensedIsReading(env, w, kind, Session.Reading(input, kind));
    hide SensedEvent, Sense, ReadingOf;
    var e := SensedEvent(env, w, kind, Session.Reading(input, kind));
    assert Within(After(w.trace, e), SenseIf(env, w, kind, true, input).trace);
  }

  /** What has been taken stays taken while the other sensors are polled. */
  lemma TakesKept(env: Env, time: nat, w: World, kind: SensorKind, needed: bool, input: LoopInput,
                  typ: uint16, unit: byte, reading: Option<real>)
    requires Takes(env, time, w, typ, unit, reading)
    ensures Takes(env, time, SenseIf(env, w, kind, needed, input), typ, unit, reading)
  {
    hide ReadingOf, SenseIf;
    var u: Trace, e: Event :| Within(After(u, e), w.trace) && ReadingOf(env, e, typ, unit, time, reading);
    SenseIfKeeps(env, w, kind, needed, input, After(u, e));
  }

  lemma SenseIfClock(env: Env, w: World, kind: SensorKind, needed: bool, input: LoopInput)
    ensures SenseIf(env, w, kind, needed, input).clock == w.clock
  {
    hide SensedEvent, SensedState, With, Reset, ReportFailed;
  }

  /** A sensor that is due is read in the same pass: its own reading, at the time of the pass, and what is reported of
      it is heard by the host under the sensor's type and with its unit, quality 255 and the value, or quality 0 and the
      value 0. */
  lemma ReadingHeard(env: Env, w: World, input: LoopInput)
    requires w.open && input.upSensors
    ensures var r := PollSensors(env, w, input);
            && (Due(w.s.ambient, w.clock) ==> Takes(env, w.clock, r, 0x0301, 1, input.lux))
            && (Due(w.s.temperature, w.clock) ==> Takes(env, w.clock, r, 0x0302, 2, input.celsius))
            && (Due(w.s.humidity, w.clock) ==> Takes(env, w.clock, r, 0x0303, 3, input.percent))
  {
    var needAmbient, needTemp, needHum :=
      Due(w.s.ambient, w.clock), Due(w.s.temperature, w.clock), Due(w.s.humidity, w.clock);
    var w1 := SenseIf(env, w, Ambient, needAmbient, input);
    var w2 := SenseIf(env, w1, Temperature, needTemp, input);
    var w3 := SenseIf(env, w2, Humidity, needHum, input);
    assert PollSensors(env, w, input) == w3;
    SenseIfClock(env, w, Ambient, needAmbient, input);
    SenseIfClock(env, w1, Temperature, needTemp, input);
    hide SenseIf, Due, Takes, PollSensors;
    if needAmbient {
      SenseIfTakes(env, w, Ambient, input);
      TakesKept(env, w.clock, w1, Temperature, needTemp, input, 0x0301, 1, input.lux);
      TakesKept(env, w.clock, w2, Humidity, needHum, input, 0x0301, 1, input.lux);
    }
    if needTemp {
      SenseIfTakes(env, w1, Temperature, input);
      TakesKept(env, w.clock, w2, Humidity, needHum, input, 0x0302, 2, input.celsius);
    }
    if needHum {
      SenseIfTakes(env, w2, Humidity, input);
    }
  }

  // ----- Both threads of the host to the dispatcher of the firmware -----

  /** Whatever the interleaving of the host's threads and however its bytes travel: a session that has read the host's
      whole stream, in which no thread hands over a byte after a send that failed part way, has dispatched exactly the
      packets sent as a whole; each thread's in its order, and data packets with consecutive numbers per type. */
  lemma HostToFirmware(env: Env, inputs: seq<LoopInput>, program: seq<HostLock.Request>, moves: seq<HostLock.Move>)
    requires HostLock.GoodProgram(program) && !HostLock.WritesAfterTear(program, moves)
    requires Run(env, inputs).open && Run(env, inputs).inbox == []
    requires Arrivals(env, inputs) == HostLock.Schedule(program, moves).wire
    ensures var h := HostLock.Schedule(program, moves);
            var ps := Dispatched(Run(env, inputs).trace);
            && ps == HostLock.Packets(HostLock.OnWire(h))
            && HostLock.Faithful(program, HostLock.OnWire(h), HostLock.Main)
            && HostLock.Faithful(program, HostLock.OnWire(h), HostLock.Heart)
            && HostLock.Consecutive(ps)
  {
    ArrivalsParsed(env, inputs);
    HostLock.LockedStream(program, moves);
    hide Run, Arrivals, Parse, HostLock.WritesAfterTear, HostLock.Schedule, HostLock.OnWire;
  }

  // ----- The wire of the firmware to the host's logger -----

  lemma WarningMeans(ps: seq<Packet>, i: nat, drops: bool)
    requires Silent(ps, {MIC_COMP, ACK, ERROR, HEARTBEAT}) && (drops || Silent(ps, {ACK, ERROR, HEARTBEAT}))
    requires i < |ps| && !IsControl(ps[i].typ) && Warns(ps[..i], ps[i])
    ensures ps[i].typ == MIC_COMP && drops
  {
    hide Warns;
  }

  /** The host on the other end of a session: however `recv` cuts the wire, it handles exactly the packets delivered,
      and its sequence check warns about no type but MicComp, nor about MicComp if none of its packets was lost. */
  method HostHears(env: Env, ghost inputs: seq<LoopInput>, wire: seq<byte>, answers: seq<Reader.Recv>)
    returns (packets: seq<Packet>, heard: seq<Heard>, warned: seq<bool>)
    requires wire == Wire(Run(env, inputs).trace) && QuietAfterTear(Run(env, inputs).trace)
              && Reader.NeverStops(answers)
    ensures packets == Delivered(Run(env, inputs).trace) && |heard| == |warned| == |packets|
    ensures forall i :: 0 <= i < |packets| ==> heard[i] == Decoding.Decode(packets[i])
    ensures forall i :: 0 <= i < |packets| && warned[i] ==>
              packets[i].typ == MIC_COMP && !NoDrops(Run(env, inputs).trace)
  {
    HostSeesNoGaps(env, inputs);
    ghost var drops := !NoDrops(Run(env, inputs).trace);
    hide Run, Wire, Delivered, QuietAfterTear, NoDrops, Decoding.Decode, Warns, ReadAll, Silent, IsControl;
    var connection := new Reader.Connection(wire, answers);
    var logger := new Reader.PacketLogger();
    var ending;
    packets, heard, warned, ending := Reader.ReadLoop(connection, logger);
    forall i | 0 <= i < |packets| && warned[i] ensures packets[i].typ == MIC_COMP && drops {
      WarningMeans(packets, i, drops);
    }
  }
}
