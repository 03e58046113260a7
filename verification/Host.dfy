/** The Python peer: packets it builds and sends, packets it reads back, and its check of sequence numbers. */
module Host {
  import opened Bytes
  import opened Protocol
  import opened Codec
  import opened Parsing
  import opened History
  import opened Decoding
  import opened Audio

  // ----- Building packets -----

  /** ValueError and struct.error of the builders; a socket that is not there, or that fails while sending. */
  datatype Error = ValueError | StructError | NotConnected | Lost

  datatype Built = Built(packet: Packet) | Invalid(error: Error)

  function BuildSubscribe(target: uint16, intervalMs: int, options: int, id: uint32): Built {
    if !(0 <= intervalMs < 0x1_0000) || !(0 <= options < 0x1_0000_0000) then Invalid(StructError)
    else Built(Packet(0, SUBSCRIBE, id, SubscribeBody(target, intervalMs, options)))
  }

  function BuildIrTransmit(raw: seq<int>, carrierHz: int, repeats: int, id: uint32): Built {
    if raw == [] || |raw| > 512 || exists i :: 0 <= i < |raw| && !(0 <= raw[i] <= 65535) then Invalid(ValueError)
    else if !(0 <= carrierHz < 0x1_0000_0000) || !(0 <= repeats < 0x1_0000) then Invalid(StructError)
    else Built(Packet(0, IR_TRANSMIT, id, IrTransmitBody(|raw|, carrierHz, repeats) + U16s(raw)))
  }

  function BuildSpkPcm(pcm: seq<int>, sampleRate: int, channels: int, bits: int, id: uint32): Built {
    if channels != 1 || bits != 16 || pcm == [] || |pcm| > 960 then Invalid(ValueError)
    else if exists i :: 0 <= i < |pcm| && !(-32768 <= pcm[i] <= 32767) then Invalid(ValueError)
    else if !(0 <= sampleRate < 0x1_0000_0000) then Invalid(StructError)
    else Built(Packet(0, SPK_PCM, id, AudioPcmBody(sampleRate, 1, 16, |pcm|) + I16s(pcm)))
  }

  function BuildSpkComp(encoded: seq<byte>, sampleRate: int, channels: int, frameMs: int, id: uint32): Built {
    if encoded == [] then Invalid(ValueError)
    else if !(0 <= sampleRate < 0x1_0000_0000) || !(0 <= channels < 0x100) || !(0 <= frameMs < 0x100) then
      Invalid(StructError)
    else if |encoded| >= 0x1_0000 then Invalid(StructError)
    else if 9 + |encoded| > MAX_PAYLOAD then Invalid(ValueError)
    else Built(Packet(0, SPK_COMP, id, AudioCompBody(sampleRate, channels, frameMs, |encoded|) + encoded))
  }

  /** Every packet that is built is legal. */
  lemma BuiltLegal(target: uint16, intervalMs: int, options: int, raw: seq<int>, carrierHz: int, repeats: int,
                   pcm: seq<int>, sampleRate: int, channels: int, bits: int, encoded: seq<byte>, frameMs: int,
                   id: uint32)
    ensures var b := BuildSubscribe(target, intervalMs, options, id); b.Built? ==> Legal(b.packet)
    ensures var b := BuildIrTransmit(raw, carrierHz, repeats, id); b.Built? ==> Legal(b.packet)
    ensures var b := BuildSpkPcm(pcm, sampleRate, channels, bits, id); b.Built? ==> Legal(b.packet)
    ensures var b := BuildSpkComp(encoded, sampleRate, channels, frameMs, id); b.Built? ==> Legal(b.packet)
  {
  }

  /** A SpkPCM frame built by the host passes the firmware's checks exactly if its rate is 16 kHz, and carries its
      samples. */
  lemma SpkPcmUnderstood(pcm: seq<int16>, sampleRate: uint32, id: uint32)
    requires 1 <= |pcm| <= 960
    ensures var b := BuildSpkPcm(pcm, sampleRate, 1, 16, id);
            && b.Built? && Legal(b.packet) && b.packet.typ == SPK_PCM && b.packet.flags == 0 && b.packet.id == id
            && (GoodSpkPcm(b.packet) <==> sampleRate == 16000)
            && (sampleRate == 16000 ==> SpkSamples(b.packet) == pcm)
  {
    PcmLayout(sampleRate, 1, 16, |pcm|, I16s(pcm));
    I16sRoundTrip(pcm);
    hide AudioPcmBody, I16s, I16sOf, U32At, U16At, FromLittleEndian;
  }

  // ----- A WAV file as packets -----

  /** The packets of a WAV file in pieces of `size` samples, up to the first piece that is refused. */
  datatype Plan = Plan(packets: seq<Packet>, error: Option<Error>)

  function WavPlan(samples: seq<int16>, size: nat, sampleRate: nat, first: uint32): Plan
    requires size > 0
    decreases |samples|
  {
    if samples == [] then Plan([], None)
    else
      var n := Min(size, |samples|);
      match BuildSpkPcm(samples[..n], sampleRate, 1, 16, first)
      case Invalid(error) => Plan([], Some(error))
      case Built(p) =>
        var later := WavPlan(samples[n..], size, sampleRate, Wrap32(first + 1));
        Plan([p] + later.packets, later.error)
  }

  lemma WavUnrolls(samples: seq<int16>, size: nat, sampleRate: nat, first: uint32)
    requires size > 0 && samples != []
    ensures var n := Min(size, |samples|);
            var b := BuildSpkPcm(samples[..n], sampleRate, 1, 16, first);
            var later := WavPlan(samples[n..], size, sampleRate, Wrap32(first + 1));
            b.Built? ==> WavPlan(samples, size, sampleRate, first) == Plan([b.packet] + later.packets, later.error)
  {
    hide BuildSpkPcm;
  }

  lemma WavRefused(samples: seq<int16>, size: nat, sampleRate: nat, first: uint32)
    requires size > 0 && samples != []
    ensures var b := BuildSpkPcm(samples[..Min(size, |samples|)], sampleRate, 1, 16, first);
            b.Invalid? ==> WavPlan(samples, size, sampleRate, first) == Plan([], Some(b.error))
  {
    hide BuildSpkPcm;
  }

  lemma WavEnd(size: nat, sampleRate: nat, first: uint32)
    requires size > 0
    ensures WavPlan([], size, sampleRate, first) == Plan([], None)
  {
  }

  /** Frames of `frameMs` milliseconds, rounded down to whole samples, but at least one. */
  function FrameSamples(sampleRate: nat, frameMs: nat): (n: nat)
    ensures n > 0
    ensures sampleRate * frameMs < 2000 ==> n == 1
    ensures sampleRate * frameMs >= 1000 ==> 1000 * n <= sampleRate * frameMs < 1000 * (n + 1)
  {
    Max(1, sampleRate * frameMs / 1000)
  }

  lemma FrameSamplesAt16k(frameMs: nat)
    requires frameMs >= 1
    ensures FrameSamples(16000, frameMs) == 16 * frameMs
  {
  }

  /** Which files cannot be sent, and with which error: those with a first frame of more than 960 samples, and those
      whose rate does not fit its field. */
  lemma {:induction false} WavRefusals(samples: seq<int16>, size: nat, sampleRate: nat, first: uint32)
    requires size > 0
    ensures WavPlan(samples, size, sampleRate, first).error ==
            if samples == [] then None
            else if size > 960 && |samples| > 960 then Some(ValueError)
            else if sampleRate > 0xFFFF_FFFF then Some(StructError)
            else None
    decreases |samples|
  {
    if samples != [] {
      var n := Min(size, |samples|);
      WavRefusals(samples[n..], size, sampleRate, Wrap32(first + 1));
    }
  }

  /** Consecutive numbers from `first` on, modulo 2^32. */
  predicate NumberedFrom(ps: seq<Packet>, first: uint32) {
    forall i :: 0 <= i < |ps| ==> ps[i].id == (first + i) % 0x1_0000_0000
  }

  /** The packets of a 16 kHz file in frames of `size` samples. */
  predicate Framed(ps: seq<Packet>, samples: seq<int16>, size: nat, first: uint32) {
    Speaks(ps, samples) && Pieces(ps, size) && NumberedFrom(ps, first)
  }

  lemma FramedCons(p: Packet, ps: seq<Packet>, piece: seq<int16>, rest: seq<int16>, size: nat, first: uint32)
    requires Framed(ps, rest, size, Wrap32(first + 1)) && p.typ == SPK_PCM && GoodSpkPcm(p) && Voice(p) == piece
    requires p.id == first && 1 <= |piece| <= size && (rest != [] ==> |piece| == size) && (rest == [] ==> ps == [])
    ensures Framed([p] + ps, piece + rest, size, first)
  {
    hide Voice, Speech, GoodSpkPcm, Speaks, Pieces;
    SpeaksCons(p, ps, piece, rest);
    PiecesCons(p, ps, size);
    var more := [p] + ps;
    forall i | 0 <= i < |more| ensures more[i].id == (first + i) % 0x1_0000_0000 {
      if i > 0 {
        assert more[i] == ps[i - 1];
        WrapTwice(first + 1, i - 1);
      }
    }
  }

  lemma WrapTwice(n: nat, i: nat)
    ensures (Wrap32(n) + i) % 0x1_0000_0000 == (n + i) % 0x1_0000_0000
  {
  }

  lemma FrameBuilt(pcm: seq<int16>, id: uint32)
    requires 1 <= |pcm| <= 960
    ensures var b := BuildSpkPcm(pcm, 16000, 1, 16, id);
            && b.Built? && b.packet.typ == SPK_PCM && b.packet.id == id && GoodSpkPcm(b.packet)
                 && Voice(b.packet) == pcm
  {
    SpkPcmUnderstood(pcm, 16000, id);
    hide BuildSpkPcm, GoodSpkPcm, SpkSamples;
  }

  /** No frame is refused, and the packets are those of the file. */
  predicate PlanFramed(plan: Plan, samples: seq<int16>, size: nat, first: uint32) {
    plan.error == None && Framed(plan.packets, samples, size, first) && (samples == [] ==> plan.packets == [])
  }

  lemma NothingFramed(size: nat, first: uint32)
    ensures PlanFramed(Plan([], None), [], size, first)
  {
  }

  lemma PlanFramedNext(p: Packet, later: Plan, piece: seq<int16>, rest: seq<int16>, size: nat, first: uint32)
    requires PlanFramed(later, rest, size, Wrap32(first + 1))
    requires p.typ == SPK_PCM && GoodSpkPcm(p) && Voice(p) == piece && p.id == first
    requires 1 <= |piece| <= size && (rest != [] ==> |piece| == size)
    ensures PlanFramed(Plan([p] + later.packets, later.error), piece + rest, size, first)
  {
    hide GoodSpkPcm, Voice, Framed, Wrap32;
    FramedCons(p, later.packets, piece, rest, size, first);
  }

  lemma WavFramedNext(samples: seq<int16>, size: nat, first: uint32)
    requires 1 <= size <= 960 && samples != []
    requires var n := Min(size, |samples|);
             PlanFramed(WavPlan(samples[n..], size, 16000, Wrap32(first + 1)), samples[n..], size, Wrap32(first + 1))
    ensures PlanFramed(WavPlan(samples, size, 16000, first), samples, size, first)
  {
    var n := Min(size, |samples|);
    var piece, rest := samples[..n], samples[n..];
    assert samples == piece + rest;
    WavUnrolls(samples, size, 16000, first);
    FrameBuilt(piece, first);
    hide BuildSpkPcm, PlanFramed, GoodSpkPcm, Voice, Wrap32, WavPlan;
    PlanFramedNext(BuildSpkPcm(piece, 16000, 1, 16, first).packet, WavPlan(rest, size, 16000, Wrap32(first + 1)),
                   piece, rest, size, first);
  }

  /** The plan of a 16 kHz file is refused nowhere, and its packets say exactly the file's samples, frame by frame. */
  lemma {:induction false} WavFramed(samples: seq<int16>, size: nat, first: uint32)
    requires 1 <= size <= 960
    ensures PlanFramed(WavPlan(samples, size, 16000, first), samples, size, first)
    decreases |samples|
  {
    if samples == [] {
      NothingFramed(size, first);
      WavEnd(size, 16000, first);
    } else {
      hide PlanFramed, Wrap32, WavPlan;
      WavFramed(samples[Min(size, |samples|)..], size, Wrap32(first + 1));
      WavFramedNext(samples, size, first);
    }
  }

  lemma VoiceOfFrame(pcm: seq<int16>, sampleRate: uint32, id: uint32)
    requires 1 <= |pcm| <= 960
    ensures var b := BuildSpkPcm(pcm, sampleRate, 1, 16, id);
            b.Built? && Legal(b.packet) && (GoodSpkPcm(b.packet) <==> sampleRate == 16000)
            && Voice(b.packet) == if sampleRate == SAMPLE_RATE then pcm else []
  {
    SpkPcmUnderstood(pcm, sampleRate, id);
    hide BuildSpkPcm, GoodSpkPcm, SpkSamples;
  }

  /** What a plan says about the samples it was made from. */
  predicate Says(plan: Plan, samples: seq<int16>, sampleRate: uint32) {
    && plan.error.None? && AllLegal(plan.packets)
    && (forall p :: p in plan.packets ==> (GoodSpkPcm(p) <==> sampleRate == SAMPLE_RATE))
    && Speech(plan.packets) == if sampleRate == SAMPLE_RATE then samples else []
  }

  lemma SaysNext(p: Packet, later: Plan, piece: seq<int16>, rest: seq<int16>, sampleRate: uint32)
    requires Says(later, rest, sampleRate)
    requires Legal(p) && (GoodSpkPcm(p) <==> sampleRate == SAMPLE_RATE)
    requires Voice(p) == if sampleRate == SAMPLE_RATE then piece else []
    ensures Says(Plan([p] + later.packets, later.error), piece + rest, sampleRate)
  {
    hide Voice, Speech, Legal, GoodSpkPcm;
    SpeechCons(p, later.packets);
  }

  lemma SaysNothing(sampleRate: uint32)
    ensures Says(Plan([], None), [], sampleRate)
  {
  }

  lemma WavSpeechNext(samples: seq<int16>, size: nat, sampleRate: uint32, first: uint32)
    requires 1 <= size <= 960 && samples != []
    requires var n := Min(size, |samples|);
             Says(WavPlan(samples[n..], size, sampleRate, Wrap32(first + 1)), samples[n..], sampleRate)
    ensures Says(WavPlan(samples, size, sampleRate, first), samples, sampleRate)
  {
    var n := Min(size, |samples|);
    var piece, rest := samples[..n], samples[n..];
    assert samples == piece + rest;
    WavUnrolls(samples, size, sampleRate, first);
    VoiceOfFrame(piece, sampleRate, first);
    hide BuildSpkPcm, Voice, WavPlan, Says, Wrap32, Legal, GoodSpkPcm;
    SaysNext(BuildSpkPcm(piece, sampleRate, 1, 16, first).packet,
             WavPlan(rest, size, sampleRate, Wrap32(first + 1)), piece, rest, sampleRate);
  }

  /** The frames of a mono 16-bit WAV file: at 16 kHz no frame is refused and together they say exactly the file's
      samples; at any other rate the firmware accepts none of them. */
  lemma {:induction false} WavSpeech(samples: seq<int16>, size: nat, sampleRate: uint32, first: uint32)
    requires 1 <= size <= 960
    ensures Says(WavPlan(samples, size, sampleRate, first), samples, sampleRate)
    decreases |samples|
  {
    if samples == [] {
      SaysNothing(sampleRate);
      WavEnd(size, sampleRate, first);
    } else {
      hide WavPlan, Says, Wrap32;
      WavSpeech(samples[Min(size, |samples|)..], size, sampleRate, Wrap32(first + 1));
      WavSpeechNext(samples, size, sampleRate, first);
    }
  }

  // ----- Which values can be sent -----

  /** Exactly when the builders make a packet, and which error they raise otherwise; checks of the arguments come
      before what the fields can hold. */
  lemma BuildsExactly(target: uint16, intervalMs: int, options: int, raw: seq<int>, carrierHz: int, repeats: int,
      id: uint32)
    ensures var b := BuildSubscribe(target, intervalMs, options, id);
            b.Built? <==> 0 <= intervalMs <= 65535 && 0 <= options <= 0xFFFF_FFFF
    ensures var b := BuildSubscribe(target, intervalMs, options, id); b.Invalid? ==> b.error == StructError
    ensures var b := BuildIrTransmit(raw, carrierHz, repeats, id);
            var timings := 1 <= |raw| <= 512 && forall i :: 0 <= i < |raw| ==> 0 <= raw[i] <= 65535;
            && (b.Built? <==> timings && 0 <= carrierHz <= 0xFFFF_FFFF && 0 <= repeats <= 65535)
            && (b.Invalid? ==> b.error == if timings then StructError else ValueError)
  {
  }

  lemma BuildsSpeechExactly(pcm: seq<int>, sampleRate: int, channels: int, bits: int, encoded: seq<byte>, frameMs: int,
                            id: uint32)
    ensures var b := BuildSpkPcm(pcm, sampleRate, channels, bits, id);
            var samples := 1 <= |pcm| <= 960 && (forall i :: 0 <= i < |pcm| ==> -32768 <= pcm[i] <= 32767)
                           && channels == 1 && bits == 16;
            && (b.Built? <==> samples && 0 <= sampleRate <= 0xFFFF_FFFF)
            && (b.Invalid? ==> b.error == if samples then StructError else ValueError)
    ensures var b := BuildSpkComp(encoded, sampleRate, channels, frameMs, id);
            var fields := 0 <= sampleRate <= 0xFFFF_FFFF && 0 <= channels <= 255 && 0 <= frameMs <= 255
                && |encoded| <= 65535;
            && (b.Built? <==> 1 <= |encoded| <= 4087 && fields)
            && (b.Invalid? ==> b.error == if encoded != [] && !fields then StructError else ValueError)
  {
  }

  // ----- Sending -----

  datatype Result = Done(id: uint32) | Raised(error: Error)

  /** Request identifiers run from 1 and start again before the largest 32-bit value. */
  function NextRequestId(id: uint32): uint32 {
    if id + 1 >= 0xFFFF_FFFF then 1 else id + 1
  }

  /** The identifier drawn after `n` others. */
  function IdAfter(n: nat): uint32 {
    if n == 0 then 1 else NextRequestId(IdAfter(n - 1))
  }

  /** Identifiers drawn in a row are 1, 2, 3, ..., and start again after 2^32 - 2 of them: so many in a row are
      distinct. */
  lemma {:induction false} IdsExactly(n: nat)
    ensures IdAfter(n) == n % 0xFFFF_FFFE + 1
  {
    if n > 0 {
      IdsExactly(n - 1);
    }
  }

  function SequenceOf(sequences: map<uint16, uint32>, typ: uint16): uint32 {
    if typ in sequences then sequences[typ] else 0
  }

  class WspClient {
    /** What the n-th `sendall` does: take everything, or raise an error after some bytes. */
    const socket: nat -> Option<nat>
    var connected: bool
    var requestId: uint32
    var dataSequence: map<uint16, uint32>
    var calls: nat
    /** The bytes the socket has taken. */
    var wire: seq<byte>
    ghost var sent: seq<Packet>
    ghost var torn: bool

    ghost predicate Valid()
      reads this
    {
      1 <= requestId < 0xFFFF_FFFF && AllLegal(sent) && (!torn ==> wire == Frames(sent))
    }

    constructor (socket: nat -> Option<nat>)
      ensures Valid() && !connected && requestId == 1 && dataSequence == map[] && wire == [] && sent == [] && !torn
    {
      this.socket := socket;
      connected, requestId, dataSequence, calls, wire, sent, torn := false, 1, map[], 0, [], [], false;
    }

    method Connect()
      requires Valid()
      modifies `connected
      ensures Valid() && connected
    {
      connected := true;
    }

    /** `p` went out as a whole, or an error was raised after an initial part of it. */
    twostate predicate Sends(p: Packet, new error: Option<Error>)
      reads this
    {
      && Legal(p)
      && (error.None? ==> sent == old(sent) + [p] && wire == old(wire) + Frame(p) && torn == old(torn))
      && (error.Some? ==>
            && sent == old(sent) && old(wire) <= wire <= old(wire) + Frame(p)
            && torn == (old(torn) || wire != old(wire))
            && error.value in {NotConnected, Lost})
    }

    /** What was built went out, or the builder's error was raised and nothing went out. */
    twostate predicate Delivers(b: Built, new r: Result)
      reads this
    {
      match b
      case Built(p) => Sends(p, if r.Done? then None else Some(r.error)) && (r.Done? ==> r.id == p.id)
      case Invalid(error) => r == Raised(error) && sent == old(sent) && wire == old(wire) && torn == old(torn)
    }

    method NextId() returns (id: uint32)
      requires Valid()
      modifies `requestId
      ensures Valid() && id == old(requestId) && requestId == NextRequestId(id)
    {
      id := requestId;
      requestId := requestId + 1;
      if requestId >= 0xFFFF_FFFF {
        requestId := 1;
      }
    }

    method NextDataSequence(typ: uint16) returns (number: uint32)
      modifies `dataSequence
      ensures number == SequenceOf(old(dataSequence), typ)
      ensures dataSequence == old(dataSequence)[typ := Wrap32(number + 1)]
    {
      number := if typ in dataSequence then dataSequence[typ] else 0;
      dataSequence := dataSequence[typ := Wrap32(number + 1)];
    }

    method SendAll(data: seq<byte>, ghost p: Packet) returns (error: Option<Error>)
      requires Valid() && Legal(p) && data == Frame(p)
      modifies `calls, `wire, `sent, `torn
      ensures Valid() && Sends(p, error)
    {
      hide Frame, Frames;
      if !connected {
        return Some(NotConnected);
      }
      var answer := socket(calls);
      calls := calls + 1;
      if answer.None? {
        wire := wire + data;
        FramesPush(sent, p);
        sent := sent + [p];
        return None;
      }
      var part := data[..Min(answer.value, |data|)];
      torn := torn || part != [];
      wire := wire + part;
      error := Some(Lost);
    }

    /** Put a header in front of a body and send both. */
    method SendPacket(typ: uint16, id: uint32, body: seq<byte>) returns (r: Result)
      requires Valid() && |body| <= MAX_PAYLOAD
      modifies `calls, `wire, `sent, `torn
      ensures Valid() && Delivers(Built(Packet(0, typ, id, body)), r)
    {
      var h := Header(MAGIC, PROTO_VER, 0, typ, |body|, id);
      HeaderAgrees(h);
      hide EncodeHeader, AllFit, Pack, Frames;
      var error := SendAll(Pack(HEADER_FORMAT, HeaderValues(h)) + body, Packet(0, typ, id, body));
      r := if error.None? then Done(id) else Raised(error.value);
    }

    method SendHeartbeat() returns (r: Result)
      requires Valid()
      modifies this
      ensures Valid() && requestId == NextRequestId(old(requestId)) && dataSequence == old(dataSequence)
      ensures Delivers(Built(HeartbeatReply(old(requestId))), r)
    {
      hide Frame, Frames;
      var id := NextId();
      r := SendPacket(HEARTBEAT, id, []);
    }

    method SendSubscribe(target: uint16, intervalMs: int, options: int) returns (r: Result)
      requires Valid()
      modifies this
      ensures Valid() && requestId == NextRequestId(old(requestId)) && dataSequence == old(dataSequence)
      ensures Delivers(BuildSubscribe(target, intervalMs, options, old(requestId)), r)
    {
      hide Frame, Frames;
      var id := NextId();
      if !(0 <= intervalMs < 0x1_0000) || !(0 <= options < 0x1_0000_0000) {
        return Raised(StructError);
      }
      SubscribeAgrees(target, intervalMs, options);
      hide Pack, AllFit;
      r := SendPacket(SUBSCRIBE, id, Pack(SUBSCRIBE_FORMAT, SubscribeValues(target, intervalMs, options)));
    }

    method SendUnsubscribe(target: uint16) returns (r: Result)
      requires Valid()
      modifies this
      ensures Valid() && requestId == NextRequestId(old(requestId)) && dataSequence == old(dataSequence)
      ensures Delivers(Built(Packet(0, UNSUBSCRIBE, old(requestId), U16(target))), r)
    {
      hide Frame, Frames;
      var id := NextId();
      UnsubscribeAgrees(target);
      hide Pack, AllFit;
      r := SendPacket(UNSUBSCRIBE, id, Pack(UNSUBSCRIBE_FORMAT, Value(target, Nil)));
    }

    /** A sequence number is used up by every packet that is built, and by no other. */
    twostate predicate Counts(typ: uint16, b: Built)
      reads this
    {
      requestId == old(requestId)
      && dataSequence ==
         if b.Built? then old(dataSequence)[typ := Wrap32(SequenceOf(old(dataSequence), typ) + 1)]
         else old(dataSequence)
    }

    method SendIrTransmit(raw: seq<int>, carrierHz: int, repeats: int) returns (r: Result)
      requires Valid()
      modifies this
      ensures var b := BuildIrTransmit(raw, carrierHz, repeats, SequenceOf(old(dataSequence), IR_TRANSMIT));
              Valid() && Delivers(b, r) && Counts(IR_TRANSMIT, b)
    {
      hide Frame, Frames;
      if |raw| == 0 || |raw| > 512 {
        return Raised(ValueError);
      }
      for i := 0 to |raw|
        invariant forall j :: 0 <= j < i ==> 0 <= raw[j] <= 65535
      {
        if !(0 <= raw[i] <= 65535) {
          return Raised(ValueError);
        }
      }
      if !(0 <= carrierHz < 0x1_0000_0000) || !(0 <= repeats < 0x1_0000) {
        return Raised(StructError);
      }
      IrTransmitAgrees(|raw|, carrierHz, repeats);
      hide Pack, AllFit;
      var body := Pack(IR_TRANSMIT_FORMAT, IrTransmitValues(|raw|, carrierHz, repeats)) + U16s(raw);
      var number := NextDataSequence(IR_TRANSMIT);
      r := SendPacket(IR_TRANSMIT, number, body);
    }

    method SendSpkPcmFrame(pcm: seq<int>, sampleRate: int, channels: int, bits: int) returns (r: Result)
      requires Valid()
      modifies this
      ensures var b := BuildSpkPcm(pcm, sampleRate, channels, bits, SequenceOf(old(dataSequence), SPK_PCM));
              Valid() && Delivers(b, r) && Counts(SPK_PCM, b)
    {
      hide Frame, Frames;
      if channels != 1 || bits != 16 || |pcm| == 0 || |pcm| > 960 {
        return Raised(ValueError);
      }
      for i := 0 to |pcm|
        invariant forall j :: 0 <= j < i ==> -32768 <= pcm[j] <= 32767
      {
        if !(-32768 <= pcm[i] <= 32767) {
          return Raised(ValueError);
        }
      }
      if !(0 <= sampleRate < 0x1_0000_0000) {
        return Raised(StructError);
      }
      AudioPcmAgrees(sampleRate, channels, bits, |pcm|);
      hide Pack, AllFit;
      var body := Pack(AUDIO_PCM_FORMAT, AudioPcmValues(sampleRate, channels, bits, |pcm|)) + I16s(pcm);
      if |body| > MAX_PAYLOAD {
        return Raised(ValueError);
      }
      var number := NextDataSequence(SPK_PCM);
      r := SendPacket(SPK_PCM, number, body);
    }

    method SendSpkCompFrame(encoded: seq<byte>, sampleRate: int, channels: int, frameMs: int) returns (r: Result)
      requires Valid()
      modifies this
      ensures var b := BuildSpkComp(encoded, sampleRate, channels, frameMs, SequenceOf(old(dataSequence), SPK_COMP));
              Valid() && Delivers(b, r) && Counts(SPK_COMP, b)
    {
      hide Frame, Frames;
      if |encoded| == 0 {
        return Raised(ValueError);
      }
      if !(0 <= sampleRate < 0x1_0000_0000) || !(0 <= channels < 0x100) || !(0 <= frameMs < 0x100)
          || |encoded| >= 0x1_0000 {
        return Raised(StructError);
      }
      AudioCompAgrees(sampleRate, channels, frameMs, |encoded|);
      hide Pack, AllFit;
      var body := Pack(AUDIO_COMP_FORMAT, AudioCompValues(OPUS, sampleRate, channels, frameMs, |encoded|)) + encoded;
      if |body| > MAX_PAYLOAD {
        return Raised(ValueError);
      }
      var number := NextDataSequence(SPK_COMP);
      r := SendPacket(SPK_COMP, number, body);
    }

    /** One frame of a WAV file: `p` is what goes out. */
    method SendPiece(rest: seq<int16>, size: nat, sampleRate: nat) returns (error: Option<Error>, ghost p: Packet)
      requires Valid() && rest != [] && size > 0
      modifies this
      ensures Valid()
      ensures var plan := WavPlan(rest, size, sampleRate, SequenceOf(old(dataSequence), SPK_PCM));
              if error.None? then
                var later := WavPlan(rest[Min(size, |rest|)..], size, sampleRate, SequenceOf(dataSequence, SPK_PCM));
                plan == Plan([p] + later.packets, later.error) && sent == old(sent) + [p] && torn == old(torn)
              else if error.value in {NotConnected, Lost} then sent == old(sent)
              else plan == Plan([], error) && sent == old(sent) && torn == old(torn)
    {
      hide Frame, Frames, WavPlan, I16s, I16sOf, BuildSpkPcm;
      var n := Min(size, |rest|);
      var data := I16s(rest[..n]);
      I16sRoundTrip(rest[..n]);
      var pcm := I16sOf(data, |data| / 2);
      WavUnrolls(rest, size, sampleRate, SequenceOf(dataSequence, SPK_PCM));
      WavRefused(rest, size, sampleRate, SequenceOf(dataSequence, SPK_PCM));
      ghost var b := BuildSpkPcm(pcm, sampleRate, 1, 16, SequenceOf(dataSequence, SPK_PCM));
      var r := SendSpkPcmFrame(pcm, sampleRate, 1, 16);
      error := if r.Raised? then Some(r.error) else None;
      p := if b.Built? then b.packet else HeartbeatReply(0);
    }

    /** Send a WAV file frame by frame: without an error all the packets of its plan go out, and with one an initial
        part of them, up to the frame that was refused or lost. */
    method SendSpkPcmWav(samples: seq<int16>, channels: int, sampleWidth: int, sampleRate: nat, frameMs: nat)
      returns (error: Option<Error>)
      requires Valid()
      modifies this
      ensures Valid()
      ensures channels != 1 || sampleWidth != 2 ==> error == Some(ValueError) && sent == old(sent) && wire == old(wire)
      ensures channels == 1 && sampleWidth == 2 ==>
                var plan := WavPlan(samples, FrameSamples(sampleRate, frameMs), sampleRate,
                    SequenceOf(old(dataSequence), SPK_PCM));
                if error.Some? && error.value in {NotConnected, Lost} then old(sent) <= sent <= old(sent) + plan.packets
                else error == plan.error && sent == old(sent) + plan.packets && torn == old(torn)
      ensures channels == 1 && sampleWidth == 2 && sampleRate == 16000 && 1 <= frameMs <= 60 ==>
                if error.Some? then error.value in {NotConnected, Lost}
                else old(sent) <= sent
                     && Framed(sent[|old(sent)|..], samples, 16 * frameMs, SequenceOf(old(dataSequence), SPK_PCM))
    {
      hide Frame, Frames, WavPlan, SequenceOf, FrameSamples, Framed;
      if sampleRate == 16000 && 1 <= frameMs <= 60 {
        FrameSamplesAt16k(frameMs);
        WavFramed(samples, 16 * frameMs, SequenceOf(dataSequence, SPK_PCM));
      }
      if channels != 1 || sampleWidth != 2 {
        return Some(ValueError);
      }
      var size := FrameSamples(sampleRate, frameMs);
      var rest := samples;
      ghost var plan := WavPlan(samples, size, sampleRate, SequenceOf(dataSequence, SPK_PCM));
      ghost var done: seq<Packet>, coming := [], plan;
      while rest != []
        invariant Valid() && sent == old(sent) + done && torn == old(torn)
        invariant coming == WavPlan(rest, size, sampleRate, SequenceOf(dataSequence, SPK_PCM))
        invariant plan == Plan(done + coming.packets, coming.error)
        decreases |rest|
      {
        ghost var p;
        error, p := SendPiece(rest, size, sampleRate);
        if error.Some? {
          return;
        }
        rest := rest[Min(size, |rest|)..];
        coming := WavPlan(rest, size, sampleRate, SequenceOf(dataSequence, SPK_PCM));
        assert done + ([p] + coming.packets) == (done + [p]) + coming.packets;
        done := done + [p];
      }
      WavEnd(size, sampleRate, SequenceOf(dataSequence, SPK_PCM));
      return None;
    }
  }
}
