/** What a trace says by itself: bytes received, packets dispatched, subscriptions, numbers, stamps, and the rules every
    event must obey given the events before it. Nothing here looks at the firmware's state. */
module History {
  import opened Bytes
  import opened Protocol
  import opened Parsing
  import opened Drivers
  import opened Session

  // ----- The session so far -----

  predicate Connected(t: Trace) {
    match t
    case Boot => false
    case After(before, e) => if e.Opened? then true else if e.Closed? then false else Connected(before)
  }

  /** Every byte read from the client of the latest session. */
  function Inbound(t: Trace): seq<byte> {
    match t
    case Boot => []
    case After(before, e) =>
      if e.Opened? then [] else if e.Received? then Inbound(before) + e.bytes else Inbound(before)
  }

  /** The packets dispatched in the latest session. */
  function Dispatched(t: Trace): seq<Packet> {
    match t
    case Boot => []
    case After(before, e) =>
      if e.Opened? then [] else if e.Handled? then Dispatched(before) + [e.packet] else Dispatched(before)
  }

  // ----- Subscriptions -----

  predicate Available(env: Env, stream: Stream) {
    match stream
    case MicPcm => true
    case MicComp => env.encoderReady
    case IrReceive => true
    case Sensor(Ambient) => env.lightReady
    case Sensor(Temperature) => env.dhtReady
    case Sensor(Humidity) => env.dhtReady
  }

  /** `p` is a Subscribe request that the firmware accepts for `stream`. */
  predicate Accepts(env: Env, p: Packet, stream: Stream) {
    p.typ == SUBSCRIBE && |p.payload| == 8 && U16At(p.payload, 0) == Code(stream) && Available(env, stream)
  }

  predicate Cancels(p: Packet, stream: Stream) {
    p.typ == UNSUBSCRIBE && |p.payload| == 2 && U16At(p.payload, 0) == Code(stream)
  }

  /** The latest accepted request for `stream` in this session was a Subscribe. */
  predicate Subscribed(env: Env, t: Trace, stream: Stream) {
    match t
    case Boot => false
    case After(before, e) =>
      if e.Opened? || e.Closed? then false
      else if e.Handled? && Accepts(env, e.packet, stream) then true
      else if e.Handled? && Cancels(e.packet, stream) then false
      else Subscribed(env, before, stream)
  }

  /** The interval and the change flag a Subscribe asks for. */
  function Wanted(p: Packet): (uint16, bool) {
    if |p.payload| == 8 then (U16At(p.payload, 2), U32At(p.payload, 4) % 2 == 1) else (0, false)
  }

  /** Milliseconds between readings where a Subscribe leaves the choice to the firmware. */
  function StandardMs(kind: SensorKind): uint16 {
    match kind
    case Ambient => 1000
    case Temperature => 2000
    case Humidity => 2000
  }

  /** The shortest interval that is granted. */
  function LeastMs(kind: SensorKind): uint16 {
    match kind
    case Ambient => 200
    case Temperature => 2000
    case Humidity => 2000
  }

  /** The interval granted to a Subscribe that asks for `ms`. */
  function GrantedMs(kind: SensorKind, ms: uint16): uint16 {
    if ms == 0 then StandardMs(kind) else if ms < LeastMs(kind) then LeastMs(kind) else ms
  }

  /** The least change worth reporting: 1 lux, 0.2 degrees, 1 percent. */
  function LeastChange(kind: SensorKind): real {
    match kind
    case Ambient => 1.0
    case Temperature => 0.2
    case Humidity => 1.0
  }

  datatype Options = Options(intervalMs: uint16, onChangeOnly: bool)

  /** The options of the latest accepted Subscribe for a sensor in this session. */
  function Requested(env: Env, t: Trace, kind: SensorKind): Options {
    match t
    case Boot => Options(StandardMs(kind), false)
    case After(before, e) =>
      if e.Opened? || e.Closed? then Options(StandardMs(kind), false)
      else if e.Handled? && Accepts(env, e.packet, Sensor(kind)) then
        Options(GrantedMs(kind, Wanted(e.packet).0), Wanted(e.packet).1)
      else Requested(env, before, kind)
  }

  // ----- Data packets -----

  datatype Flow = Flow(stream: Stream, sent: Sent)

  /** The data packet an event tried to send. */
  function FlowOf(e: Event): Option<Flow> {
    match e
    case Data(stream, sent) => Some(Flow(stream, sent))
    case Sensed(kind, _, _, _, Some(sent)) => Some(Flow(Sensor(kind), sent))
    case _ => None
  }

  /** How many packets of `stream` this session has tried to send. */
  function Attempts(t: Trace, stream: Stream): nat {
    match t
    case Boot => 0
    case After(before, e) =>
      if e.Opened? || e.Closed? then 0
      else if FlowOf(e).Some? && FlowOf(e).value.stream == stream then Attempts(before, stream) + 1
      else Attempts(before, stream)
  }

  // ----- Sensor readings -----

  /** The true time of the latest due reading since the latest accepted Subscribe. */
  function Stamp(env: Env, t: Trace, kind: SensorKind): Option<nat> {
    match t
    case Boot => None
    case After(before, e) =>
      if e.Opened? || e.Closed? then None
      else if e.Handled? && Accepts(env, e.packet, Sensor(kind)) then None
      else if e.Sensed? && e.kind == kind then Some(e.time)
      else Stamp(env, before, kind)
  }

  /** The valid values reported since the latest accepted Subscribe. */
  function Reported(env: Env, t: Trace, kind: SensorKind): seq<real> {
    match t
    case Boot => []
    case After(before, e) =>
      if e.Opened? || e.Closed? then []
      else if e.Handled? && Accepts(env, e.packet, Sensor(kind)) then []
      else if e.Sensed? && e.kind == kind && e.valid && e.report.Some? && !Failed(e.report.value) then
        Reported(env, before, kind) + [e.value]
      else Reported(env, before, kind)
  }

  /** The value a new reading is compared with. */
  function Reference(env: Env, t: Trace, kind: SensorKind): Option<real> {
    var values := Reported(env, t, kind);
    if values == [] then None else Some(values[|values| - 1])
  }

  // ----- The rules -----

  /** The latest event is a failed send that must end the session at once. */
  predicate MustClose(t: Trace) {
    t.After? && FlowOf(t.last).Some? && FlowOf(t.last).value.stream != MicComp && Failed(FlowOf(t.last).value.sent)
  }

  predicate SentOk(sent: Sent) {
    Legal(sent.packet) && KnownType(sent.packet.typ) && sent.accepted <= FrameSize(sent.packet)
  }

  predicate GoodIrTransmit(p: Packet) {
    |p.payload| >= 8 && 1 <= U16At(p.payload, 0) <= 512 && |p.payload| == 8 + 2 * U16At(p.payload, 0)
  }

  predicate PcmFormatOk(p: Packet) {
    |p.payload| >= 8 ==> U32At(p.payload, 0) == 16000 && p.payload[4] == 1 && p.payload[5] == 16
  }

  predicate CompFormatOk(p: Packet) {
    |p.payload| >= 9 ==> p.payload[0] == 1 && U32At(p.payload, 1) == 16000 && p.payload[5] == 1
  }

  predicate GoodSpkPcm(p: Packet) {
    |p.payload| >= 8 && U32At(p.payload, 0) == 16000 && p.payload[4] == 1 && p.payload[5] == 16
    && 1 <= U16At(p.payload, 6) <= 960 && |p.payload| == 8 + 2 * U16At(p.payload, 6)
  }

  predicate GoodSpkComp(p: Packet) {
    |p.payload| >= 9 && p.payload[0] == 1 && U32At(p.payload, 1) == 16000 && p.payload[5] == 1
    && 1 <= U16At(p.payload, 7) && |p.payload| == 9 + U16At(p.payload, 7)
  }

  function SpkSamples(p: Packet): seq<int16>
    requires GoodSpkPcm(p)
  {
    I16sOf(p.payload[8..], U16At(p.payload, 6))
  }

  /** Why a request for `target` is refused although it is well formed: its driver is missing, or it cannot be
      subscribed to. */
  function Unavailable(target: uint16): Reason {
    if target == MIC_COMP then EncoderNotReady
    else if target == AMBIENT_LIGHT then LightNotReady
    else if target in {TEMPERATURE, HUMIDITY} then DhtNotReady
    else SubscribeTarget
  }

  /** What is wrong with a SpkPCM packet, or with having played it. */
  function PcmComplaint(env: Env, p: Packet, a: Action): Option<Reason> {
    if !env.speakerReady then Some(SpeakerNotReady)
    else if GoodSpkPcm(p) then if a.Play? && a.playback.complete then None else Some(PcmPlayback)
    else if |p.payload| < 8 then Some(PcmTooShort)
    else if !PcmFormatOk(p) then Some(PcmFormat)
    else if |p.payload| != 8 + 2 * U16At(p.payload, 6) then Some(PcmBadSize)
    else Some(PcmBadCount)
  }

  /** What is wrong with a SpkComp packet, or with having decoded and played it. */
  function CompComplaint(env: Env, p: Packet, a: Action): Option<Reason> {
    if !env.speakerReady then Some(SpeakerNotReady)
    else if !env.decoderReady then Some(DecoderNotReady)
    else if GoodSpkComp(p) then
      if !a.Decode? || a.decoded.None? then Some(CompDecode)
      else if a.decoded.value.complete then None else Some(CompPlayback)
    else if |p.payload| < 9 then Some(CompTooShort)
    else if !CompFormatOk(p) then Some(CompFormat)
    else Some(CompBadSize)
  }

  /** Why a packet is answered with an Error, if it is. */
  ghost function Complaint(env: Env, p: Packet, a: Action): Option<Reason> {
    if p.typ == HEARTBEAT then None
    else if p.typ == SUBSCRIBE then
      if |p.payload| != 8 then Some(BadSubscribeSize)
      else if exists stream :: Accepts(env, p, stream) then None
      else Some(Unavailable(U16At(p.payload, 0)))
    else if p.typ == UNSUBSCRIBE then
      if |p.payload| != 2 then Some(BadUnsubscribeSize)
      else if exists stream :: Cancels(p, stream) then None
      else Some(UnsubscribeTarget)
    else if p.typ == IR_TRANSMIT then
      if GoodIrTransmit(p) then None
      else if |p.payload| < 8 then Some(IrTooShort)
      else if |p.payload| != 8 + 2 * U16At(p.payload, 0) then Some(IrBadSize)
      else Some(IrBadLength)
    else if p.typ == SPK_PCM then PcmComplaint(env, p, a)
    else if p.typ == SPK_COMP then CompComplaint(env, p, a)
    else Some(UnknownType)
  }

  /** The reply to a packet, as a function of the packet, of what is ready, and of how carrying it out went. */
  ghost function ReplyTo(env: Env, p: Packet, a: Action): Option<Packet> {
    match Complaint(env, p, a)
    case Some(reason) => Some(ErrorReply(p.id, reason))
    case None =>
      if p.typ == HEARTBEAT then Some(HeartbeatReply(p.id))
      else if p.typ in {SUBSCRIBE, UNSUBSCRIBE} then Some(AckReply(p.id))
      else None
  }

  /** What a dispatched packet may cause. */
  ghost predicate CausedWell(env: Env, p: Packet, a: Action) {
    if p.typ == SUBSCRIBE then a == if Accepts(env, p, IrReceive) then DiscardCapture else Nothing
    else if p.typ == IR_TRANSMIT && GoodIrTransmit(p) then
      a == Emit(if env.irReady
                then Bursts(U16sOf(p.payload[8..], U16At(p.payload, 0)), U32At(p.payload, 2), U16At(p.payload, 6))
                else [])
    else if p.typ == SPK_PCM && env.speakerReady && GoodSpkPcm(p) then
      a.Play? && a.playback.slots == Duplicate(SpkSamples(p))
    else if p.typ == SPK_COMP && env.speakerReady && env.decoderReady && GoodSpkComp(p) then
      a.Decode? && a.reset == (p.flags / 4 % 2 == 1) && a.encoded == p.payload[9..]
      && (a.decoded.Some? ==>
            exists n :: env.decodes(n).Some? && a.decoded.value.slots == Duplicate(env.decodes(n).value))
    else a == Nothing
  }

  /** A dispatched packet causes what it may, and gets its reply. */
  ghost predicate AnsweredWell(env: Env, p: Packet, a: Action, reply: Option<Packet>) {
    CausedWell(env, p, a) && reply == ReplyTo(env, p, a)
  }

  /** A data packet carries its stream's type and the number of earlier attempts in this session. */
  predicate Numbered(t: Trace, flow: Flow) {
    SentOk(flow.sent)
    && flow.sent.packet.typ == Code(flow.stream)
    && flow.sent.packet.flags == 0
    && flow.sent.packet.id == Wrap32(Attempts(t, flow.stream))
    && (!Connected(t) ==> flow.sent.accepted == 0)
  }

  /** A reading is due: none was taken yet, or the interval has passed in true time; the stamp 0 counts as none. */
  predicate Timely(env: Env, t: Trace, kind: SensorKind, time: nat) {
    match Stamp(env, t, kind)
    case None => true
    case Some(earlier) =>
      earlier <= time && (Wrap32(earlier) == 0 || time - earlier >= Requested(env, t, kind).intervalMs)
  }

  /** A reading is held back exactly when it is valid, only changes are wanted, and it lies less than the least change
      above or below the reference. */
  predicate HeldBack(env: Env, t: Trace, kind: SensorKind, valid: bool, value: real) {
    valid && Requested(env, t, kind).onChangeOnly && Reference(env, t, kind).Some?
    && -LeastChange(kind) < value - Reference(env, t, kind).value < LeastChange(kind)
  }

  /** What may happen next after `t`. */
  ghost predicate EventOk(env: Env, t: Trace, e: Event) {
    (MustClose(t) ==> e.Closed?)
    && (FlowOf(e).Some? ==> Numbered(t, FlowOf(e).value))
    && match e
       case Opened => true
       case Closed(why) =>
         (why.BadHeader? ==> Parse(Inbound(t)).bad && Parse(Inbound(t)).packets == Dispatched(t))
         && (why.SendFailed? <==> MustClose(t))
         && (!why.SendFailed? ==> Connected(t))
       case Received(_) => Connected(t)
       case Handled(p, a, reply) =>
         Connected(t)
         && Dispatched(t) + [p] <= Parse(Inbound(t)).packets
         && AnsweredWell(env, p, a, if reply.None? then None else Some(reply.value.packet))
         && (reply.Some? ==> SentOk(reply.value))
       case Data(stream, sent) => Connected(t) && Subscribed(env, t, stream)
       case Sensed(kind, time, valid, value, report) =>
         (Connected(t) ==> Subscribed(env, t, Sensor(kind)) && Timely(env, t, kind, time))
         && (report.None? <==> HeldBack(env, t, kind, valid, value))
         && (report.Some? ==> report.value.packet.payload == SensorPayload(kind, valid, env.bits(value)))
         && (!valid ==> value == 0.0)
  }

  ghost predicate Orderly(env: Env, t: Trace) {
    t.After? ==> Orderly(env, t.before) && EventOk(env, t.before, t.last)
  }

  // ----- Earlier moments of a trace -----

  /** `u` is what the trace `t` was at some moment. */
  predicate Within(u: Trace, t: Trace) {
    u == t || (t.After? && Within(u, t.before))
  }

  lemma {:induction false} OrderlyWithin(env: Env, u: Trace, t: Trace)
    requires Orderly(env, t) && Within(u, t)
    ensures Orderly(env, u)
    decreases t
  {
    if u != t {
      OrderlyWithin(env, u, t.before);
    }
  }
}
