/** What one session of the firmware means: its state, what it reacts to, and the trace it leaves behind. Every
    operation of esp32/app.cpp has its meaning here as a function; the class in Firmware.dfy computes them in
    place. */
module Session {
  import opened Bytes
  import opened Protocol
  import opened Parsing
  import opened Transmit
  import opened Drivers

  const RX_BUFFER_SIZE := 8192

  // ----- State -----

  /** One sensor's part of the subscription record and of the globals beside it. */
  datatype SensorState = SensorState(
    enabled: bool, intervalMs: uint16, onChangeOnly: bool,
    lastMs: uint32, haveLast: bool, lastValue: real, seqNo: uint32)

  /** The globals of a session; `rx` is the part of the receive buffer in use. */
  datatype State = State(
    micPcm: bool, micComp: bool, irReceive: bool,
    ambient: SensorState, temperature: SensorState, humidity: SensorState,
    micPcmSeq: uint32, micCompSeq: uint32, irReceiveSeq: uint32,
    rx: seq<byte>)

  function Of(s: State, kind: SensorKind): SensorState {
    match kind
    case Ambient => s.ambient
    case Temperature => s.temperature
    case Humidity => s.humidity
  }

  function With(s: State, kind: SensorKind, c: SensorState): State {
    match kind
    case Ambient => s.(ambient := c)
    case Temperature => s.(temperature := c)
    case Humidity => s.(humidity := c)
  }

  function DefaultInterval(kind: SensorKind): uint16 {
    if kind.Ambient? then 1000 else 2000
  }

  function MinInterval(kind: SensorKind): uint16 {
    if kind.Ambient? then 200 else 2000
  }

  function Threshold(kind: SensorKind): real {
    if kind.Temperature? then 0.2 else 1.0
  }

  function NormalizedInterval(kind: SensorKind, intervalMs: uint16): uint16 {
    var value := if intervalMs == 0 then DefaultInterval(kind) else intervalMs;
    Max(value, MinInterval(kind))
  }

  predicate ChangedEnough(previous: real, now: real, threshold: real) {
    (if now < previous then previous - now else now - previous) >= threshold
  }

  /** A reset keeps only the last value, which is meaningless until `haveLast` is set again. */
  function ResetSensor(kind: SensorKind, c: SensorState): SensorState {
    SensorState(false, DefaultInterval(kind), false, 0, false, c.lastValue, 0)
  }

  function Reset(s: State): State {
    State(false, false, false,
          ResetSensor(Ambient, s.ambient), ResetSensor(Temperature, s.temperature), ResetSensor(Humidity, s.humidity),
          0, 0, 0, [])
  }

  function Enabled(s: State, stream: Stream): bool {
    match stream
    case MicPcm => s.micPcm
    case MicComp => s.micComp
    case IrReceive => s.irReceive
    case Sensor(kind) => Of(s, kind).enabled
  }

  function SeqOf(s: State, stream: Stream): uint32 {
    match stream
    case MicPcm => s.micPcmSeq
    case MicComp => s.micCompSeq
    case IrReceive => s.irReceiveSeq
    case Sensor(kind) => Of(s, kind).seqNo
  }

  function NextSeq(s: State, stream: Stream): State {
    var next := Wrap32(SeqOf(s, stream) + 1);
    match stream
    case MicPcm => s.(micPcmSeq := next)
    case MicComp => s.(micCompSeq := next)
    case IrReceive => s.(irReceiveSeq := next)
    case Sensor(kind) => With(s, kind, Of(s, kind).(seqNo := next))
  }

  // ----- The outside world -----

  /** Everything the firmware does not decide: which drivers came up, and the answers of the socket, the speaker and the
      Opus decoder to its successive calls. `bits` is the IEEE pattern of a value. */
  datatype Env = Env(
    encoderReady: bool, decoderReady: bool, lightReady: bool, dhtReady: bool, speakerReady: bool, micReady: bool,
    irReady: bool, rawTick: uint16, bits: real -> uint32,
    link: nat -> Link, plays: nat -> bool, decodes: nat -> Option<DecodedPcm>)

  function SensorReady(env: Env, kind: SensorKind): bool {
    if kind.Ambient? then env.lightReady else env.dhtReady
  }

  type StereoFrame = s: seq<int32> | |s| == 2 * MIC_FRAME_SAMPLES witness seq(2 * MIC_FRAME_SAMPLES, i => 0)
  type Decoded = c: RawCapture | ValidCapture(c) witness RawCapture(0, [], false)

  /** What one pass of the main loop meets: the time since the last pass, the answers to its five connection checks, a
      waiting client, the bytes that arrive and the sizes in which they are read (0: the read fails), and the drivers'
      results. Where `takes` ends, a read takes all it is offered. */
  datatype LoopInput = LoopInput(
    elapsed: nat,
    upLoop: bool, upRx: bool, upIr: bool, upSensors: bool, upMic: bool,
    incoming: bool,
    arrived: seq<byte>, takes: seq<nat>,
    decoded: Option<Decoded>,
    lux: Option<real>, celsius: Option<real>, percent: Option<real>,
    mic: Option<StereoFrame>, encoded: Option<OpusFrame>)

  function Reading(input: LoopInput, kind: SensorKind): Option<real> {
    match kind
    case Ambient => input.lux
    case Temperature => input.celsius
    case Humidity => input.percent
  }

  // ----- The trace -----

  /** One `wspWritePacket` call and the number of bytes it got accepted. */
  datatype Sent = Sent(packet: Packet, accepted: nat)

  predicate Failed(sent: Sent) {
    sent.accepted < FrameSize(sent.packet)
  }

  datatype Why = BadHeader | Overflow | SendFailed

  /** Slots handed to the speaker, and whether all of them were taken. */
  datatype Playback = Playback(slots: seq<int16>, complete: bool)

  datatype Action = Nothing | DiscardCapture | Emit(bursts: seq<Burst>) | Play(playback: Playback)
                  | Decode(reset: bool, encoded: seq<byte>, decoded: Option<Playback>)

  datatype Event =
    | Opened
    | Closed(why: Why)
    | Received(bytes: seq<byte>)
    | Handled(packet: Packet, action: Action, reply: Option<Sent>)
    | Data(stream: Stream, sent: Sent)
    | Sensed(kind: SensorKind, time: nat, valid: bool, value: real, report: Option<Sent>)

  datatype Trace = Boot | After(before: Trace, last: Event)

  /** How often the socket, the speaker and the decoder have been called. */
  datatype Cursors = Cursors(writes: nat, plays: nat, decodes: nat)

  /** `inbox` holds the bytes that have arrived but are not read; `clock` is the true time in milliseconds. */
  datatype World = World(open: bool, s: State, inbox: seq<byte>, clock: nat, cursors: Cursors, trace: Trace)

  // ----- Connection -----

  function Open(w: World): World {
    World(true, Reset(w.s), [], w.clock, w.cursors, After(w.trace, Opened))
  }

  function Close(w: World, why: Why): World {
    World(false, Reset(w.s), [], w.clock, w.cursors, After(w.trace, Closed(why)))
  }

  // ----- Reactions to packets -----

  datatype Reaction = Reaction(s: State, action: Action, reply: Option<Packet>, cursors: Cursors)

  function Refuse(s: State, c: Cursors, id: uint32, reason: Reason): Reaction {
    Reaction(s, Nothing, Some(ErrorReply(id, reason)), c)
  }

  function Acknowledge(s: State, c: Cursors, id: uint32, action: Action): Reaction {
    Reaction(s, action, Some(AckReply(id)), c)
  }

  function SubscribeSensor(s: State, kind: SensorKind, intervalMs: uint16, onChangeOnly: bool): State {
    With(s, kind, Of(s, kind).(enabled := true, intervalMs := NormalizedInterval(kind, intervalMs),
                               onChangeOnly := onChangeOnly, lastMs := 0, haveLast := false))
  }

  function KindOf(target: uint16): Option<SensorKind> {
    if target == AMBIENT_LIGHT then Some(Ambient)
    else if target == TEMPERATURE then Some(Temperature)
    else if target == HUMIDITY then Some(Humidity)
    else None
  }

  function ReactSubscribe(env: Env, s: State, c: Cursors, id: uint32, payload: seq<byte>): Reaction {
    if |payload| != 8 then Refuse(s, c, id, BadSubscribeSize)
    else
      var target, intervalMs, onChangeOnly := U16At(payload, 0), U16At(payload, 2), U32At(payload, 4) % 2 == 1;
      if target == MIC_PCM then Acknowledge(s.(micPcm := true), c, id, Nothing)
      else if target == MIC_COMP then
        if !env.encoderReady then Refuse(s, c, id, EncoderNotReady)
        else Acknowledge(s.(micComp := true), c, id, Nothing)
      else if target == IR_RECEIVE then Acknowledge(s.(irReceive := true), c, id, DiscardCapture)
      else
        match KindOf(target)
        case None => Refuse(s, c, id, SubscribeTarget)
        case Some(kind) =>
          if !SensorReady(env, kind) then Refuse(s, c, id, if kind.Ambient? then LightNotReady else DhtNotReady)
          else Acknowledge(SubscribeSensor(s, kind, intervalMs, onChangeOnly), c, id, Nothing)
  }

  function ReactUnsubscribe(s: State, c: Cursors, id: uint32, payload: seq<byte>): Reaction {
    if |payload| != 2 then Refuse(s, c, id, BadUnsubscribeSize)
    else
      var target := U16At(payload, 0);
      if target == MIC_PCM then Acknowledge(s.(micPcm := false), c, id, Nothing)
      else if target == MIC_COMP then Acknowledge(s.(micComp := false), c, id, Nothing)
      else if target == IR_RECEIVE then Acknowledge(s.(irReceive := false), c, id, Nothing)
      else
        match KindOf(target)
        case None => Refuse(s, c, id, UnsubscribeTarget)
        case Some(kind) => Acknowledge(With(s, kind, Of(s, kind).(enabled := false)), c, id, Nothing)
  }

  function ReactIrTransmit(env: Env, s: State, c: Cursors, id: uint32, payload: seq<byte>): Reaction {
    if |payload| < 8 then Refuse(s, c, id, IrTooShort)
    else
      var length, carrierHz, repeats := U16At(payload, 0), U32At(payload, 2), U16At(payload, 6);
      if |payload| != 8 + 2 * length then Refuse(s, c, id, IrBadSize)
      else if length == 0 || length > IR_MAX_RAW_LENGTH then Refuse(s, c, id, IrBadLength)
      else
        var raw := U16sOf(payload[8..], length);
        Reaction(s, Emit(if env.irReady then Bursts(raw, carrierHz, repeats) else []), None, c)
  }

  function ReactSpkPcm(env: Env, s: State, c: Cursors, id: uint32, payload: seq<byte>): Reaction {
    if !env.speakerReady then Refuse(s, c, id, SpeakerNotReady)
    else if |payload| < 8 then Refuse(s, c, id, PcmTooShort)
    else
      var rate, channels, bits, count := U32At(payload, 0), payload[4], payload[5], U16At(payload, 6);
      if rate != SAMPLE_RATE || channels != 1 || bits != 16 then Refuse(s, c, id, PcmFormat)
      else if |payload| != 8 + 2 * count then Refuse(s, c, id, PcmBadSize)
      else if count == 0 || count > OPUS_MAX_DECODED_SAMPLES then Refuse(s, c, id, PcmBadCount)
      else
        var playback := Playback(Duplicate(I16sOf(payload[8..], count)), env.plays(c.plays));
        Reaction(s, Play(playback), if playback.complete then None else Some(ErrorReply(id, PcmPlayback)),
                 c.(plays := c.plays + 1))
  }

  function ReactSpkComp(env: Env, s: State, c: Cursors, id: uint32, flags: byte, payload: seq<byte>): Reaction {
    if !env.speakerReady then Refuse(s, c, id, SpeakerNotReady)
    else if !env.decoderReady then Refuse(s, c, id, DecoderNotReady)
    else if |payload| < 9 then Refuse(s, c, id, CompTooShort)
    else
      var codec, rate, channels, size := payload[0], U32At(payload, 1), payload[5], U16At(payload, 7);
      if codec != OPUS || rate != SAMPLE_RATE || channels != 1 then Refuse(s, c, id, CompFormat)
      else if |payload| != 9 + size || size == 0 then Refuse(s, c, id, CompBadSize)
      else
        var reset, encoded := flags / FLAG_KEY_FRAME % 2 == 1, payload[9..];
        var later := c.(decodes := c.decodes + 1);
        match env.decodes(c.decodes)
        case None => Reaction(s, Decode(reset, encoded, None), Some(ErrorReply(id, CompDecode)), later)
        case Some(pcm) =>
          var playback := Playback(Duplicate(pcm), env.plays(c.plays));
          Reaction(s, Decode(reset, encoded, Some(playback)),
                   if playback.complete then None else Some(ErrorReply(id, CompPlayback)), later.(plays := c.plays + 1))
  }

  function React(env: Env, s: State, c: Cursors, p: Packet): Reaction {
    if p.typ == HEARTBEAT then Reaction(s, Nothing, Some(HeartbeatReply(p.id)), c)
    else if p.typ == SUBSCRIBE then ReactSubscribe(env, s, c, p.id, p.payload)
    else if p.typ == UNSUBSCRIBE then ReactUnsubscribe(s, c, p.id, p.payload)
    else if p.typ == IR_TRANSMIT then ReactIrTransmit(env, s, c, p.id, p.payload)
    else if p.typ == SPK_PCM then ReactSpkPcm(env, s, c, p.id, p.payload)
    else if p.typ == SPK_COMP then ReactSpkComp(env, s, c, p.id, p.flags, p.payload)
    else Refuse(s, c, p.id, UnknownType)
  }

  // ----- Sending -----

  function Send(env: Env, w: World, p: Packet): Sent {
    Sent(p, Accepted(env.link(w.cursors.writes), w.open, FrameSize(p)))
  }

  function Handle(env: Env, w: World, p: Packet): World {
    var r := React(env, w.s, w.cursors, p);
    match r.reply
    case None => w.(s := r.s, cursors := r.cursors, trace := After(w.trace, Handled(p, r.action, None)))
    case Some(q) =>
      w.(s := r.s, cursors := r.cursors.(writes := w.cursors.writes + 1),
         trace := After(w.trace, Handled(p, r.action, Some(Send(env, w, q)))))
  }

  function NextPacket(w: World, stream: Stream, payload: seq<byte>): Packet {
    Packet(0, Code(stream), SeqOf(w.s, stream), payload)
  }

  /** Every attempt to send a data packet uses up a number. */
  function Attempt(env: Env, w: World, stream: Stream, payload: seq<byte>): World {
    w.(s := NextSeq(w.s, stream), cursors := w.cursors.(writes := w.cursors.writes + 1),
       trace := After(w.trace, Data(stream, Send(env, w, NextPacket(w, stream, payload)))))
  }

  /** A failed MicComp frame is dropped; any other failed data packet ends the session. */
  function SendData(env: Env, w: World, stream: Stream, payload: seq<byte>): World {
    var w1 := Attempt(env, w, stream, payload);
    if Failed(Send(env, w, NextPacket(w, stream, payload))) && stream != MicComp then Close(w1, SendFailed) else w1
  }

  // ----- Receiving -----

  /** Take the front packet out of the buffer after reacting to it. */
  function Consume(env: Env, w: World): World
    requires FrontOf(w.s.rx).Whole?
  {
    var p := FrontOf(w.s.rx).packet;
    var w1 := Handle(env, w, p);
    w1.(s := w1.s.(rx := w.s.rx[FrameSize(p)..]))
  }

  function ProcessRx(env: Env, w: World): World
    decreases |w.s.rx|
  {
    match FrontOf(w.s.rx)
    case Incomplete => w
    case Corrupt => Close(w, BadHeader)
    case Whole(_) => ProcessRx(env, Consume(env, w))
  }

  datatype Drained = Drained(count: nat, overflow: bool)

  /** How many of `available` bytes are read into `room` free bytes, and whether the buffer is found full with bytes
      still waiting. */
  function Drain(room: nat, available: nat, takes: seq<nat>): (d: Drained)
    ensures d.count <= room && d.count <= available
    decreases available
  {
    if available == 0 then Drained(0, false)
    else if room == 0 then Drained(0, true)
    else
      var n := if takes == [] then Min(available, room) else Min(takes[0], Min(available, room));
      if n == 0 then Drained(0, false)
      else
        var d := Drain(room - n, available - n, if takes == [] then [] else takes[1..]);
        Drained(n + d.count, d.overflow)
  }

  function Receive(w: World, n: nat): World
    requires n <= |w.inbox|
  {
    w.(s := w.s.(rx := w.s.rx + w.inbox[..n]), inbox := w.inbox[n..], trace := After(w.trace, Received(w.inbox[..n])))
  }

  function PollRx(env: Env, w: World, input: LoopInput): World {
    if !w.open || !input.upRx then w
    else
      var d := Drain(Max(0, RX_BUFFER_SIZE - |w.s.rx|), |w.inbox|, input.takes);
      var w1 := Receive(w, d.count);
      if d.overflow then Close(w1, Overflow) else ProcessRx(env, w1)
  }

  // ----- Producing data -----

  function PollIr(env: Env, w: World, input: LoopInput): World {
    if !w.open || !input.upIr || !w.s.irReceive || !env.irReady || input.decoded.None? then w
    else
      match Captured(env.rawTick, input.decoded.value)
      case None => w
      case Some(c) => SendData(env, w, IrReceive, IrReceivePayload(c.raw, c.overflow))
  }

  function PollMic(env: Env, w: World, input: LoopInput): World {
    if !w.open || !input.upMic || (!w.s.micPcm && !w.s.micComp) || !env.micReady || input.mic.None? then w
    else
      var w1 := if w.s.micPcm then SendData(env, w, MicPcm, PcmPayload(LouderSlot(input.mic.value))) else w;
      if !w1.open || !w1.s.micComp || input.encoded.None? then w1
      else SendData(env, w1, MicComp, CompPayload(input.encoded.value))
  }

  predicate Due(c: SensorState, clock: nat) {
    c.enabled && (c.lastMs == 0 || Wrap32(Wrap32(clock) - c.lastMs) >= c.intervalMs)
  }

  /** A valid reading is held back if only changes are wanted and it is too close to the last value reported. */
  predicate TooClose(c: SensorState, kind: SensorKind, reading: Option<real>) {
    reading.Some? && c.onChangeOnly && c.haveLast && !ChangedEnough(c.lastValue, reading.value, Threshold(kind))
  }

  /** One due reading and what is made of it; a failed reading is reported as 0 with quality 0. */
  function SensedEvent(env: Env, w: World, kind: SensorKind, reading: Option<real>): (e: Event)
    ensures e.Sensed?
  {
    var c := Of(w.s, kind);
    var valid, value := reading.Some?, if reading.Some? then reading.value else 0.0;
    var p := Packet(0, SensorCode(kind), c.seqNo, SensorPayload(kind, valid, env.bits(value)));
    Sensed(kind, w.clock, valid, value, if TooClose(c, kind, reading) then None else Some(Send(env, w, p)))
  }

  predicate ReportFailed(e: Event)
    requires e.Sensed?
  {
    e.report.Some? && Failed(e.report.value)
  }

  /** The stamp always moves, the counter with every report, the last value only with a valid report that went out. */
  function SensedState(c: SensorState, e: Event): SensorState
    requires e.Sensed?
  {
    var stamped := c.(lastMs := Wrap32(e.time));
    if e.report.None? then stamped
    else
      var counted := stamped.(seqNo := Wrap32(c.seqNo + 1));
      if e.valid && !ReportFailed(e) then counted.(haveLast := true, lastValue := e.value) else counted
  }

  function Sense(env: Env, w: World, kind: SensorKind, reading: Option<real>): World {
    var e := SensedEvent(env, w, kind, reading);
    var w1 := w.(s := With(w.s, kind, SensedState(Of(w.s, kind), e)),
                 cursors := if e.report.None? then w.cursors else w.cursors.(writes := w.cursors.writes + 1),
                 trace := After(w.trace, e));
    if ReportFailed(e) then Close(w1, SendFailed) else w1
  }

  function SenseIf(env: Env, w: World, kind: SensorKind, needed: bool, input: LoopInput): World {
    if needed then Sense(env, w, kind, Reading(input, kind)) else w
  }

  /** Which sensors are due is decided before any of them is read or reported. */
  function PollSensors(env: Env, w: World, input: LoopInput): World {
    if !w.open || !input.upSensors then w
    else
      var needAmbient, needTemp, needHum :=
          Due(w.s.ambient, w.clock), Due(w.s.temperature, w.clock), Due(w.s.humidity, w.clock);
      var w1 := SenseIf(env, w, Ambient, needAmbient, input);
      var w2 := SenseIf(env, w1, Temperature, needTemp, input);
      SenseIf(env, w2, Humidity, needHum, input)
  }

  // ----- The main loop -----

  /** Time passes, and bytes arrive while there is a connection. */
  function Arrive(w: World, input: LoopInput): World {
    w.(clock := w.clock + input.elapsed, inbox := if w.open then w.inbox + input.arrived else w.inbox)
  }

  function AppLoop(env: Env, w0: World, input: LoopInput): World {
    var w := Arrive(w0, input);
    if !w.open || !input.upLoop then
      if input.incoming then Open(w) else w
    else
      PollMic(env, PollSensors(env, PollIr(env, PollRx(env, w, input), input), input), input)
  }

  /** A run of the main loop from power-up. */
  function Run(env: Env, inputs: seq<LoopInput>): World {
    if inputs == [] then Initial()
    else AppLoop(env, Run(env, inputs[..|inputs| - 1]), inputs[|inputs| - 1])
  }

  function Initial(): World {
    var off := (kind: SensorKind) => SensorState(false, DefaultInterval(kind), false, 0, false, 0.0, 0);
    World(false, State(false, false, false, off(Ambient), off(Temperature), off(Humidity), 0, 0, 0, []),
          [], 0, Cursors(0, 0, 0), Boot)
  }
}
