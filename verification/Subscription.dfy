/** Main results about subscriptions, replies and sensor reports, over every run of the main loop. */
module Subscription {
  import opened Bytes
  import opened Protocol
  import opened Parsing
  import opened Transmit
  import opened Drivers
  import opened Session
  import opened History
  import opened Invariant

  // ----- Subscription state is a fold over the dispatched requests -----

  /** At the end of every pass each flag says whether the latest accepted request for that type was a Subscribe, the
      sensors' options are those of the latest accepted Subscribe, intervals respect their minima, and what is enabled
      had its driver ready. */
  lemma SubscriptionState(env: Env, inputs: seq<LoopInput>, stream: Stream, kind: SensorKind)
    ensures var w := Run(env, inputs);
            && Enabled(w.s, stream) == Subscribed(env, w.trace, stream)
            && (Enabled(w.s, stream) ==> w.open && Available(env, stream))
            && Options(Of(w.s, kind).intervalMs, Of(w.s, kind).onChangeOnly) == Requested(env, w.trace, kind)
            && Of(w.s, kind).intervalMs >= LeastMs(kind)
  {
    RunControl(env, inputs, stream, kind);
    var w := Run(env, inputs);
    hide Reset, Of, Stamp, Reported, Enabled;
    if !w.open {
      ResetDisables(w.s, stream);
    }
  }

  lemma ResetDisables(s: State, stream: Stream)
    ensures !Enabled(Reset(s), stream)
  {
  }

  /** Whenever the session is over between two passes, everything `resetSessionState` writes has its reset value, even
      where `pollSensors` went on stamping and counting after the disconnect. */
  lemma ResetReestablished(env: Env, inputs: seq<LoopInput>)
    requires !Run(env, inputs).open
    ensures var s := Run(env, inputs).s;
            && !s.micPcm && !s.micComp && !s.irReceive
            && s.micPcmSeq == s.micCompSeq == s.irReceiveSeq == 0 && s.rx == []
            && forall kind :: Of(s, kind) ==
                 SensorState(false, StandardMs(kind), false, 0, false, Of(s, kind).lastValue, 0)
  {
    RunInv(env, inputs);
    var s := Run(env, inputs).s;
    assert s == Reset(s);
    forall kind ensures Of(s, kind) ==
           SensorState(false, StandardMs(kind), false, 0, false, Of(s, kind).lastValue, 0) {
      ResetOf(s, kind);
    }
  }

  lemma ResetOf(s: State, kind: SensorKind)
    ensures Of(Reset(s), kind) == ResetSensor(kind, Of(s, kind))
    ensures !Reset(s).micPcm && !Reset(s).micComp && !Reset(s).irReceive
    ensures Reset(s).micPcmSeq == Reset(s).micCompSeq == Reset(s).irReceiveSeq == 0 && Reset(s).rx == []
  {
  }

  // ----- Gating -----

  /** The event that granted the current subscription. */
  function Grant(env: Env, t: Trace, stream: Stream): Option<Event> {
    match t
    case Boot => None
    case After(before, e) =>
      if e.Opened? || e.Closed? then None
      else if e.Handled? && Accepts(env, e.packet, stream) then Some(e)
      else if e.Handled? && Cancels(e.packet, stream) then None
      else Grant(env, before, stream)
  }

  lemma {:induction false} GrantAcknowledged(env: Env, t: Trace, stream: Stream)
    requires Orderly(env, t) && Subscribed(env, t, stream)
    ensures var g := Grant(env, t, stream);
            && g.Some? && g.value.Handled? && Accepts(env, g.value.packet, stream)
            && g.value.reply.Some? && g.value.reply.value.packet == AckReply(g.value.packet.id)
  {
    hide Accepts, Cancels, Numbered, Timely, HeldBack;
    if t.last.Handled? && Accepts(env, t.last.packet, stream) {
      AcceptedIsAcked(env, t.last.packet, t.last.action, t.last.reply, stream);
    } else {
      GrantAcknowledged(env, t.before, stream);
    }
  }

  lemma AcceptedIsAcked(env: Env, p: Packet, a: Action, reply: Option<Sent>, stream: Stream)
    requires AnsweredWell(env, p, a, if reply.None? then None else Some(reply.value.packet)) && Accepts(env, p, stream)
    ensures reply.Some? && reply.value.packet == AckReply(p.id)
  {
  }

  /** Gating, at every moment of every run: not one byte of a data type reaches the socket unless the session is open,
      the latest accepted request for that type in it was a Subscribe, and that Subscribe has already been
      acknowledged. */
  lemma Gating(env: Env, inputs: seq<LoopInput>, u: Trace, e: Event)
    requires Within(After(u, e), Run(env, inputs).trace)
    requires FlowOf(e).Some? && FlowOf(e).value.sent.accepted > 0
    ensures var stream := FlowOf(e).value.stream;
            && Connected(u) && Subscribed(env, u, stream)
            && var g := Grant(env, u, stream);
               && g.Some? && g.value.Handled? && Accepts(env, g.value.packet, stream)
               && g.value.reply.Some? && g.value.reply.value.packet == AckReply(g.value.packet.id)
  {
    hide AnsweredWell, Timely, HeldBack, Parse, SensorPayload, Accepts, AckReply;
    RunOrderly(env, inputs, After(u, e));
    GrantAcknowledged(env, u, FlowOf(e).value.stream);
  }

  // ----- Replies -----

  /** What a reply says about the request it answers. */
  predicate Echoes(p: Packet, r: Packet) {
    && r.id == p.id && r.flags == 0
    && (r.typ == HEARTBEAT ==> r.payload == [])
    && (r.typ == ACK ==> r.payload == AckBody(p.id) && U32At(r.payload, 0) == p.id && r.payload[4] == 0)
    && (r.typ == ERROR ==> 8 <= |r.payload| <= 8 + ERROR_MESSAGE_LIMIT && U32At(r.payload, 0) == p.id
                           && I32At(r.payload, 4) in {ERROR_UNSUPPORTED, ERROR_BUSY, ERROR_INVALID_PAYLOAD})
  }

  lemma ErrorEchoes(p: Packet, reason: Reason)
    ensures Echoes(p, ErrorReply(p.id, reason)) && I32At(ErrorReply(p.id, reason).payload, 4) == ErrorCode(reason)
  {
    var r := ErrorReply(p.id, reason);
    var b := r.payload;
    assert b[0..4] == U32(p.id) && b[4..8] == I32(ErrorCode(reason));
    U32Slice(b, 0, p.id);
    U32Slice(b, 4, if ErrorCode(reason) < 0 then ErrorCode(reason) + 0x1_0000_0000 else ErrorCode(reason));
  }

  lemma AckEchoes(p: Packet)
    ensures Echoes(p, AckReply(p.id))
  {
    U32RoundTrip(p.id);
  }

  /** The reply discipline, for every packet dispatched in every run. The reply is a function of the packet, of what
      is ready, and of how carrying it out went: one Heartbeat for a Heartbeat; one Ack for a request accepted for
      some stream and one Error for any other; one Error for an unknown type; none for an IrTransmit that passes the
      checks; none for a SpkPCM or SpkComp that was played as a whole; otherwise one Error with the code of its
      reason. Every reply echoes the identifier, in its body too. */
  lemma ReplyDiscipline(env: Env, inputs: seq<LoopInput>, u: Trace, e: Event)
    requires Within(After(u, e), Run(env, inputs).trace) && e.Handled?
    ensures Disciplined(env, e.packet, e.action, if e.reply.None? then None else Some(e.reply.value.packet))
  {
    RunOrderly(env, inputs, After(u, e));
    assert EventOk(env, u, e);
    AnsweredDisciplined(env, e.packet, e.action, if e.reply.None? then None else Some(e.reply.value.packet));
  }

  /** The code of a complaint: -1 for what is not supported or not ready, -2 for a busy speaker, -3 for a bad
      payload. */
  function CodeOf(reason: Reason): int {
    match reason
    case EncoderNotReady | LightNotReady | DhtNotReady | SpeakerNotReady | DecoderNotReady => -1
    case SubscribeTarget | UnsubscribeTarget | PcmFormat | CompFormat | UnknownType => -1
    case PcmPlayback | CompPlayback => -2
    case BadSubscribeSize | BadUnsubscribeSize | IrTooShort | IrBadSize | IrBadLength => -3
    case PcmTooShort | PcmBadSize | PcmBadCount | CompTooShort | CompBadSize | CompDecode => -3
  }

  lemma CodeExactly(reason: Reason)
    ensures ErrorCode(reason) == CodeOf(reason)
  {
  }

  ghost predicate Disciplined(env: Env, p: Packet, a: Action, reply: Option<Packet>) {
    && reply == ReplyTo(env, p, a)
    && (reply.Some? ==> Echoes(p, reply.value))
    && (p.typ !in {IR_TRANSMIT, SPK_PCM, SPK_COMP} ==> reply.Some?)
    && (reply.Some? ==>
          reply.value.typ ==
          if p.typ == HEARTBEAT then HEARTBEAT
          else if exists stream :: Accepts(env, p, stream) || Cancels(p, stream) then ACK else ERROR)
    && (p.typ == IR_TRANSMIT ==> (reply.None? <==> GoodIrTransmit(p)))
    && (p.typ == SPK_PCM ==> (reply.None? <==> a.Play? && a.playback.complete))
    && (p.typ == SPK_COMP ==> (reply.None? <==> a.Decode? && a.decoded.Some? && a.decoded.value.complete))
    && (reply.Some? && reply.value.typ == ERROR ==>
          Complaint(env, p, a).Some? && |reply.value.payload| >= 8
          && I32At(reply.value.payload, 4) == CodeOf(Complaint(env, p, a).value))
  }

  lemma AnsweredDisciplined(env: Env, p: Packet, a: Action, reply: Option<Packet>)
    requires AnsweredWell(env, p, a, reply)
    ensures Disciplined(env, p, a, reply)
  {
    hide GoodIrTransmit, GoodSpkPcm, GoodSpkComp, Bursts, Duplicate, Text, ErrorCode, CodeOf, AckBody, ErrorBody,
         Message, Echoes;
    AckEchoes(p);
    HeartbeatEchoes(p);
    var complaint := Complaint(env, p, a);
    if complaint.Some? {
      CodeExactly(complaint.value);
      ErrorEchoes(p, complaint.value);
    }
  }

  lemma HeartbeatEchoes(p: Packet)
    ensures Echoes(p, HeartbeatReply(p.id))
  {
  }

  // ----- Report times -----

  /** Over every run, two consecutive due readings of one sensor within one subscription are at least the interval apart
      in true time, whatever the 32-bit clock has wrapped to, unless the earlier one was stamped at exactly 0. */
  lemma ReportsSpaced(env: Env, inputs: seq<LoopInput>, u: Trace, e: Event)
    requires Within(After(u, e), Run(env, inputs).trace) && e.Sensed? && Connected(u)
    requires Stamp(env, u, e.kind).Some?
    ensures var earlier := Stamp(env, u, e.kind).value;
            earlier <= e.time
            && (Wrap32(earlier) == 0 || e.time - earlier >= Requested(env, u, e.kind).intervalMs >= LeastMs(e.kind))
  {
    RunOrderly(env, inputs, After(u, e));
    assert EventOk(env, u, e);
    RequestedMinimum(env, u, e.kind);
    hide EventOk, Stamp, Requested, Run;
  }

  lemma {:induction false} RequestedMinimum(env: Env, t: Trace, kind: SensorKind)
    ensures Requested(env, t, kind).intervalMs >= LeastMs(kind)
  {
    hide Accepts, Wanted;
    if t.After? {
      RequestedMinimum(env, t.before, kind);
    }
  }

  /** Conversely, between passes a sensor is due exactly when it is subscribed and was never read, was stamped at 0,
      or the wrapped time since its last reading has reached the interval; so from the interval on, and for the 49
      days until the clock wraps, every poll finds it due. */
  lemma DueExactly(env: Env, inputs: seq<LoopInput>, kind: SensorKind, clock: nat)
    requires Run(env, inputs).clock <= clock
    ensures var w := Run(env, inputs);
            var stamp, interval := Stamp(env, w.trace, kind), Requested(env, w.trace, kind).intervalMs;
            && (Due(Of(w.s, kind), clock) <==>
                  Subscribed(env, w.trace, Sensor(kind))
                  && (stamp.None? || Wrap32(stamp.value) == 0 || Wrap32(clock - stamp.value) >= interval))
    ensures var w := Run(env, inputs);
            var stamp, interval := Stamp(env, w.trace, kind), Requested(env, w.trace, kind).intervalMs;
            Subscribed(env, w.trace, Sensor(kind)) && stamp.Some? && interval <= clock - stamp.value < 0x1_0000_0000 ==>
              Due(Of(w.s, kind), clock)
  {
    hide Run, StreamInv, SensorInv, Due, Stamp, Requested, Subscribed, ResetWhenClosed;
    RunControl(env, inputs, Sensor(kind), kind);
    var w := Run(env, inputs);
    DueAt(env, w, kind, clock);
  }

  lemma DueAt(env: Env, w: World, kind: SensorKind, clock: nat)
    requires SensorInv(env, w, kind) && StreamInv(env, w, Sensor(kind)) && w.clock <= clock
    ensures var stamp, interval := Stamp(env, w.trace, kind), Requested(env, w.trace, kind).intervalMs;
            && (Due(Of(w.s, kind), clock) <==>
                  Subscribed(env, w.trace, Sensor(kind))
                  && (stamp.None? || Wrap32(stamp.value) == 0 || Wrap32(clock - stamp.value) >= interval))
            && (stamp.Some? && clock - stamp.value < 0x1_0000_0000 ==>
                 Wrap32(clock - stamp.value) == clock - stamp.value)
  {
    hide Stamp, Requested, Subscribed, Reported, Attempts;
    var stamp := Stamp(env, w.trace, kind);
    if stamp.Some? {
      WrappedDifference(stamp.value, clock);
    }
  }

  /** How many readings of a sensor have been taken. */
  function Readings(t: Trace, kind: SensorKind): nat {
    match t
    case Boot => 0
    case After(before, e) => Readings(before, kind) + if e.Sensed? && e.kind == kind then 1 else 0
  }

  lemma SenseReads(env: Env, w: World, of: SensorKind, needed: bool, input: LoopInput, kind: SensorKind)
    ensures Readings(SenseIf(env, w, of, needed, input).trace, kind) ==
            Readings(w.trace, kind) + if needed && of == kind then 1 else 0
  {
    hide Accepted, TooClose, SensorPayload, SensedState, Reset, With;
  }

  lemma {:induction false} ProcessRxReadsNone(env: Env, w: World, kind: SensorKind)
    ensures Readings(ProcessRx(env, w).trace, kind) == Readings(w.trace, kind)
    decreases |w.s.rx|
  {
    hide FrontOf, React, Reset;
    if FrontOf(w.s.rx).Whole? {
      ProcessRxReadsNone(env, Consume(env, w), kind);
    }
  }

  /** The state in which a pass of the main loop decides about sensors. */
  function BeforeSensors(env: Env, w: World, input: LoopInput): World {
    PollIr(env, PollRx(env, Arrive(w, input), input), input)
  }

  lemma SendDataReadsNone(env: Env, w: World, stream: Stream, payload: seq<byte>, kind: SensorKind)
    ensures Readings(SendData(env, w, stream, payload).trace, kind) == Readings(w.trace, kind)
  {
    hide Accepted, NextSeq, Reset, Code;
  }

  lemma OthersReadNone(env: Env, w: World, input: LoopInput, kind: SensorKind)
    ensures Readings(PollRx(env, w, input).trace, kind) == Readings(w.trace, kind)
    ensures Readings(PollIr(env, w, input).trace, kind) == Readings(w.trace, kind)
    ensures Readings(PollMic(env, w, input).trace, kind) == Readings(w.trace, kind)
  {
    hide ProcessRx, Reset, SendData, Captured, LouderSlot, PcmPayload, CompPayload, IrReceivePayload;
    if w.open && input.upRx {
      var d := Drain(Max(0, RX_BUFFER_SIZE - |w.s.rx|), |w.inbox|, input.takes);
      ProcessRxReadsNone(env, Receive(w, d.count), kind);
    }
    if input.decoded.Some? && Captured(env.rawTick, input.decoded.value).Some? {
      var c := Captured(env.rawTick, input.decoded.value).value;
      SendDataReadsNone(env, w, IrReceive, IrReceivePayload(c.raw, c.overflow), kind);
    }
    if input.mic.Some? {
      var payload := PcmPayload(LouderSlot(input.mic.value));
      SendDataReadsNone(env, w, MicPcm, payload, kind);
      if input.encoded.Some? {
        SendDataReadsNone(env, w, MicComp, CompPayload(input.encoded.value), kind);
        SendDataReadsNone(env, SendData(env, w, MicPcm, payload), MicComp, CompPayload(input.encoded.value), kind);
      }
    }
  }

  /** Every pass with a connected client takes exactly one reading of each sensor that is due when the sensors' turn
      comes, and none of any other, even where the report of an earlier sensor fails and ends the session. */
  lemma DueReadingsTaken(env: Env, w: World, input: LoopInput, kind: SensorKind)
    ensures var at := BeforeSensors(env, w, input);
            Readings(AppLoop(env, w, input).trace, kind) ==
            Readings(w.trace, kind)
            + if w.open && input.upLoop && at.open && input.upSensors && Due(Of(at.s, kind), at.clock) then 1 else 0
  {
    hide PollRx, PollIr, PollMic, SenseIf, Due, Reset;
    var w0 := Arrive(w, input);
    var w1 := PollRx(env, w0, input);
    var at := PollIr(env, w1, input);
    OthersReadNone(env, w0, input, kind);
    OthersReadNone(env, w1, input, kind);
    OthersReadNone(env, PollSensors(env, at, input), input, kind);
    if at.open && input.upSensors {
      var needAmbient, needTemp, needHum :=
          Due(at.s.ambient, at.clock), Due(at.s.temperature, at.clock), Due(at.s.humidity, at.clock);
      SenseReads(env, at, Ambient, needAmbient, input, kind);
      var s1 := SenseIf(env, at, Ambient, needAmbient, input);
      SenseReads(env, s1, Temperature, needTemp, input, kind);
      SenseReads(env, SenseIf(env, s1, Temperature, needTemp, input), Humidity, needHum, input, kind);
    }
  }

  // ----- On-change reports -----

  /** Each value lies at least `t` above or below the one before it. */
  predicate Spread(values: seq<real>, t: real) {
    forall i :: 0 < i < |values| ==> values[i] - values[i - 1] >= t || values[i - 1] - values[i] >= t
  }

  lemma SpreadPush(values: seq<real>, value: real, t: real)
    requires Spread(values, t)
    requires values != [] ==> value - values[|values| - 1] >= t || values[|values| - 1] - value >= t
    ensures Spread(values + [value], t)
  {
  }

  /** While only changes are wanted, consecutive valid values reported differ by at least the least change. */
  lemma {:induction false} ReportedDiffer(env: Env, t: Trace, kind: SensorKind)
    requires Orderly(env, t) && Requested(env, t, kind).onChangeOnly
    ensures Spread(Reported(env, t, kind), LeastChange(kind))
  {
    hide AnsweredWell, Accepts, Numbered, Timely, Subscribed, Parse, SensorPayload, Wanted, Failed, Spread, GrantedMs;
    hide LeastChange;
    SpreadEmpty(LeastChange(kind));
    if t.After? && !t.last.Opened? && !t.last.Closed?
        && !(t.last.Handled? && Accepts(env, t.last.packet, Sensor(kind))) {
      ReportedDiffer(env, t.before, kind);
      var values, e := Reported(env, t.before, kind), t.last;
      if e.Sensed? && e.kind == kind && e.valid && e.report.Some? {
        assert EventOk(env, t.before, e) && !HeldBack(env, t.before, kind, e.valid, e.value);
        SpreadPush(values, e.value, LeastChange(kind));
      }
    }
  }

  lemma SpreadEmpty(t: real)
    ensures Spread([], t)
  {
  }

  /** What becomes of a due reading, given the valid values reported since the subscription. */
  ghost predicate OnChange(env: Env, u: Trace, e: Event)
    requires e.Sensed?
  {
    var wanted, values, t := Requested(env, u, e.kind).onChangeOnly, Reported(env, u, e.kind), LeastChange(e.kind);
    && (!e.valid ==>
          e.report.Some? && e.value == 0.0 && Reference(env, After(u, e), e.kind) == Reference(env, u, e.kind))
    && (e.report.Some? ==>
          var payload := e.report.value.packet.payload;
          |payload| == 8 && payload[1] == if e.valid then 255 else 0)
    && (e.report.None? <==>
          e.valid && wanted && values != [] && -t < e.value - values[|values| - 1] < t)
  }

  /** The on-change chain, at every due reading of every run: an invalid reading is always reported, as 0 with quality
      0, and does not move the reference; a valid one is held back exactly if changes alone are wanted and it lies less
      than the least change above or below the last valid value reported, and otherwise reported with quality 255; and
      the valid values reported since the subscription differ from their predecessors by at least that change. */
  lemma OnChangeChain(env: Env, inputs: seq<LoopInput>, u: Trace, e: Event)
    requires Within(After(u, e), Run(env, inputs).trace) && e.Sensed?
    ensures OnChange(env, u, e)
    ensures Requested(env, u, e.kind).onChangeOnly ==> Spread(Reported(env, u, e.kind), LeastChange(e.kind))
  {
    RunOrderly(env, inputs, After(u, e));
    if Requested(env, u, e.kind).onChangeOnly {
      ReportedDiffer(env, u, e.kind);
    }
    OnChangeAt(env, u, e);
  }

  lemma OnChangeAt(env: Env, u: Trace, e: Event)
    requires EventOk(env, u, e) && e.Sensed?
    ensures OnChange(env, u, e)
  {
    hide Numbered, Timely, Subscribed, Requested, Parse, Unit, U32, LeastChange;
  }
}
