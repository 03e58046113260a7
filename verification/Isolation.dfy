/** Session isolation: what happened before a client was accepted cannot be told from what happens afterwards. */
module Isolation {
  import opened Bytes
  import opened Protocol
  import opened Parsing
  import opened Transmit
  import opened Drivers
  import opened Session
  import opened History
  import opened Reactions

  /** The part of a trace that belongs to the latest session. */
  function Latest(t: Trace): Trace {
    match t
    case Boot => Boot
    case After(before, e) => if e.Opened? then After(Boot, Opened) else After(Latest(before), e)
  }

  /** Equal but for a last value that is not in use. */
  predicate SameSensor(a: SensorState, b: SensorState) {
    a.(lastValue := 0.0) == b.(lastValue := 0.0) && (a.haveLast ==> a.lastValue == b.lastValue)
  }

  /** Everything in a state but its sensors. */
  predicate SameRest(a: State, b: State) {
    && (a.micPcm, a.micComp, a.irReceive, a.rx) == (b.micPcm, b.micComp, b.irReceive, b.rx)
    && (a.micPcmSeq, a.micCompSeq, a.irReceiveSeq) == (b.micPcmSeq, b.micCompSeq, b.irReceiveSeq)
  }

  ghost predicate SameState(a: State, b: State) {
    SameRest(a, b) && forall kind :: SameSensor(Of(a, kind), Of(b, kind))
  }

  /** Indistinguishable from now on, and since the client was accepted. */
  ghost predicate Same(a: World, b: World) {
    && SameState(a.s, b.s)
    && (a.open, a.inbox, a.clock, a.cursors) == (b.open, b.inbox, b.clock, b.cursors)
    && Latest(a.trace) == Latest(b.trace)
  }

  lemma SameReset(a: State, b: State)
    ensures SameState(Reset(a), Reset(b))
  {
    forall kind ensures SameSensor(Of(Reset(a), kind), Of(Reset(b), kind)) {}
  }

  lemma SameOpen(a: World, b: World)
    requires (a.clock, a.cursors) == (b.clock, b.cursors)
    ensures Same(Open(a), Open(b))
  {
    SameReset(a.s, b.s);
  }

  lemma SameClose(a: World, b: World, why: Why)
    requires Same(a, b)
    ensures Same(Close(a, why), Close(b, why))
  {
    SameReset(a.s, b.s);
  }

  lemma SameTurnSensor(a: State, b: State, stream: Stream, p: Packet, kind: SensorKind)
    requires SameSensor(Of(a, kind), Of(b, kind))
    ensures SameSensor(Of(TurnOn(a, stream, p), kind), Of(TurnOn(b, stream, p), kind))
    ensures SameSensor(Of(TurnOff(a, stream), kind), Of(TurnOff(b, stream), kind))
  {
    hide TurnOn, TurnOff, Wanted, NormalizedInterval, Of;
    TurnMovesSensor(a, stream, p, kind);
    TurnMovesSensor(b, stream, p, kind);
  }

  lemma WithKeepsRest(s: State, kind: SensorKind, c: SensorState)
    ensures SameRest(With(s, kind, c), s)
  {
  }

  lemma SameTurnRest(a: State, b: State, stream: Stream, p: Packet)
    requires SameRest(a, b)
    ensures SameRest(TurnOn(a, stream, p), TurnOn(b, stream, p)) && SameRest(TurnOff(a, stream), TurnOff(b, stream))
  {
    if stream.Sensor? {
      var kind := stream.kind;
      forall s: State ensures SameRest(TurnOn(s, stream, p), s) && SameRest(TurnOff(s, stream), s) {
        WithKeepsRest(s, kind, TurnedOn(s, kind, p));
        WithKeepsRest(s, kind, Of(s, kind).(enabled := false));
        hide With, Of, NormalizedInterval, Wanted, SameRest;
      }
      hide TurnOn, TurnOff;
    }
  }

  function TurnedOn(s: State, kind: SensorKind, p: Packet): SensorState {
    Of(s, kind).(enabled := true, intervalMs := NormalizedInterval(kind, Wanted(p).0), onChangeOnly := Wanted(p).1,
                 lastMs := 0, haveLast := false)
  }

  lemma SameTurn(a: State, b: State, stream: Stream, p: Packet)
    requires SameState(a, b)
    ensures SameState(TurnOn(a, stream, p), TurnOn(b, stream, p)) && SameState(TurnOff(a, stream), TurnOff(b, stream))
  {
    hide TurnOn, TurnOff, SameSensor, Of;
    SameTurnRest(a, b, stream, p);
    forall kind ensures SameSensor(Of(TurnOn(a, stream, p), kind), Of(TurnOn(b, stream, p), kind))
                        && SameSensor(Of(TurnOff(a, stream), kind), Of(TurnOff(b, stream), kind)) {
      SameTurnSensor(a, b, stream, p, kind);
    }
  }

  /** What is done and answered does not depend on the state at all. */
  lemma SameOutcome(env: Env, a: State, b: State, c: Cursors, p: Packet)
    ensures var x, y := React(env, a, c, p), React(env, b, c, p);
            (x.action, x.reply, x.cursors) == (y.action, y.reply, y.cursors)
  {
    hide ErrorReply, AckReply, HeartbeatReply, U16At, U32At, With, Of, SubscribeSensor, Bursts, Duplicate;
    if p.typ == SUBSCRIBE {
      hide ReactUnsubscribe, ReactIrTransmit, ReactSpkPcm, ReactSpkComp;
    } else if p.typ == UNSUBSCRIBE {
      hide ReactSubscribe, ReactIrTransmit, ReactSpkPcm, ReactSpkComp;
    } else {
      hide ReactSubscribe, ReactUnsubscribe;
    }
  }

  lemma SameReaction(env: Env, a: State, b: State, c: Cursors, p: Packet)
    requires SameState(a, b)
    ensures SameState(React(env, a, c, p).s, React(env, b, c, p).s)
  {
    hide React, TurnOn, TurnOff, Accepts, Cancels, SameState;
    ReactState(env, a, c, p);
    ReactState(env, b, c, p);
    var x, y := React(env, a, c, p).s, React(env, b, c, p).s;
    if m :| Accepts(env, p, m) && x == TurnOn(a, m, p) {
      OneTarget(env, p, m, m);
      if n :| Accepts(env, p, n) && y == TurnOn(b, n, p) {
        OneTarget(env, p, m, n);
        SameTurn(a, b, m, p);
      } else if n :| Cancels(p, n) && y == TurnOff(b, n) {
        OneTarget(env, p, m, n);
      }
    } else if m :| Cancels(p, m) && x == TurnOff(a, m) {
      OneTarget(env, p, m, m);
      if n :| Accepts(env, p, n) && y == TurnOn(b, n, p) {
        OneTarget(env, p, m, n);
      } else if n :| Cancels(p, n) && y == TurnOff(b, n) {
        OneTarget(env, p, m, n);
        SameTurn(a, b, m, p);
      }
    }
  }

  lemma SameHandle(env: Env, a: World, b: World, p: Packet)
    requires Same(a, b)
    ensures Same(Handle(env, a, p), Handle(env, b, p))
  {
    hide React, SameState, Accepted;
    SameOutcome(env, a.s, b.s, a.cursors, p);
    SameReaction(env, a.s, b.s, a.cursors, p);
  }

  lemma SameRx(a: World, b: World, rx: seq<byte>)
    requires Same(a, b)
    ensures Same(a.(s := a.s.(rx := rx)), b.(s := b.s.(rx := rx)))
  {
    forall kind ensures SameSensor(Of(a.s.(rx := rx), kind), Of(b.s.(rx := rx), kind)) {
      assert SameSensor(Of(a.s, kind), Of(b.s, kind));
    }
  }

  lemma {:induction false} SameProcess(env: Env, a: World, b: World)
    requires Same(a, b)
    ensures Same(ProcessRx(env, a), ProcessRx(env, b))
    decreases |a.s.rx|
  {
    assert a.s.rx == b.s.rx;
    hide FrontOf, Handle, Same;
    match FrontOf(a.s.rx) {
      case Incomplete =>
      case Corrupt => SameClose(a, b, BadHeader);
      case Whole(p) =>
        SameHandle(env, a, b, p);
        SameRx(Handle(env, a, p), Handle(env, b, p), a.s.rx[FrameSize(p)..]);
        SameProcess(env, Consume(env, a), Consume(env, b));
    }
  }

  lemma SamePollRx(env: Env, a: World, b: World, input: LoopInput)
    requires Same(a, b)
    ensures Same(PollRx(env, a, input), PollRx(env, b, input))
  {
    if a.open && input.upRx {
      var d := Drain(Max(0, RX_BUFFER_SIZE - |a.s.rx|), |a.inbox|, input.takes);
      SameReceive(a, b, d.count);
      SameClose(Receive(a, d.count), Receive(b, d.count), Overflow);
      SameProcess(env, Receive(a, d.count), Receive(b, d.count));
      hide Same, Receive, ProcessRx, Drain;
    }
  }

  lemma SameReceive(a: World, b: World, n: nat)
    requires Same(a, b) && n <= |a.inbox|
    ensures Same(Receive(a, n), Receive(b, n))
  {
    var bytes := a.inbox[..n];
    SameRx(a, b, a.s.rx + bytes);
  }

  lemma SameSendData(env: Env, a: World, b: World, stream: Stream, payload: seq<byte>)
    requires Same(a, b) && !stream.Sensor?
    ensures Same(SendData(env, a, stream, payload), SendData(env, b, stream, payload))
  {
    hide Reset, Accepted;
    forall kind ensures SameSensor(Of(NextSeq(a.s, stream), kind), Of(NextSeq(b.s, stream), kind)) {
      assert SameSensor(Of(a.s, kind), Of(b.s, kind));
    }
    var p := Packet(0, Code(stream), SeqOf(a.s, stream), payload);
    var sent := Send(env, a, p);
    var a1 := a.(s := NextSeq(a.s, stream), cursors := a.cursors.(writes := a.cursors.writes + 1),
                 trace := After(a.trace, Data(stream, sent)));
    var b1 := b.(s := NextSeq(b.s, stream), cursors := b.cursors.(writes := b.cursors.writes + 1),
                 trace := After(b.trace, Data(stream, sent)));
    assert Same(a1, b1);
    SameClose(a1, b1, SendFailed);
  }

  lemma SamePollIr(env: Env, a: World, b: World, input: LoopInput)
    requires Same(a, b)
    ensures Same(PollIr(env, a, input), PollIr(env, b, input))
  {
    assert a.s.irReceive == b.s.irReceive;
    hide Same, SendData, Captured, IrReceivePayload, SameState;
    if input.decoded.Some? && Captured(env.rawTick, input.decoded.value).Some? {
      var c := Captured(env.rawTick, input.decoded.value).value;
      SameSendData(env, a, b, IrReceive, IrReceivePayload(c.raw, c.overflow));
    }
    assert a.open == b.open by { SameOpenFlag(a, b); }
  }

  lemma SameOpenFlag(a: World, b: World)
    requires Same(a, b)
    ensures a.open == b.open && a.s.micComp == b.s.micComp && a.s.micPcm == b.s.micPcm && a.s.irReceive == b.s.irReceive
    ensures a.clock == b.clock
    ensures forall kind :: Due(Of(a.s, kind), a.clock) == Due(Of(b.s, kind), b.clock)
  {
    forall kind ensures Due(Of(a.s, kind), a.clock) == Due(Of(b.s, kind), b.clock) {
      assert SameSensor(Of(a.s, kind), Of(b.s, kind));
    }
  }

  lemma SamePollMic(env: Env, a: World, b: World, input: LoopInput)
    requires Same(a, b)
    ensures Same(PollMic(env, a, input), PollMic(env, b, input))
  {
    hide Same, SendData, PcmPayload, CompPayload, LouderSlot, Due;
    SameOpenFlag(a, b);
    if input.mic.Some? {
      var payload := PcmPayload(LouderSlot(input.mic.value));
      SameSendData(env, a, b, MicPcm, payload);
      var a1 := if a.s.micPcm then SendData(env, a, MicPcm, payload) else a;
      var b1 := if b.s.micPcm then SendData(env, b, MicPcm, payload) else b;
      SameOpenFlag(a1, b1);
      if input.encoded.Some? {
        SameSendData(env, a1, b1, MicComp, CompPayload(input.encoded.value));
      }
    }
  }

  lemma SameSense(env: Env, a: World, b: World, kind: SensorKind, reading: Option<real>)
    requires Same(a, b)
    ensures Same(Sense(env, a, kind, reading), Sense(env, b, kind, reading))
  {
    hide Reset, Accepted, SensorPayload, ChangedEnough, Threshold;
    assert SameSensor(Of(a.s, kind), Of(b.s, kind));
    var e := SensedEvent(env, a, kind, reading);
    assert e == SensedEvent(env, b, kind, reading);
    var x, y := SensedState(Of(a.s, kind), e), SensedState(Of(b.s, kind), e);
    assert SameSensor(x, y);
    SameWith(a.s, b.s, kind, x, y);
    var cursors := if e.report.None? then a.cursors else a.cursors.(writes := a.cursors.writes + 1);
    var a1 := a.(s := With(a.s, kind, x), cursors := cursors, trace := After(a.trace, e));
    var b1 := b.(s := With(b.s, kind, y), cursors := cursors, trace := After(b.trace, e));
    hide With, SensedState, SensedEvent, ReportFailed, SameState;
    assert Same(a1, b1);
    SameClose(a1, b1, SendFailed);
  }

  lemma SameWith(a: State, b: State, kind: SensorKind, x: SensorState, y: SensorState)
    requires SameState(a, b) && SameSensor(x, y)
    ensures SameState(With(a, kind, x), With(b, kind, y))
  {
    WithFrame(a, kind, x, kind);
    WithFrame(b, kind, y, kind);
    forall other ensures SameSensor(Of(With(a, kind, x), other), Of(With(b, kind, y), other)) {
      assert SameSensor(Of(a, other), Of(b, other));
      WithFrame(a, kind, x, other);
      WithFrame(b, kind, y, other);
      hide With, Of;
    }
    hide With, Of;
  }

  lemma SamePollSensors(env: Env, a: World, b: World, input: LoopInput)
    requires Same(a, b)
    ensures Same(PollSensors(env, a, input), PollSensors(env, b, input))
  {
    SameOpenFlag(a, b);
    assert Of(a.s, Ambient) == a.s.ambient && Of(a.s, Temperature) == a.s.temperature
           && Of(a.s, Humidity) == a.s.humidity;
    assert Of(b.s, Ambient) == b.s.ambient && Of(b.s, Temperature) == b.s.temperature
           && Of(b.s, Humidity) == b.s.humidity;
    hide Same, Sense, Due, Of;
    var x, y, z := Due(a.s.ambient, a.clock), Due(a.s.temperature, a.clock), Due(a.s.humidity, a.clock);
    assert x == Due(b.s.ambient, b.clock) && y == Due(b.s.temperature, b.clock) && z == Due(b.s.humidity, b.clock);
    SameSense(env, a, b, Ambient, Reading(input, Ambient));
    var a1, b1 := SenseIf(env, a, Ambient, x, input), SenseIf(env, b, Ambient, x, input);
    SameSense(env, a1, b1, Temperature, Reading(input, Temperature));
    var a2, b2 := SenseIf(env, a1, Temperature, y, input), SenseIf(env, b1, Temperature, y, input);
    SameSense(env, a2, b2, Humidity, Reading(input, Humidity));
  }

  lemma SameLoop(env: Env, a: World, b: World, input: LoopInput)
    requires Same(a, b)
    ensures Same(AppLoop(env, a, input), AppLoop(env, b, input))
  {
    var a0, b0 := Arrive(a, input), Arrive(b, input);
    assert Same(a0, b0);
    SameOpen(a0, b0);
    hide Same, Arrive, Open, PollRx, PollIr, PollSensors, PollMic, Due;
    SameOpenFlag(a0, b0);
    SamePollRx(env, a0, b0, input);
    var a1, b1 := PollRx(env, a0, input), PollRx(env, b0, input);
    SamePollIr(env, a1, b1, input);
    var a2, b2 := PollIr(env, a1, input), PollIr(env, b1, input);
    SamePollSensors(env, a2, b2, input);
    SamePollMic(env, PollSensors(env, a2, input), PollSensors(env, b2, input), input);
  }

  function Continue(env: Env, w: World, inputs: seq<LoopInput>): World {
    if inputs == [] then w else AppLoop(env, Continue(env, w, inputs[..|inputs| - 1]), inputs[|inputs| - 1])
  }

  lemma {:induction false} SameContinue(env: Env, a: World, b: World, inputs: seq<LoopInput>)
    requires Same(a, b)
    ensures Same(Continue(env, a, inputs), Continue(env, b, inputs))
    decreases |inputs|
  {
    hide Same, AppLoop;
    if inputs != [] {
      SameContinue(env, a, b, inputs[..|inputs| - 1]);
      SameLoop(env, Continue(env, a, inputs[..|inputs| - 1]), Continue(env, b, inputs[..|inputs| - 1]),
          inputs[|inputs| - 1]);
    }
  }

  /** Session isolation, for any two states of the firmware whatever: their subscriptions, counters, stamps, last values
      and buffered bytes may differ in any way. Once a client is accepted, the same bytes, socket behaviour, clock and
      driver results produce the same events ever after: the same dispatches, replies, data packets and closes. */
  lemma SessionIsolation(env: Env, a: World, b: World, inputs: seq<LoopInput>)
    requires (a.clock, a.cursors) == (b.clock, b.cursors)
    ensures var x, y := Continue(env, Open(a), inputs), Continue(env, Open(b), inputs);
            && Latest(x.trace) == Latest(y.trace)
            && (x.open, x.inbox, x.s.rx) == (y.open, y.inbox, y.s.rx)
            && forall stream :: Enabled(x.s, stream) == Enabled(y.s, stream) && SeqOf(x.s, stream) == SeqOf(y.s, stream)
  {
    SameOpen(a, b);
    SameContinue(env, Open(a), Open(b), inputs);
    hide Open, Continue, Same, Enabled, SeqOf;
    SameStreams(Continue(env, Open(a), inputs), Continue(env, Open(b), inputs));
  }

  lemma SameStreams(a: World, b: World)
    requires Same(a, b)
    ensures Latest(a.trace) == Latest(b.trace) && (a.open, a.inbox, a.s.rx) == (b.open, b.inbox, b.s.rx)
    ensures forall stream :: Enabled(a.s, stream) == Enabled(b.s, stream) && SeqOf(a.s, stream) == SeqOf(b.s, stream)
  {
    forall stream ensures Enabled(a.s, stream) == Enabled(b.s, stream) && SeqOf(a.s, stream) == SeqOf(b.s, stream) {
      if stream.Sensor? {
        assert SameSensor(Of(a.s, stream.kind), Of(b.s, stream.kind));
      }
    }
  }
}
