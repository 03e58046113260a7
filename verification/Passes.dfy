/** What one pass of the main loop is made of, whatever the state it starts from: what may happen, in which order, and
    what must not happen. */
module Passes {
  import opened Bytes
  import opened Protocol
  import opened Parsing
  import opened Transmit
  import opened Drivers
  import opened Session
  import opened History

  // ----- Time and clients -----

  /** The bytes, the clock and the trace of a pass with no connected client: a waiting client is accepted, and nothing
      else happens. */
  lemma AcceptsExactly(env: Env, w: World, input: LoopInput)
    requires !w.open || !input.upLoop
    ensures var r := AppLoop(env, w, input);
            && r.trace == (if input.incoming then After(w.trace, Opened) else w.trace)
            && r.open == (w.open || input.incoming)
            && (input.incoming ==> r.inbox == [] && r.s == Reset(w.s))
            && (!input.incoming ==> r.s == w.s && r.inbox == if w.open then w.inbox + input.arrived else w.inbox)
  {
  }

  lemma SenseIfClock(env: Env, w: World, kind: SensorKind, needed: bool, input: LoopInput)
    ensures SenseIf(env, w, kind, needed, input).clock == w.clock
  {
    hide SensedEvent, SensedState, With, Reset, ReportFailed;
  }

  lemma {:induction false} ProcessRxClock(env: Env, w: World)
    ensures ProcessRx(env, w).clock == w.clock
    decreases |w.s.rx|
  {
    hide FrontOf, React, Reset;
    if FrontOf(w.s.rx).Whole? {
      ProcessRxClock(env, Consume(env, w));
    }
  }

  lemma SendDataClock(env: Env, w: World, stream: Stream, payload: seq<byte>)
    ensures SendData(env, w, stream, payload).clock == w.clock
  {
    hide Accepted, NextSeq, Reset;
  }

  lemma PollsClock(env: Env, w: World, input: LoopInput)
    ensures PollRx(env, w, input).clock == PollIr(env, w, input).clock == PollMic(env, w, input).clock == w.clock
    ensures PollSensors(env, w, input).clock == w.clock
  {
    hide ProcessRx, Drain, SendData, SenseIf, Captured, LouderSlot, PcmPayload, CompPayload, IrReceivePayload, Reset,
         Due;
    if w.open && input.upRx {
      ProcessRxClock(env, Receive(w, Drain(Max(0, RX_BUFFER_SIZE - |w.s.rx|), |w.inbox|, input.takes).count));
    }
    forall v: World, stream: Stream, payload: seq<byte> ensures SendData(env, v, stream, payload).clock == v.clock {
      SendDataClock(env, v, stream, payload);
    }
    forall v: World, kind: SensorKind, needed: bool ensures SenseIf(env, v, kind, needed, input).clock == v.clock {
      SenseIfClock(env, v, kind, needed, input);
    }
  }

  /** Every pass, busy or not, takes the time it takes. */
  lemma ClockAdvances(env: Env, w: World, input: LoopInput)
    ensures AppLoop(env, w, input).clock == w.clock + input.elapsed
  {
    hide PollRx, PollIr, PollSensors, PollMic, Reset;
    var w0 := Arrive(w, input);
    PollsClock(env, w0, input);
    PollsClock(env, PollRx(env, w0, input), input);
    PollsClock(env, PollIr(env, PollRx(env, w0, input), input), input);
    PollsClock(env, PollSensors(env, PollIr(env, PollRx(env, w0, input), input), input), input);
  }

  // ----- What must not happen -----

  /** Without a client, a subscription, a microphone or a complete frame the microphone's turn changes nothing; and
      without an encoded frame nothing but a MicPCM packet can come of it. */
  lemma MicSilent(env: Env, w: World, input: LoopInput)
    ensures !w.open || !input.upMic || (!w.s.micPcm && !w.s.micComp) || !env.micReady || input.mic.None? ==>
              PollMic(env, w, input) == w
    ensures w.open && !w.s.micPcm && input.encoded.None? ==> PollMic(env, w, input) == w
  {
    hide SendData, PcmPayload, CompPayload, LouderSlot;
  }

  /** Without a client, a subscription, a receiver or a signal the infrared receiver's turn changes nothing. */
  lemma IrSilent(env: Env, w: World, input: LoopInput)
    ensures !w.open || !input.upIr || !w.s.irReceive || !env.irReady || input.decoded.None?
            || input.decoded.value.rawlen <= 1 ==>
              PollIr(env, w, input) == w
  {
    hide SendData, IrReceivePayload;
  }

  // ----- The order of a pass -----

  /** The turn in which an event can happen: reading and dispatching, infrared, the three sensors, MicPCM, MicComp. */
  function Turn(e: Event): nat {
    match e
    case Opened => 0
    case Closed(_) => 0
    case Received(_) => 1
    case Handled(_, _, _) => 1
    case Data(IrReceive, _) => 2
    case Sensed(Ambient, _, _, _, _) => 3
    case Sensed(Temperature, _, _, _, _) => 4
    case Sensed(Humidity, _, _, _, _) => 5
    case Data(MicPcm, _) => 6
    case Data(_, _) => 7
  }

  /** The turn of the latest event since `start`, apart from the end of a session. */
  ghost function Latest(start: Trace, t: Trace): nat {
    if t == start || t.Boot? then 0
    else if t.last.Closed? then Latest(start, t.before)
    else Turn(t.last)
  }

  /** Since `start` the turns came in order, and only reading and dispatching more than once; a session can end at any
      time. */
  ghost predicate InTurn(start: Trace, t: Trace) {
    t == start
    || (t.After? && InTurn(start, t.before)
        && (t.last.Closed? || Latest(start, t.before) < Turn(t.last) || Latest(start, t.before) == Turn(t.last) == 1))
  }

  lemma {:induction false} ProcessRxInTurn(env: Env, w: World, start: Trace)
    requires InTurn(start, w.trace) && Latest(start, w.trace) <= 1
    ensures InTurn(start, ProcessRx(env, w).trace) && Latest(start, ProcessRx(env, w).trace) <= 1
    decreases |w.s.rx|
  {
    hide FrontOf, React, Reset;
    if FrontOf(w.s.rx).Whole? {
      ProcessRxInTurn(env, Consume(env, w), start);
    }
  }

  lemma PollRxInTurn(env: Env, w: World, input: LoopInput, start: Trace)
    requires InTurn(start, w.trace) && Latest(start, w.trace) == 0
    ensures InTurn(start, PollRx(env, w, input).trace) && Latest(start, PollRx(env, w, input).trace) <= 1
  {
    hide ProcessRx, Drain, Reset;
    if w.open && input.upRx {
      var d := Drain(Max(0, RX_BUFFER_SIZE - |w.s.rx|), |w.inbox|, input.takes);
      ProcessRxInTurn(env, Receive(w, d.count), start);
    }
  }

  lemma SendDataInTurn(env: Env, w: World, stream: Stream, payload: seq<byte>, start: Trace, turn: nat)
    requires InTurn(start, w.trace) && Latest(start, w.trace) < turn
    requires !stream.Sensor? && turn == if stream == IrReceive then 2 else if stream == MicPcm then 6 else 7
    ensures var r := SendData(env, w, stream, payload); InTurn(start, r.trace) && Latest(start, r.trace) <= turn
  {
    hide Accepted, NextSeq, Reset;
  }

  lemma SenseIfInTurn(env: Env, w: World, kind: SensorKind, needed: bool, input: LoopInput, start: Trace)
    requires InTurn(start, w.trace)
    requires Latest(start, w.trace) < if kind.Ambient? then 3 else if kind.Temperature? then 4 else 5
    ensures var r := SenseIf(env, w, kind, needed, input);
            && InTurn(start, r.trace)
            && Latest(start, r.trace) <= if kind.Ambient? then 3 else if kind.Temperature? then 4 else 5
  {
    hide Accepted, SensedState, With, Of, Reset, TooClose, SensorPayload;
  }

  lemma PollIrInTurn(env: Env, w: World, input: LoopInput, start: Trace)
    requires InTurn(start, w.trace) && Latest(start, w.trace) <= 1
    ensures InTurn(start, PollIr(env, w, input).trace) && Latest(start, PollIr(env, w, input).trace) <= 2
  {
    hide SendData, Captured, IrReceivePayload, InTurn, Latest;
    if input.decoded.Some? && Captured(env.rawTick, input.decoded.value).Some? {
      var c := Captured(env.rawTick, input.decoded.value).value;
      SendDataInTurn(env, w, IrReceive, IrReceivePayload(c.raw, c.overflow), start, 2);
    }
  }

  lemma PollSensorsInTurn(env: Env, w: World, input: LoopInput, start: Trace)
    requires InTurn(start, w.trace) && Latest(start, w.trace) <= 2
    ensures InTurn(start, PollSensors(env, w, input).trace) && Latest(start, PollSensors(env, w, input).trace) <= 5
  {
    hide SenseIf, Due, InTurn, Latest;
    var needAmbient, needTemp, needHum :=
      Due(w.s.ambient, w.clock), Due(w.s.temperature, w.clock), Due(w.s.humidity, w.clock);
    SenseIfInTurn(env, w, Ambient, needAmbient, input, start);
    var w1 := SenseIf(env, w, Ambient, needAmbient, input);
    SenseIfInTurn(env, w1, Temperature, needTemp, input, start);
    SenseIfInTurn(env, SenseIf(env, w1, Temperature, needTemp, input), Humidity, needHum, input, start);
  }

  lemma PollMicInTurn(env: Env, w: World, input: LoopInput, start: Trace)
    requires InTurn(start, w.trace) && Latest(start, w.trace) <= 5
    ensures InTurn(start, PollMic(env, w, input).trace)
  {
    hide SendData, LouderSlot, PcmPayload, CompPayload, InTurn, Latest;
    if input.mic.Some? {
      var payload := PcmPayload(LouderSlot(input.mic.value));
      SendDataInTurn(env, w, MicPcm, payload, start, 6);
      if input.encoded.Some? {
        SendDataInTurn(env, w, MicComp, CompPayload(input.encoded.value), start, 7);
        SendDataInTurn(env, SendData(env, w, MicPcm, payload), MicComp, CompPayload(input.encoded.value), start, 7);
      }
    }
  }

  /** In every pass the events come in the order of the main loop: all reading and dispatching, then infrared, ambient
      light, temperature, humidity, MicPCM and MicComp, each at most once. */
  lemma PassInTurn(env: Env, w: World, input: LoopInput)
    requires w.open && input.upLoop
    ensures InTurn(w.trace, AppLoop(env, w, input).trace)
  {
    hide PollRx, PollIr, PollSensors, PollMic;
    var w0, start := Arrive(w, input), w.trace;
    PollRxInTurn(env, w0, input, start);
    hide InTurn, Latest;
    var w1 := PollRx(env, w0, input);
    PollIrInTurn(env, w1, input, start);
    var w2 := PollIr(env, w1, input);
    PollSensorsInTurn(env, w2, input, start);
    PollMicInTurn(env, PollSensors(env, w2, input), input, start);
  }
}
