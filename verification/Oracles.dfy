/** Every answer of the outside world is used once, in order, and believed: the socket's to each packet, the speaker's
    to each piece, the decoder's to each frame. */
module Oracles {
  import opened Bytes
  import opened Protocol
  import opened Parsing
  import opened Transmit
  import opened Drivers
  import opened Session
  import opened History
  import opened Emission
  import Invariant

  /** How often the socket, the speaker and the decoder have been called in a trace. */
  function Calls(t: Trace): Cursors {
    match t
    case Boot => Cursors(0, 0, 0)
    case After(before, e) =>
      var c := Calls(before);
      var played := e.Handled? && (e.action.Play? || (e.action.Decode? && e.action.decoded.Some?));
      Cursors(c.writes + (if SendOf(e).Some? then 1 else 0),
              c.plays + (if played then 1 else 0),
              c.decodes + (if e.Handled? && e.action.Decode? then 1 else 0))
  }

  /** The event `e` after `t` is what the outside world made of it: a packet got as far as its own `wspWritePacket`
      call says, a piece was taken if its own speaker call says so, and a frame was decoded to what its own decoder
      call returned. */
  ghost predicate Believed(env: Env, t: Trace, e: Event) {
    var c := Calls(t);
    && (SendOf(e).Some? ==>
          var sent := SendOf(e).value;
          sent.accepted == Accepted(env.link(c.writes), Connected(t), FrameSize(sent.packet)))
    && (e.Handled? && e.action.Play? ==> e.action.playback.complete == env.plays(c.plays))
    && (e.Handled? && e.action.Decode? ==>
          e.action.decoded ==
          if env.decodes(c.decodes).None? then None
          else Some(Playback(Duplicate(env.decodes(c.decodes).value), env.plays(c.plays))))
  }

  ghost predicate AllBelieved(env: Env, t: Trace) {
    t.After? ==> AllBelieved(env, t.before) && Believed(env, t.before, t.last)
  }

  ghost predicate OracleInv(env: Env, w: World) {
    w.cursors == Calls(w.trace) && w.open == Connected(w.trace) && AllBelieved(env, w.trace)
  }

  lemma OpenBelieved(env: Env, w: World)
    requires OracleInv(env, w)
    ensures OracleInv(env, Open(w))
  {
    hide Reset;
  }

  lemma CloseBelieved(env: Env, w: World, why: Why)
    requires w.cursors == Calls(w.trace) && AllBelieved(env, w.trace)
    ensures OracleInv(env, Close(w, why))
  {
    hide Reset;
  }

  lemma ReactCalls(env: Env, s: State, c: Cursors, p: Packet)
    ensures var r := React(env, s, c, p);
            && r.cursors.writes == c.writes
            && r.cursors.plays ==
                 c.plays + (if r.action.Play? || (r.action.Decode? && r.action.decoded.Some?) then 1 else 0)
            && r.cursors.decodes == c.decodes + (if r.action.Decode? then 1 else 0)
            && (r.action.Play? ==> r.action.playback.complete == env.plays(c.plays))
            && (r.action.Decode? ==>
                  r.action.decoded ==
                  if env.decodes(c.decodes).None? then None
                  else Some(Playback(Duplicate(env.decodes(c.decodes).value), env.plays(c.plays))))
  {
    hide ErrorReply, AckReply, Duplicate, Bursts, U16At, U32At, U16sOf, I16sOf, SubscribeSensor, With, Of;
  }

  lemma HandleBelieved(env: Env, w: World, p: Packet)
    requires OracleInv(env, w)
    ensures OracleInv(env, Handle(env, w, p))
  {
    ReactCalls(env, w.s, w.cursors, p);
    hide React, Accepted, Duplicate;
  }

  lemma {:induction false} ProcessRxBelieved(env: Env, w: World)
    requires OracleInv(env, w)
    ensures OracleInv(env, ProcessRx(env, w))
    decreases |w.s.rx|
  {
    hide FrontOf, Handle, AllBelieved, Calls;
    match FrontOf(w.s.rx) {
      case Incomplete =>
      case Corrupt => CloseBelieved(env, w, BadHeader);
      case Whole(p) =>
        HandleBelieved(env, w, p);
        ProcessRxBelieved(env, Consume(env, w));
    }
  }

  lemma PollRxBelieved(env: Env, w: World, input: LoopInput)
    requires OracleInv(env, w)
    ensures OracleInv(env, PollRx(env, w, input))
  {
    if w.open && input.upRx {
      var d := Drain(Max(0, RX_BUFFER_SIZE - |w.s.rx|), |w.inbox|, input.takes);
      var w1 := Receive(w, d.count);
      assert OracleInv(env, w1);
      hide OracleInv, ProcessRx, Drain, Receive;
      if d.overflow {
        OverflowBelieved(env, w1);
      } else {
        ProcessRxBelieved(env, w1);
      }
    }
  }

  lemma OverflowBelieved(env: Env, w: World)
    requires OracleInv(env, w)
    ensures OracleInv(env, Close(w, Overflow))
  {
    CloseBelieved(env, w, Overflow);
  }

  lemma SendDataBelieved(env: Env, w: World, stream: Stream, payload: seq<byte>)
    requires OracleInv(env, w)
    ensures OracleInv(env, SendData(env, w, stream, payload))
  {
    hide Accepted, NextSeq, Reset;
    var w1 := Attempt(env, w, stream, payload);
    assert Calls(w1.trace) == w1.cursors && AllBelieved(env, w1.trace);
    CloseBelieved(env, w1, SendFailed);
  }

  lemma SenseIfBelieved(env: Env, w: World, kind: SensorKind, needed: bool, input: LoopInput)
    requires OracleInv(env, w)
    ensures OracleInv(env, SenseIf(env, w, kind, needed, input))
  {
    if needed {
      var e := SensedEvent(env, w, kind, Reading(input, kind));
      SensedBelieved(env, w, kind, Reading(input, kind));
      hide SensedEvent, With, Of, SensedState, Reset;
      var w1 := w.(s := With(w.s, kind, SensedState(Of(w.s, kind), e)),
                   cursors := if e.report.None? then w.cursors else w.cursors.(writes := w.cursors.writes + 1),
                   trace := After(w.trace, e));
      assert Calls(w1.trace) == w1.cursors && AllBelieved(env, w1.trace);
      hide ReportFailed;
      CloseBelieved(env, w1, SendFailed);
    }
  }

  lemma SensedBelieved(env: Env, w: World, kind: SensorKind, reading: Option<real>)
    requires OracleInv(env, w)
    ensures Believed(env, w.trace, SensedEvent(env, w, kind, reading))
  {
    hide Accepted, Of, TooClose, SensorPayload;
  }

  lemma PollsBelieved(env: Env, w: World, input: LoopInput)
    requires OracleInv(env, w)
    ensures OracleInv(env, PollIr(env, w, input)) && OracleInv(env, PollSensors(env, w, input))
    ensures OracleInv(env, PollMic(env, w, input))
  {
    hide SendData, SenseIf, Captured, LouderSlot, PcmPayload, CompPayload, IrReceivePayload, OracleInv, Due;
    if input.decoded.Some? && Captured(env.rawTick, input.decoded.value).Some? {
      var c := Captured(env.rawTick, input.decoded.value).value;
      SendDataBelieved(env, w, IrReceive, IrReceivePayload(c.raw, c.overflow));
    }
    if input.mic.Some? {
      var payload := PcmPayload(LouderSlot(input.mic.value));
      SendDataBelieved(env, w, MicPcm, payload);
      if input.encoded.Some? {
        SendDataBelieved(env, w, MicComp, CompPayload(input.encoded.value));
        SendDataBelieved(env, SendData(env, w, MicPcm, payload), MicComp, CompPayload(input.encoded.value));
      }
    }
    var needAmbient, needTemp, needHum :=
      Due(w.s.ambient, w.clock), Due(w.s.temperature, w.clock), Due(w.s.humidity, w.clock);
    SenseIfBelieved(env, w, Ambient, needAmbient, input);
    var s1 := SenseIf(env, w, Ambient, needAmbient, input);
    SenseIfBelieved(env, s1, Temperature, needTemp, input);
    SenseIfBelieved(env, SenseIf(env, s1, Temperature, needTemp, input), Humidity, needHum, input);
  }

  lemma ArriveBelieved(env: Env, w: World, input: LoopInput)
    requires OracleInv(env, w)
    ensures OracleInv(env, Arrive(w, input))
  {
  }

  lemma AppLoopBelieved(env: Env, w: World, input: LoopInput)
    requires OracleInv(env, w)
    ensures OracleInv(env, AppLoop(env, w, input))
  {
    var w0 := Arrive(w, input);
    ArriveBelieved(env, w, input);
    OpenBelieved(env, w0);
    hide OracleInv, Arrive, Open, PollRx, PollIr, PollSensors, PollMic;
    PollRxBelieved(env, w0, input);
    var w1 := PollRx(env, w0, input);
    PollsBelieved(env, w1, input);
    var w2 := PollIr(env, w1, input);
    PollsBelieved(env, w2, input);
    PollsBelieved(env, PollSensors(env, w2, input), input);
  }

  lemma {:induction false} RunBelieved(env: Env, inputs: seq<LoopInput>)
    ensures OracleInv(env, Run(env, inputs))
  {
    if inputs != [] {
      hide OracleInv, AppLoop;
      RunBelieved(env, inputs[..|inputs| - 1]);
      AppLoopBelieved(env, Run(env, inputs[..|inputs| - 1]), inputs[|inputs| - 1]);
    }
  }

  lemma {:induction false} BelievedWithin(env: Env, u: Trace, t: Trace)
    requires AllBelieved(env, t) && Within(u, t)
    ensures AllBelieved(env, u)
    decreases t
  {
    if u != t {
      BelievedWithin(env, u, t.before);
    }
  }

  /** At every moment of every run the trace says what the outside world answered, each answer used once and in order.
      With `Transmit.AcceptedCounts` this says byte for byte how much of each packet went out. */
  lemma AnswersBelieved(env: Env, inputs: seq<LoopInput>, u: Trace, e: Event)
    requires Within(After(u, e), Run(env, inputs).trace)
    ensures Believed(env, u, e)
  {
    RunBelieved(env, inputs);
    hide Run, Believed, Calls;
    BelievedWithin(env, After(u, e), Run(env, inputs).trace);
  }
}
