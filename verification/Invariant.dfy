/** The invariant that ties the firmware's state to its trace, and its preservation by every operation of the main
    loop. */
module Invariant {
  import opened Bytes
  import opened Protocol
  import opened Parsing
  import opened Transmit
  import opened Drivers
  import opened Session
  import opened History
  import opened Reactions

  // ----- The invariant -----

  /** A stream's flag and counter are what the trace says. */
  ghost predicate StreamInv(env: Env, w: World, stream: Stream) {
    Enabled(w.s, stream) == Subscribed(env, w.trace, stream)
    && SeqOf(w.s, stream) == Wrap32(Attempts(w.trace, stream))
    && (Enabled(w.s, stream) ==> Available(env, stream))
  }

  function StampMs(stamp: Option<nat>): uint32 {
    if stamp.None? then 0 else Wrap32(stamp.value)
  }

  /** A sensor's options, stamp and reference value are what the trace says. */
  ghost predicate SensorInv(env: Env, w: World, kind: SensorKind) {
    var c := Of(w.s, kind);
    var stamp, reference := Stamp(env, w.trace, kind), Reference(env, w.trace, kind);
    && Options(c.intervalMs, c.onChangeOnly) == Requested(env, w.trace, kind)
    && LeastMs(kind) <= c.intervalMs
    && c.lastMs == StampMs(stamp) && (stamp.Some? ==> stamp.value <= w.clock)
    && c.haveLast == reference.Some? && (c.haveLast ==> c.lastValue == reference.value)
  }

  /** What has been read is what has been dispatched and what is still in the buffer. */
  ghost predicate BufferInv(w: World) {
    var later := Parse(w.s.rx);
    Parse(Inbound(w.trace)) == Parsed(Dispatched(w.trace) + later.packets, later.rest, later.bad)
  }

  /** Without a client the session is in its reset state. */
  predicate ResetWhenClosed(w: World) {
    !w.open ==> w.s == Reset(w.s) && w.inbox == []
  }

  ghost predicate ControlInv(env: Env, w: World) {
    && w.open == Connected(w.trace)
    && ResetWhenClosed(w)
    && (forall stream :: StreamInv(env, w, stream))
    && (forall kind :: SensorInv(env, w, kind))
  }

  ghost predicate Inv(env: Env, w: World) {
    && ControlInv(env, w)
    && Orderly(env, w.trace) && !MustClose(w.trace)
    && (w.open ==> BufferInv(w))
  }

  // ----- Opening and closing -----

  lemma ResetControl(env: Env, w: World)
    requires w.s == Reset(w.s) && w.open == Connected(w.trace) && w.inbox == []
    requires w.trace.After? && (w.trace.last.Opened? || w.trace.last.Closed?)
    ensures ControlInv(env, w)
  {
    forall stream ensures StreamInv(env, w, stream) {}
    forall kind ensures SensorInv(env, w, kind) {}
  }

  lemma OpenInv(env: Env, w: World)
    requires Inv(env, w)
    ensures Inv(env, Open(w))
  {
    hide Reset;
    ResetTwice(w.s);
    ResetControl(env, Open(w));
  }

  lemma ResetTwice(s: State)
    ensures Reset(Reset(s)) == Reset(s) && Reset(s).rx == []
  {
  }

  lemma CloseInv(env: Env, w: World, why: Why)
    requires Orderly(env, w.trace) && EventOk(env, w.trace, Closed(why))
    ensures Inv(env, Close(w, why))
  {
    hide Reset, EventOk;
    ResetTwice(w.s);
    ResetControl(env, Close(w, why));
  }

  lemma ArriveInv(env: Env, w: World, input: LoopInput)
    requires Inv(env, w)
    ensures Inv(env, Arrive(w, input))
  {
    hide Reset, Enabled, SeqOf, Of;
    var r := Arrive(w, input);
    forall stream ensures StreamInv(env, r, stream) { assert StreamInv(env, w, stream); }
    forall kind ensures SensorInv(env, r, kind) { assert SensorInv(env, w, kind); }
  }

  // ----- Receiving -----

  lemma ReceiveControl(env: Env, w: World, n: nat)
    requires ControlInv(env, w) && w.open && n <= |w.inbox|
    ensures ControlInv(env, Receive(w, n))
  {
    hide Reset;
    var r := Receive(w, n);
    forall stream ensures StreamInv(env, r, stream) { assert StreamInv(env, w, stream); }
    forall kind ensures SensorInv(env, r, kind) { assert SensorInv(env, w, kind); }
  }

  lemma ReceiveBuffer(w: World, n: nat)
    requires BufferInv(w) && n <= |w.inbox| && FrontOf(w.s.rx).Incomplete?
    ensures BufferInv(Receive(w, n))
  {
    hide FrontOf;
    assert Parse(w.s.rx) == Parsed([], w.s.rx, false);
    hide Parse;
    ParseAppend(Inbound(w.trace), w.inbox[..n]);
  }

  lemma ReceiveInv(env: Env, w: World, n: nat)
    requires Inv(env, w) && w.open && n <= |w.inbox|
    requires FrontOf(w.s.rx).Incomplete?
    ensures Inv(env, Receive(w, n)) && Receive(w, n).open
  {
    assert Connected(w.trace);
    hide FrontOf, ControlInv, BufferInv;
    ReceiveControl(env, w, n);
    ReceiveBuffer(w, n);
  }

  lemma HandleControl(env: Env, w: World, p: Packet)
    requires ControlInv(env, w) && w.open
    ensures ControlInv(env, Handle(env, w, p)) && Handle(env, w, p).s.rx == w.s.rx
  {
    hide React, Accepts, Cancels, Wanted, NormalizedInterval, GrantedMs, Reset, Of, Enabled, SeqOf, Send;
    var r := Handle(env, w, p);
    forall stream ensures StreamInv(env, r, stream) {
      assert StreamInv(env, w, stream);
      ReactStream(env, w.s, w.cursors, p, stream);
      AcceptsAvailable(env, p, stream);
    }
    forall kind ensures SensorInv(env, r, kind) {
      assert SensorInv(env, w, kind);
      ReactSensor(env, w.s, w.cursors, p, kind);
      GrantedExactly(kind, Wanted(p).0);
    }
    ReactStream(env, w.s, w.cursors, p, MicPcm);
  }

  lemma AcceptsAvailable(env: Env, p: Packet, stream: Stream)
    ensures Accepts(env, p, stream) ==> Available(env, stream)
  {
  }

  /** The firmware's interval arithmetic grants what it should. */
  lemma GrantedExactly(kind: SensorKind, intervalMs: uint16)
    ensures NormalizedInterval(kind, intervalMs) == GrantedMs(kind, intervalMs) >= LeastMs(kind)
    ensures DefaultInterval(kind) == StandardMs(kind)
  {
  }

  /** The firmware's comparison is whether the change, up or down, is at least the least one. */
  lemma ChangedExactly(kind: SensorKind, previous: real, now: real)
    ensures !ChangedEnough(previous, now, Threshold(kind)) <==>
              -LeastChange(kind) < now - previous < LeastChange(kind)
  {
  }

  lemma HandleOrderly(env: Env, w: World, p: Packet)
    requires Orderly(env, w.trace) && !MustClose(w.trace) && Connected(w.trace)
    requires Dispatched(w.trace) + [p] <= Parse(Inbound(w.trace)).packets
    ensures Orderly(env, Handle(env, w, p).trace) && !MustClose(Handle(env, w, p).trace)
  {
    hide React, AnsweredWell, KnownType;
    Answers(env, w.s, w.cursors, p);
    RepliesLegal(env, w.s, w.cursors, p);
  }

  lemma RxFrame(env: Env, w: World, rx: seq<byte>)
    requires ControlInv(env, w) && w.open
    ensures ControlInv(env, w.(s := w.s.(rx := rx)))
  {
    hide Reset;
    var r := w.(s := w.s.(rx := rx));
    forall stream ensures StreamInv(env, r, stream) { assert StreamInv(env, w, stream); }
    forall kind ensures SensorInv(env, r, kind) { assert SensorInv(env, w, kind); }
  }

  lemma HandleShape(env: Env, w: World, p: Packet)
    ensures var r := Handle(env, w, p);
            && r.open == w.open && r.trace.After? && r.trace.before == w.trace
            && Inbound(r.trace) == Inbound(w.trace) && Dispatched(r.trace) == Dispatched(w.trace) + [p]
  {
    hide React;
  }

  lemma ConsumeShape(env: Env, w: World)
    requires FrontOf(w.s.rx).Whole?
    ensures var r, p := Consume(env, w), FrontOf(w.s.rx).packet;
            && Inbound(r.trace) == Inbound(w.trace) && Dispatched(r.trace) == Dispatched(w.trace) + [p]
            && r.s.rx == w.s.rx[FrameSize(p)..]
  {
    hide FrontOf, Handle;
    HandleShape(env, w, FrontOf(w.s.rx).packet);
  }

  lemma MoveFront(ps: seq<Packet>, p: Packet, rest: seq<Packet>)
    ensures ps + ([p] + rest) == (ps + [p]) + rest && ps + [p] <= (ps + [p]) + rest
  {
  }

  lemma ConsumeBuffer(env: Env, w: World)
    requires BufferInv(w) && FrontOf(w.s.rx).Whole?
    ensures var p := FrontOf(w.s.rx).packet;
            && Dispatched(w.trace) + [p] <= Parse(Inbound(w.trace)).packets
            && BufferInv(Consume(env, w))
  {
    hide FrontOf, Consume, Inbound, Dispatched;
    var p := FrontOf(w.s.rx).packet;
    var rest := Parse(w.s.rx[FrameSize(p)..]);
    assert Parse(w.s.rx) == Parsed([p] + rest.packets, rest.rest, rest.bad);
    hide Parse;
    ConsumeShape(env, w);
    MoveFront(Dispatched(w.trace), p, rest.packets);
  }

  /** Dispatching never touches the buffer, so taking the front packet out afterwards leaves exactly what follows it. */
  lemma ConsumeInv(env: Env, w: World)
    requires Inv(env, w) && w.open && FrontOf(w.s.rx).Whole?
    ensures Inv(env, Consume(env, w)) && Consume(env, w).open
    ensures Consume(env, w).s.rx == w.s.rx[FrameSize(FrontOf(w.s.rx).packet)..]
  {
    assert Connected(w.trace);
    hide FrontOf, Handle, Orderly, MustClose, ControlInv, BufferInv, Parse;
    var p := FrontOf(w.s.rx).packet;
    ConsumeBuffer(env, w);
    ConsumeShape(env, w);
    HandleShape(env, w, p);
    HandleControl(env, w, p);
    HandleOrderly(env, w, p);
    RxFrame(env, Handle(env, w, p), w.s.rx[FrameSize(p)..]);
  }

  /** The buffer after it has been processed: the session is over, or no complete packet is left. */
  predicate Settled(w: World) {
    w.open ==> FrontOf(w.s.rx).Incomplete?
  }

  lemma {:induction false} ProcessRxInv(env: Env, w: World)
    requires Inv(env, w) && w.open
    ensures Inv(env, ProcessRx(env, w)) && Settled(ProcessRx(env, w))
    decreases |w.s.rx|
  {
    assert Connected(w.trace);
    hide FrontOf, Consume, ControlInv, Orderly;
    match FrontOf(w.s.rx) {
      case Incomplete =>
      case Corrupt =>
        assert Parse(w.s.rx) == Parsed([], w.s.rx, true);
        CloseInv(env, w, BadHeader);
      case Whole(_) =>
        ConsumeInv(env, w);
        ProcessRxInv(env, Consume(env, w));
    }
  }

  lemma OverflowOk(env: Env, w: World)
    requires Inv(env, w) && w.open
    ensures Orderly(env, w.trace) && EventOk(env, w.trace, Closed(Overflow))
  {
    hide Orderly, StreamInv, SensorInv, BufferInv;
  }

  lemma PollRxInv(env: Env, w: World, input: LoopInput)
    requires Inv(env, w) && Settled(w)
    ensures Inv(env, PollRx(env, w, input)) && Settled(PollRx(env, w, input))
  {
    hide FrontOf, Inv, Orderly, ProcessRx, EventOk, Drain, Receive, Reset;
    if w.open && input.upRx {
      var d := Drain(Max(0, RX_BUFFER_SIZE - |w.s.rx|), |w.inbox|, input.takes);
      ReceiveInv(env, w, d.count);
      var w1 := Receive(w, d.count);
      if d.overflow {
        OverflowOk(env, w1);
        CloseInv(env, w1, Overflow);
      } else {
        ProcessRxInv(env, w1);
      }
    }
  }

  // ----- Sending data -----

  lemma NextSeqFrame(s: State, sent: Stream, stream: Stream)
    ensures Enabled(NextSeq(s, sent), stream) == Enabled(s, stream)
    ensures SeqOf(NextSeq(s, sent), stream) == if stream == sent then Wrap32(SeqOf(s, stream) + 1) else SeqOf(s, stream)
    ensures NextSeq(s, sent).rx == s.rx
    ensures sent != stream && stream.Sensor? ==> Of(NextSeq(s, sent), stream.kind) == Of(s, stream.kind)
  {
    if sent.Sensor? {
      var c := Of(s, sent.kind);
      if stream.Sensor? { WithFrame(s, sent.kind, c.(seqNo := Wrap32(c.seqNo + 1)), stream.kind); }
    }
  }

  lemma WrapNext(n: nat)
    ensures Wrap32(Wrap32(n) + 1) == Wrap32(n + 1)
  {
  }

  /** The state and trace of a data packet that was sent, before a failure is acted upon. */
  lemma SentControl(env: Env, w: World, stream: Stream, sent: Sent, r: World)
    requires ControlInv(env, w) && w.open && !stream.Sensor?
    requires r.open && r.s == NextSeq(w.s, stream) && r.clock == w.clock
              && r.trace == After(w.trace, Data(stream, sent))
    ensures ControlInv(env, r)
  {
    hide Reset, NextSeq, Enabled, SeqOf, Accepts, Cancels;
    forall other ensures StreamInv(env, r, other) {
      assert StreamInv(env, w, other);
      NextSeqFrame(w.s, stream, other);
      WrapNext(Attempts(w.trace, other));
    }
    forall kind ensures SensorInv(env, r, kind) {
      assert SensorInv(env, w, kind);
      NextSeqFrame(w.s, stream, Sensor(kind));
    }
  }

  lemma SendDataInv(env: Env, w: World, stream: Stream, payload: seq<byte>)
    requires Inv(env, w) && Settled(w) && w.open && Enabled(w.s, stream) && !stream.Sensor?
    requires |payload| <= MAX_PAYLOAD
    ensures Inv(env, SendData(env, w, stream, payload)) && Settled(SendData(env, w, stream, payload))
    ensures SendData(env, w, stream, payload).open ==> SendData(env, w, stream, payload).s == NextSeq(w.s, stream)
  {
    var p := Packet(0, Code(stream), SeqOf(w.s, stream), payload);
    var sent := Send(env, w, p);
    var w1 := w.(s := NextSeq(w.s, stream), cursors := w.cursors.(writes := w.cursors.writes + 1),
                 trace := After(w.trace, Data(stream, sent)));
    assert StreamInv(env, w, stream);
    assert KnownType(p.typ);
    NextSeqFrame(w.s, stream, stream);
    hide FrontOf, NextSeq, KnownType, Accepted;
    assert EventOk(env, w.trace, Data(stream, sent));
    SentControl(env, w, stream, sent, w1);
    if Failed(sent) && stream != MicComp {
      CloseInv(env, w1, SendFailed);
    }
  }

  // ----- Sensors -----

  /** Subtracting 32-bit stamps never shows more time than has truly passed. */
  lemma WrappedDifference(earlier: nat, now: nat)
    requires earlier <= now
    ensures Wrap32(Wrap32(now) - Wrap32(earlier)) == Wrap32(now - earlier) <= now - earlier
  {
  }

  lemma SensedControl(env: Env, w: World, e: Event, r: World)
    requires ControlInv(env, w) && w.open
    requires e.Sensed? && e.time == w.clock && !ReportFailed(e)
    requires r.open && r.clock == w.clock && r.trace == After(w.trace, e)
    requires r.s == With(w.s, e.kind, SensedState(Of(w.s, e.kind), e))
    ensures ControlInv(env, r)
  {
    var kind := e.kind;
    var c := SensedState(Of(w.s, kind), e);
    forall other ensures SensorInv(env, r, other) {
      assert SensorInv(env, w, other);
      WithFrame(w.s, kind, c, other);
      hide With, Of, Reset;
    }
    forall stream ensures StreamInv(env, r, stream) {
      assert StreamInv(env, w, stream);
      WithFrame(w.s, kind, c, if stream.Sensor? then stream.kind else kind);
      WrapNext(Attempts(w.trace, stream));
      hide With, Of, Reset, Available;
    }
  }

  /** The event of a due reading obeys the rules: it is on time, numbered, and held back exactly when it should be. */
  lemma SenseOk(env: Env, w: World, kind: SensorKind, reading: Option<real>)
    requires ControlInv(env, w) && !MustClose(w.trace) && (w.open ==> Due(Of(w.s, kind), w.clock))
    ensures EventOk(env, w.trace, SensedEvent(env, w, kind, reading))
    ensures !w.open ==> ReportFailed(SensedEvent(env, w, kind, reading))
  {
    assert SensorInv(env, w, kind);
    assert StreamInv(env, w, Sensor(kind));
    assert KnownType(SensorCode(kind));
    var stamp := Stamp(env, w.trace, kind);
    if stamp.Some? {
      WrappedDifference(stamp.value, w.clock);
    }
    if reading.Some? {
      ChangedExactly(kind, Of(w.s, kind).lastValue, reading.value);
    }
    hide KnownType, LeastChange, ChangedEnough, SensorPayload, Threshold, Stamp, Requested, Reported, Subscribed,
         Attempts;
  }

  lemma SenseInv(env: Env, w: World, kind: SensorKind, reading: Option<real>)
    requires Inv(env, w) && Settled(w) && (w.open ==> Due(Of(w.s, kind), w.clock))
    ensures var r := Sense(env, w, kind, reading);
            && Inv(env, r) && Settled(r)
            && (r.open ==> w.open && r.clock == w.clock && forall other :: other != kind ==>
                 Of(r.s, other) == Of(w.s, other))
  {
    SenseOk(env, w, kind, reading);
    var e := SensedEvent(env, w, kind, reading);
    var c := SensedState(Of(w.s, kind), e);
    WithFrame(w.s, kind, c, kind);
    forall other | other != kind ensures Of(With(w.s, kind, c), other) == Of(w.s, other) {
      WithFrame(w.s, kind, c, other);
    }
    var r := Sense(env, w, kind, reading);
    assert e.kind == kind && e.time == w.clock;
    hide FrontOf, EventOk, ControlInv, SensedEvent, With, Of, SensedState, Reset, ReportFailed;
    if ReportFailed(e) {
      var w1 := w.(s := With(w.s, kind, c),
                   cursors := if e.report.None? then w.cursors else w.cursors.(writes := w.cursors.writes + 1),
                   trace := After(w.trace, e));
      assert r == Close(w1, SendFailed);
      CloseAfter(env, w.trace, e);
      CloseInv(env, w1, SendFailed);
    } else {
      SensedControl(env, w, e, r);
      NotMustClose(w.trace, e);
    }
  }

  lemma NotMustClose(t: Trace, e: Event)
    requires e.Sensed? && !ReportFailed(e)
    ensures !MustClose(After(t, e))
  {
  }

  lemma CloseAfter(env: Env, t: Trace, e: Event)
    requires e.Sensed? && ReportFailed(e)
    ensures EventOk(env, After(t, e), Closed(SendFailed))
  {
  }

  lemma SenseIfInv(env: Env, w: World, kind: SensorKind, needed: bool, input: LoopInput)
    requires Inv(env, w) && Settled(w) && (w.open && needed ==> Due(Of(w.s, kind), w.clock))
    ensures var r := SenseIf(env, w, kind, needed, input);
            && Inv(env, r) && Settled(r)
            && (r.open ==> w.open && r.clock == w.clock && forall other :: other != kind ==>
                 Of(r.s, other) == Of(w.s, other))
  {
    hide Inv, Settled, Sense, Due, Of;
    if needed {
      SenseInv(env, w, kind, Reading(input, kind));
    }
  }

  lemma PollSensorsInv(env: Env, w: World, input: LoopInput)
    requires Inv(env, w) && Settled(w)
    ensures Inv(env, PollSensors(env, w, input)) && Settled(PollSensors(env, w, input))
  {
    hide Inv, Settled, SenseIf, Due;
    if w.open && input.upSensors {
      assert Of(w.s, Ambient) == w.s.ambient && Of(w.s, Temperature) == w.s.temperature
             && Of(w.s, Humidity) == w.s.humidity;
      var needAmbient, needTemp, needHum :=
          Due(w.s.ambient, w.clock), Due(w.s.temperature, w.clock), Due(w.s.humidity, w.clock);
      hide Of;
      SenseIfInv(env, w, Ambient, needAmbient, input);
      var w1 := SenseIf(env, w, Ambient, needAmbient, input);
      SenseIfInv(env, w1, Temperature, needTemp, input);
      var w2 := SenseIf(env, w1, Temperature, needTemp, input);
      SenseIfInv(env, w2, Humidity, needHum, input);
    }
  }

  // ----- The main loop -----

  lemma PollIrInv(env: Env, w: World, input: LoopInput)
    requires Inv(env, w) && Settled(w)
    ensures Inv(env, PollIr(env, w, input)) && Settled(PollIr(env, w, input))
  {
    hide Inv, Settled, SendData, Captured, IrReceivePayload;
    if w.open && w.s.irReceive && input.decoded.Some? && Captured(env.rawTick, input.decoded.value).Some? {
      var c := Captured(env.rawTick, input.decoded.value).value;
      SendDataInv(env, w, IrReceive, IrReceivePayload(c.raw, c.overflow));
    }
  }

  lemma PollMicInv(env: Env, w: World, input: LoopInput)
    requires Inv(env, w) && Settled(w)
    ensures Inv(env, PollMic(env, w, input)) && Settled(PollMic(env, w, input))
  {
    hide Inv, Settled, SendData, PcmPayload, CompPayload, LouderSlot;
    if w.open && (w.s.micPcm || w.s.micComp) && input.mic.Some? {
      var samples := LouderSlot(input.mic.value);
      if w.s.micPcm {
        SendDataInv(env, w, MicPcm, PcmPayload(samples));
      }
      var w1 := if w.s.micPcm then SendData(env, w, MicPcm, PcmPayload(samples)) else w;
      if w1.open && w1.s.micComp && input.encoded.Some? {
        SendDataInv(env, w1, MicComp, CompPayload(input.encoded.value));
      }
    }
  }

  lemma AppLoopInv(env: Env, w: World, input: LoopInput)
    requires Inv(env, w) && Settled(w)
    ensures Inv(env, AppLoop(env, w, input)) && Settled(AppLoop(env, w, input))
  {
    ArriveInv(env, w, input);
    var w0 := Arrive(w, input);
    OpenInv(env, w0);
    assert Settled(w0) && Settled(Open(w0));
    hide Inv, Settled, Arrive, Open, PollRx, PollIr, PollSensors, PollMic;
    if w0.open && input.upLoop {
      PollRxInv(env, w0, input);
      var w1 := PollRx(env, w0, input);
      PollIrInv(env, w1, input);
      var w2 := PollIr(env, w1, input);
      PollSensorsInv(env, w2, input);
      PollMicInv(env, PollSensors(env, w2, input), input);
    }
  }

  /** Every state of every run satisfies the invariant, and no complete packet is ever left waiting between passes. */
  lemma {:induction false} RunInv(env: Env, inputs: seq<LoopInput>)
    ensures Inv(env, Run(env, inputs)) && Settled(Run(env, inputs))
  {
    if inputs == [] {
      InitialInv(env);
    } else {
      hide Inv, Settled, AppLoop;
      RunInv(env, inputs[..|inputs| - 1]);
      AppLoopInv(env, Run(env, inputs[..|inputs| - 1]), inputs[|inputs| - 1]);
    }
  }

  lemma InitialInv(env: Env)
    ensures Inv(env, Initial()) && Settled(Initial())
  {
    var w := Initial();
    forall stream ensures StreamInv(env, w, stream) {}
    forall kind ensures SensorInv(env, w, kind) {}
  }

  /** At every moment of every run the rules of the trace are obeyed. */
  lemma RunOrderly(env: Env, inputs: seq<LoopInput>, u: Trace)
    requires Within(u, Run(env, inputs).trace)
    ensures Orderly(env, u)
  {
    RunInv(env, inputs);
    hide EventOk, ControlInv, Run;
    OrderlyWithin(env, u, Run(env, inputs).trace);
  }

  /** Between any two passes of every run, the state is what the trace says. */
  lemma RunControl(env: Env, inputs: seq<LoopInput>, stream: Stream, kind: SensorKind)
    ensures StreamInv(env, Run(env, inputs), stream) && SensorInv(env, Run(env, inputs), kind)
    ensures ResetWhenClosed(Run(env, inputs))
  {
    RunInv(env, inputs);
    hide StreamInv, SensorInv, ResetWhenClosed, Run, Orderly, BufferInv;
  }
}
