/** The exception in the spacing of sensor readings: a stamp of exactly 0 counts as none. */
module StampZero {
  import opened Bytes
  import opened Protocol
  import opened Parsing
  import opened Transmit
  import opened Session
  import opened History
  import opened Reactions
  import Host
  import Reception
  import Emission
  import EndToEnd

  const AROUND := 0x1_0000_0000

  /** The light sensor is ready, and every packet goes out whole. */
  function WholeEnv(): Env {
    var whole := Tape(true, 0, (i: nat) => true, (i: nat) => 0x1_0000, (i: nat) => i);
    Env(false, false, true, false, false, false, false, 1, (x: real) => 0,
        (n: nat) => whole, (n: nat) => true, (n: nat) => None)
  }

  lemma WholeLink(n: nat, size: nat)
    requires 0 < size <= 0x1_0000
    ensures Accepted(WholeEnv().link(n), true, size) == size
    ensures WholeEnv().lightReady
  {
    assert Progress(WholeEnv().link(n), size, size, 1) == size;
  }

  /** Only the ambient light sensor is subscribed, and its stamp is 0. */
  predicate OnlyAmbient(w: World) {
    && w.open && w.s.ambient.enabled && w.s.ambient.lastMs == 0
    && !w.s.temperature.enabled && !w.s.humidity.enabled
  }

  /** A pass that looks at the sensors alone. */
  function SensorPass(elapsed: nat): LoopInput {
    Reception.Quiet([]).(elapsed := elapsed, upRx := false, upSensors := true)
  }

  lemma SenseGoesOut(w: World, reading: Option<real>)
    requires w.open
    ensures var e := SensedEvent(WholeEnv(), w, Ambient, reading);
            && e.kind == Ambient && e.time == w.clock && !ReportFailed(e)
  {
    var c := w.s.ambient;
    WholeLink(w.cursors.writes, 24);
    hide WholeEnv, Accepted, SensorPayload, TooClose;
  }

  /** The sensor is read, and unless the time of the pass is a multiple of 2^32, it keeps its stamp. */
  lemma SensorsRead(w: World, input: LoopInput)
    requires OnlyAmbient(w) && input.upSensors
    ensures var r := PollSensors(WholeEnv(), w, input);
            && r.trace == After(w.trace, SensedEvent(WholeEnv(), w, Ambient, input.lux))
            && SensedEvent(WholeEnv(), w, Ambient, input.lux).kind == Ambient
            && SensedEvent(WholeEnv(), w, Ambient, input.lux).time == r.clock == w.clock
            && (Wrap32(w.clock) == 0 ==> OnlyAmbient(r))
  {
    SenseGoesOut(w, input.lux);
    hide WholeEnv, SensedEvent, ReportFailed, Reset;
    assert PollSensors(WholeEnv(), w, input) == Sense(WholeEnv(), w, Ambient, input.lux);
  }

  lemma ProcessOne(env: Env, w: World, p: Packet)
    requires Legal(p) && w.s.rx == Frame(p)
    ensures ProcessRx(env, w) == Handle(env, w, p).(s := Handle(env, w, p).s.(rx := []))
  {
    FrontOfFrame(p, []);
    Emission.EmptyFront();
    hide Frame, FrontOf, Handle;
    assert Frame(p) + [] == Frame(p);
    var w1 := Consume(env, w);
    assert w1.s.rx == [];
    assert ProcessRx(env, w1) == w1;
  }

  /** A poll that meets one whole packet reacts to it and leaves the buffer empty. */
  lemma OnePacketPoll(env: Env, w: World, p: Packet, input: LoopInput)
    requires Legal(p) && w.open && w.s.rx == [] && w.inbox == Frame(p) && input.upRx && input.takes == []
    ensures var w1 := Receive(w, FrameSize(p));
            && w.inbox[..FrameSize(p)] == w1.s.rx == Frame(p)
            && PollRx(env, w, input) == Handle(env, w1, p).(s := Handle(env, w1, p).s.(rx := []))
  {
    hide Frame, Handle, ProcessRx, Drain, Receive;
    ReceiveFrame(w, p);
    Reception.DrainExact(RX_BUFFER_SIZE, FrameSize(p), []);
    assert PollRx(env, w, input) == ProcessRx(env, Receive(w, FrameSize(p)));
    hide PollRx;
    ProcessOne(env, Receive(w, FrameSize(p)), p);
  }

  lemma ReceiveFrame(w: World, p: Packet)
    requires Legal(p) && w.s.rx == [] && w.inbox == Frame(p)
    ensures w.inbox[..FrameSize(p)] == Receive(w, FrameSize(p)).s.rx == Frame(p)
  {
    hide Frame;
    assert w.inbox[..FrameSize(p)] == Frame(p);
  }

  /** A client whose first packet is a Subscribe is subscribed when the sensors' turn comes. */
  lemma Subscribes(w: World, p: Packet, input: LoopInput)
    requires p.typ == SUBSCRIBE && |p.payload| == 8 && Legal(p) && Accepts(WholeEnv(), p, Sensor(Ambient))
    requires w.open && w.s == Reset(w.s) && w.inbox == Frame(p) && input.upRx && input.takes == []
    ensures var r := PollRx(WholeEnv(), w, input);
            && OnlyAmbient(r) && r.clock == w.clock && r.trace.After? && r.trace.last.Handled?
                 && r.trace.last.packet == p
            && r.trace.before == After(w.trace, Received(Frame(p)))
  {
    var env := WholeEnv();
    assert w.s.rx == [] && !w.s.temperature.enabled && !w.s.humidity.enabled;
    hide WholeEnv, Frame, React, Accepts, PollRx, Reset;
    OnePacketPoll(env, w, p, input);
    var w1 := Receive(w, FrameSize(p));
    ReactSensor(env, w1.s, w1.cursors, p, Ambient);
    ReactOthers(env, w1.s, w1.cursors, p);
  }

  lemma ReactOthers(env: Env, s: State, c: Cursors, p: Packet)
    requires p.typ == SUBSCRIBE && Accepts(env, p, Sensor(Ambient))
    ensures var r := React(env, s, c, p).s;
            r.temperature == s.temperature && r.humidity == s.humidity
  {
    hide React;
    ReactSensor(env, s, c, p, Temperature);
    ReactSensor(env, s, c, p, Humidity);
    if Accepts(env, p, Sensor(Temperature)) { CodeInjective(Sensor(Ambient), Sensor(Temperature)); }
    if Accepts(env, p, Sensor(Humidity)) { CodeInjective(Sensor(Ambient), Sensor(Humidity)); }
  }

  function SubscribePass(bytes: seq<byte>): LoopInput {
    Reception.Quiet(bytes).(elapsed := AROUND, upSensors := true)
  }

  /** A client is accepted, these bytes arrive as the clock comes round to 0, and a millisecond passes. */
  function AroundZero(bytes: seq<byte>): seq<LoopInput> {
    [Reception.Quiet([]).(incoming := true), SubscribePass(bytes), SensorPass(1)]
  }

  lemma AroundZeroRuns(env: Env, bytes: seq<byte>)
    ensures var w := AppLoop(env, Initial(), Reception.Quiet([]).(incoming := true));
            && w.open && w.inbox == [] && w.s == Reset(w.s) && w.clock == 0 && w.trace == After(Boot, Opened)
            && Run(env, AroundZero(bytes)) == AppLoop(env, AppLoop(env, w, SubscribePass(bytes)), SensorPass(1))
  {
    hide AppLoop, Initial, Run, Reception.Quiet, SubscribePass, SensorPass, Reset;
    RunThree(env, Reception.Quiet([]).(incoming := true), SubscribePass(bytes), SensorPass(1));
    Reception.AcceptFirst(env);
    AcceptedReset(env);
  }

  /** A reading `e` after `u` that comes a millisecond after the one before it, although `intervalMs` was asked for. */
  ghost predicate Unspaced(env: Env, u: Trace, e: Event, intervalMs: uint16) {
    && e.Sensed? && Connected(u) && Requested(env, u, e.kind).intervalMs == GrantedMs(e.kind, intervalMs)
    && Stamp(env, u, e.kind).Some? && Wrap32(Stamp(env, u, e.kind).value) == 0
    && e.time == Stamp(env, u, e.kind).value + 1
  }

  /** The spacing of readings really fails there, for every interval: a client subscribes in the pass in which
      `millis()` is back at 0, so the first reading is stamped 0, and the next one follows a millisecond later. */
  lemma StampZeroUnspaced(intervalMs: uint16)
    ensures exists env: Env, inputs: seq<LoopInput>, u: Trace, e: Event ::
              Within(After(u, e), Run(env, inputs).trace) && Unspaced(env, u, e, intervalMs)
  {
    var p := Host.BuildSubscribe(AMBIENT_LIGHT, intervalMs, 0, 1).packet;
    assert Legal(p) && |p.payload| == 8 && p.typ == SUBSCRIBE;
    var inputs := AroundZero(Frame(p));
    hide *;
    EndToEnd.SubscribeUnderstood(WholeEnv(), AMBIENT_LIGHT, intervalMs, 0, 1, Sensor(Ambient));
    LightAvailable();
    EarlyReading(p, intervalMs);
    var t := Run(WholeEnv(), inputs).trace;
    WithinItself(t);
    assert Within(After(t.before, t.last), Run(WholeEnv(), inputs).trace)
           && Unspaced(WholeEnv(), t.before, t.last, intervalMs);
  }

  lemma LightAvailable()
    ensures Available(WholeEnv(), Sensor(Ambient)) && Code(Sensor(Ambient)) == AMBIENT_LIGHT
  {
  }

  lemma WithinItself(t: Trace)
    requires t.After?
    ensures Within(After(t.before, t.last), t)
  {
  }

  lemma EarlyReading(p: Packet, intervalMs: uint16)
    requires p.typ == SUBSCRIBE && |p.payload| == 8 && Legal(p)
    requires Accepts(WholeEnv(), p, Sensor(Ambient)) && Wanted(p).0 == intervalMs
    ensures var t := Run(WholeEnv(), AroundZero(Frame(p))).trace;
            t.After? && Unspaced(WholeEnv(), t.before, t.last, intervalMs)
  {
    hide Frame, AppLoop, Initial, Run, WholeEnv, Accepts, Reception.Quiet, SubscribePass, SensorPass, AroundZero;
    hide Reset, Wanted, OnlyAmbient, Requested, Stamp;
    var env := WholeEnv();
    AroundZeroRuns(env, Frame(p));
    var w1 := AppLoop(env, Initial(), Reception.Quiet([]).(incoming := true));
    FirstReading(w1, p);
    var w2 := AppLoop(env, w1, SubscribePass(Frame(p)));
    SecondReading(w2);
    TwoReadings(env, w1.trace, p, w2.trace.before.last, w2.trace.last, intervalMs);
  }

  lemma RunThree(env: Env, a: LoopInput, b: LoopInput, c: LoopInput)
    ensures Run(env, [a, b, c]) == AppLoop(env, AppLoop(env, AppLoop(env, Initial(), a), b), c)
  {
    hide AppLoop, Initial;
    Reception.RunTwo(env, a, b);
    assert [a, b, c][..2] == [a, b];
  }

  lemma AcceptedReset(env: Env)
    ensures var w := AppLoop(env, Initial(), Reception.Quiet([]).(incoming := true)); w.s == Reset(w.s) && w.clock == 0
  {
  }

  lemma FirstReading(w: World, p: Packet)
    requires p.typ == SUBSCRIBE && |p.payload| == 8 && Legal(p) && Accepts(WholeEnv(), p, Sensor(Ambient))
    requires w.open && w.s == Reset(w.s) && w.inbox == [] && w.clock == 0
    ensures var r := AppLoop(WholeEnv(), w, SubscribePass(Frame(p)));
            && OnlyAmbient(r) && r.clock == AROUND
            && r.trace.After? && r.trace.last.Sensed? && r.trace.last.kind == Ambient && r.trace.last.time == AROUND
            && r.trace.before.After? && r.trace.before.last.Handled? && r.trace.before.last.packet == p
            && r.trace.before.before == After(w.trace, Received(Frame(p)))
  {
    hide WholeEnv, Frame, Accepts, Reset, PollRx, PollSensors, OnlyAmbient;
    var input := SubscribePass(Frame(p));
    var w0 := Arrive(w, input);
    assert [] + Frame(p) == Frame(p);
    Subscribes(w0, p, input);
    var w1 := PollRx(WholeEnv(), w0, input);
    SensorsRead(w1, input);
    assert AppLoop(WholeEnv(), w, input) == PollSensors(WholeEnv(), w1, input);
  }

  lemma SecondReading(w: World)
    requires OnlyAmbient(w) && w.clock == AROUND
    ensures var r := AppLoop(WholeEnv(), w, SensorPass(1));
            r.trace.After? && r.trace.before == w.trace && r.trace.last.Sensed? && r.trace.last.kind == Ambient
            && r.trace.last.time == AROUND + 1
  {
    hide WholeEnv, PollSensors;
    var input := SensorPass(1);
    SensorsRead(Arrive(w, input), input);
    assert AppLoop(WholeEnv(), w, input) == PollSensors(WholeEnv(), Arrive(w, input), input);
  }

  /** What the trace says once the first reading has been taken. */
  lemma TwoReadings(env: Env, t: Trace, p: Packet, answered: Event, first: Event, intervalMs: uint16)
    requires Legal(p) && t.After? && t.last == Opened && Accepts(env, p, Sensor(Ambient)) && Wanted(p).0 == intervalMs
    requires answered.Handled? && answered.packet == p
    requires first.Sensed? && first.kind == Ambient && first.time == AROUND
    ensures var u := After(After(After(t, Received(Frame(p))), answered), first);
            && Connected(u) && Stamp(env, u, Ambient) == Some(AROUND)
            && Requested(env, u, Ambient).intervalMs == GrantedMs(Ambient, intervalMs)
  {
    hide Accepts, Wanted, Frame, GrantedMs;
    var v := After(After(t, Received(Frame(p))), answered);
    assert Connected(t) && Connected(v.before) && Connected(v);
    assert Requested(env, v, Ambient).intervalMs == GrantedMs(Ambient, intervalMs);
  }
}
