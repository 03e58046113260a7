/** Main results about what the firmware puts on the wire, and what the host makes of it. */
module Emission {
  import opened Bytes
  import opened Protocol
  import opened Parsing
  import opened Session
  import opened Transmit
  import opened History
  import opened Invariant
  import Reactions
  import Reception

  // ----- The wire -----

  /** The one send of an event, if it made one. */
  function SendOf(e: Event): Option<Sent> {
    match e
    case Handled(_, _, reply) => reply
    case Data(_, sent) => Some(sent)
    case Sensed(_, _, _, _, report) => report
    case _ => None
  }

  function AcceptedBytes(sent: Sent): seq<byte> {
    if SentOk(sent) then Frame(sent.packet)[..sent.accepted] else []
  }

  /** Every byte the socket accepted in the latest session. */
  function Wire(t: Trace): seq<byte> {
    match t
    case Boot => []
    case After(before, e) =>
      if e.Opened? then []
      else if SendOf(e).Some? then Wire(before) + AcceptedBytes(SendOf(e).value)
      else Wire(before)
  }

  /** The packets accepted as a whole in the latest session. */
  function Delivered(t: Trace): seq<Packet> {
    match t
    case Boot => []
    case After(before, e) =>
      if e.Opened? then []
      else if SendOf(e).Some? && !Failed(SendOf(e).value) then Delivered(before) + [SendOf(e).value.packet]
      else Delivered(before)
  }

  /** The accepted parts of packets that were cut short in the latest session. */
  function TornTail(t: Trace): seq<byte> {
    match t
    case Boot => []
    case After(before, e) =>
      if e.Opened? then []
      else if SendOf(e).Some? && Failed(SendOf(e).value) then TornTail(before) + AcceptedBytes(SendOf(e).value)
      else TornTail(before)
  }

  /** In the latest session no byte was accepted after a packet that was torn. */
  predicate Unmangled(t: Trace) {
    match t
    case Boot => true
    case After(before, e) =>
      e.Opened? || (Unmangled(before) && (SendOf(e).Some? && SendOf(e).value.accepted > 0 ==> TornTail(before) == []))
  }

  /** A reply or a MicComp packet that was torn: the failures the firmware does not act upon. */
  predicate LooseTear(e: Event) {
    SendOf(e).Some? && Failed(SendOf(e).value) && SendOf(e).value.accepted > 0
    && (e.Handled? || (e.Data? && e.stream == MicComp))
  }

  predicate LooselyTorn(t: Trace) {
    match t
    case Boot => false
    case After(before, e) => !e.Opened? && (LooselyTorn(before) || LooseTear(e))
  }

  /** In the latest session no byte was accepted after a torn reply or a torn MicComp packet. */
  predicate QuietAfterTear(t: Trace) {
    match t
    case Boot => true
    case After(before, e) =>
      e.Opened?
      || (QuietAfterTear(before) && (SendOf(e).Some? && SendOf(e).value.accepted > 0 ==> !LooselyTorn(before)))
  }

  // ----- Framing -----

  lemma SentEventOk(env: Env, t: Trace, e: Event)
    requires EventOk(env, t, e) && SendOf(e).Some?
    ensures SentOk(SendOf(e).value)
    ensures !Connected(t) ==>
              SendOf(e).value.accepted == 0 && FlowOf(e) == Some(Flow(FlowOf(e).value.stream, SendOf(e).value))
    ensures !e.Handled? ==> FlowOf(e).Some? && FlowOf(e).value.sent == SendOf(e).value
    ensures e.Handled? ==> FlowOf(e).None?
  {
    hide AnsweredWell, Timely, HeldBack, Subscribed, Parse, SensorPayload;
  }

  lemma {:induction false} DeliveredLegal(env: Env, t: Trace)
    requires Orderly(env, t)
    ensures AllLegal(Delivered(t)) && AllKnown(Delivered(t))
  {
    hide EventOk, KnownType;
    if t.After? {
      DeliveredLegal(env, t.before);
      if SendOf(t.last).Some? {
        SentEventOk(env, t.before, t.last);
      }
    }
  }

  lemma PartOfFrame(sent: Sent)
    requires SentOk(sent)
    ensures if Failed(sent) then AcceptedBytes(sent) == [] || Torn(AcceptedBytes(sent))
            else AcceptedBytes(sent) == Frame(sent.packet)
  {
    hide Frame;
    assert |AcceptedBytes(sent)| == sent.accepted;
  }

  /** The shape of the wire: whole frames, then what is left of one that was cut short. */
  ghost predicate Shaped(t: Trace) {
    AllLegal(Delivered(t))
    && Wire(t) == Frames(Delivered(t)) + TornTail(t)
    && (TornTail(t) == [] || Torn(TornTail(t)))
  }

  lemma JoinEmpty(a: seq<byte>, b: seq<byte>, c: seq<byte>)
    ensures (a + b) + c == a + (b + c)
    ensures [] + c == c && b + [] == b && a + [] == a
  {
  }

  lemma SendShaped(t: Trace, e: Event, sent: Sent)
    requires Shaped(t) && SendOf(e) == Some(sent) && SentOk(sent) && (sent.accepted > 0 ==> TornTail(t) == [])
    ensures Shaped(After(t, e))
  {
    FramesPush(Delivered(t), sent.packet);
    PartOfFrame(sent);
    var b := AcceptedBytes(sent);
    assert sent.accepted == 0 ==> b == [];
    assert sent.accepted == 0 ==> Failed(sent);
    hide Frame, Frames, AcceptedBytes, SentOk, Torn, Failed;
    JoinEmpty(Frames(Delivered(t)), TornTail(t), b);
  }

  lemma {:induction false} WireShape(env: Env, t: Trace)
    requires Orderly(env, t) && Unmangled(t)
    ensures Shaped(t)
  {
    hide EventOk, SentOk, Frame;
    if t.Boot? || t.last.Opened? {
      assert Frames([]) + [] == [];
    } else {
      WireShape(env, t.before);
      if SendOf(t.last).Some? {
        SentEventOk(env, t.before, t.last);
        SendShaped(t.before, t.last, SendOf(t.last).value);
      }
    }
  }

  /** While a session is open, its tears are those the firmware did not act upon. */
  lemma {:induction false} OpenTears(env: Env, t: Trace)
    requires Orderly(env, t) && Connected(t) && !MustClose(t)
    ensures TornTail(t) != [] <==> LooselyTorn(t)
  {
    hide AnsweredWell, Timely, HeldBack, Subscribed, Parse, SensorPayload, Attempts, KnownType, Frame;
    if !t.last.Opened? {
      OpenTears(env, t.before);
      if SendOf(t.last).Some? {
        SentEventOk(env, t.before, t.last);
        assert |AcceptedBytes(SendOf(t.last).value)| == SendOf(t.last).value.accepted;
      }
    }
  }

  /** Exactly when bytes follow a torn packet: any other failed send ends the session, after which no byte is
      accepted. */
  lemma {:induction false} UnmangledExactly(env: Env, t: Trace)
    requires Orderly(env, t)
    ensures Unmangled(t) <==> QuietAfterTear(t)
  {
    hide AnsweredWell, Timely, HeldBack, Subscribed, Parse, SensorPayload, Attempts, Legal, KnownType;
    if t.After? && !t.last.Opened? {
      UnmangledExactly(env, t.before);
      if SendOf(t.last).Some? && SendOf(t.last).value.accepted > 0 {
        SentEventOk(env, t.before, t.last);
        OpenTears(env, t.before);
      }
    }
  }

  /** Outgoing framing, over every run: as long as no byte is accepted after a torn reply or a torn MicComp packet,
      the bytes accepted in a session are whole frames and at most one torn one at the end, and the host reads exactly
      the whole packets and refuses nothing. */
  lemma OutgoingFraming(env: Env, inputs: seq<LoopInput>)
    requires QuietAfterTear(Run(env, inputs).trace)
    ensures var t := Run(env, inputs).trace;
            && AllLegal(Delivered(t))
            && Wire(t) == Frames(Delivered(t)) + TornTail(t)
            && (TornTail(t) == [] || Torn(TornTail(t)))
            && ReadAll(Wire(t)) == HostSession(Delivered(t), false)
  {
    var t := Run(env, inputs).trace;
    RunOrderly(env, inputs, t);
    UnmangledExactly(env, t);
    WireShape(env, t);
    DeliveredLegal(env, t);
    ReadFrames(Delivered(t), TornTail(t));
  }

  /** Over every run, the condition is exact: bytes follow a torn packet in a session exactly if they follow a torn
      reply or a torn MicComp packet. In particular they do not if neither was torn at all; and while such a session
      is open its wire is whole frames only. */
  lemma MangledExactly(env: Env, inputs: seq<LoopInput>)
    ensures var w := Run(env, inputs);
            && (Unmangled(w.trace) <==> QuietAfterTear(w.trace))
            && (w.open ==> (TornTail(w.trace) == [] <==> !LooselyTorn(w.trace)))
            && (!LooselyTorn(w.trace) ==> QuietAfterTear(w.trace))
  {
    OpenOrderly(env, inputs);
    var w := Run(env, inputs);
    hide *;
    UnmangledExactly(env, w.trace);
    if !LooselyTorn(w.trace) {
      NeverTorn(w.trace);
    }
    if w.open {
      OpenTears(env, w.trace);
    }
  }

  lemma OpenOrderly(env: Env, inputs: seq<LoopInput>)
    ensures var w := Run(env, inputs);
            Orderly(env, w.trace) && !MustClose(w.trace) && w.open == Connected(w.trace)
  {
    RunInv(env, inputs);
    hide Run, Orderly, MustClose, StreamInv, SensorInv, BufferInv;
  }

  lemma {:induction false} NeverTorn(t: Trace)
    requires !LooselyTorn(t)
    ensures QuietAfterTear(t)
  {
    hide LooseTear;
    if t.After? && !t.last.Opened? {
      NeverTorn(t.before);
    }
  }

  /** A session is closed for a failed send exactly when the latest event is a data packet, other than MicComp, that was
      not accepted as a whole; between passes of the main loop no such failure is left unanswered. */
  lemma FailureEndsSession(env: Env, inputs: seq<LoopInput>, u: Trace, e: Event)
    requires Within(After(u, e), Run(env, inputs).trace)
    ensures e == Closed(SendFailed) <==> MustClose(u)
    ensures !MustClose(Run(env, inputs).trace)
  {
    hide AnsweredWell, Numbered, Timely, HeldBack, Subscribed, Parse, SensorPayload, Run;
    RunOrderly(env, inputs, After(u, e));
    RunInv(env, inputs);
  }

  // ----- A torn reply does not end the session -----

  /** A socket on which the first packet is cut after `k` bytes and every later one goes out whole. */
  function CuttingEnv(k: nat): Env {
    var cut := Tape(true, 0, (i: nat) => i == 0, (i: nat) => Max(1, k), (i: nat) => i);
    var whole := Tape(true, 0, (i: nat) => true, (i: nat) => 0x1_0000, (i: nat) => i);
    Env(false, false, false, false, false, false, false, 1, (x: real) => 0,
        (n: nat) => if n == 0 then cut else whole, (n: nat) => true, (n: nat) => None)
  }

  lemma CuttingLink(k: nat, size: nat)
    requires 0 < k < size <= 0x1_0000
    ensures Accepted(CuttingEnv(k).link(0), true, size) == k
    ensures Accepted(CuttingEnv(k).link(1), true, size) == size
  {
    var cut, whole := CuttingEnv(k).link(0), CuttingEnv(k).link(1);
    assert Progress(cut, size, k, 1) == k;
    assert Progress(whole, size, size, 1) == size;
  }

  /** A client is accepted, and then these bytes arrive. */
  function AcceptThen(bytes: seq<byte>): seq<LoopInput> {
    [Reception.Quiet([]).(incoming := true), Reception.Quiet(bytes)]
  }

  lemma AcceptThenRuns(env: Env, bytes: seq<byte>)
    ensures var w := AppLoop(env, Initial(), Reception.Quiet([]).(incoming := true));
            && w.open && w.s.rx == [] && w.inbox == [] && w.cursors.writes == 0 && w.trace == After(Boot, Opened)
            && Run(env, AcceptThen(bytes)) == AppLoop(env, w, Reception.Quiet(bytes))
  {
    hide AppLoop, Initial, Run, Reception.Quiet;
    Reception.RunTwo(env, Reception.Quiet([]).(incoming := true), Reception.Quiet(bytes));
    Reception.AcceptFirst(env);
  }

  /** The reply to the first of two equal Heartbeats is torn after `k` bytes, and the second is answered all the
      same. */
  lemma CutSession(p: Packet, k: nat)
    requires Legal(p) && p == HeartbeatReply(p.id) && 0 < k < 16
    ensures var w := Run(CuttingEnv(k), AcceptThen(Frame(p) + Frame(p)));
            && w.open && !QuietAfterTear(w.trace)
            && Wire(w.trace) == Frame(p)[..k] + Frame(p) && Delivered(w.trace) == [p]
  {
    hide AppLoop, Initial, Run, Reception.Quiet, AcceptThen, Frame, CuttingEnv, Wire, QuietAfterTear, Delivered;
    AcceptThenRuns(CuttingEnv(k), Frame(p) + Frame(p));
    TwoHeartbeats(CuttingEnv(k), AppLoop(CuttingEnv(k), Initial(), Reception.Quiet([]).(incoming := true)), p, k);
  }

  /** The condition of `OutgoingFraming` is needed: the repository's README promises that a failed send ends the
      session, but two heartbeats suffice to make the firmware send on after a torn reply, and the host refuses the
      stream. */
  lemma TornReplyMangles()
    ensures exists env: Env, inputs: seq<LoopInput> ::
              var w := Run(env, inputs);
              w.open && !QuietAfterTear(w.trace) && ReadAll(Wire(w.trace)).refused
  {
    var p := HeartbeatReply(7);
    assert Legal(p);
    hide Run, QuietAfterTear, ReadAll, Wire, AcceptThen, CuttingEnv, Frame, Delivered;
    CutSession(p, 1);
    MangledWire(p);
    var env, inputs := CuttingEnv(1), AcceptThen(Frame(p) + Frame(p));
    assert Run(env, inputs).open && !QuietAfterTear(Run(env, inputs).trace)
           && ReadAll(Wire(Run(env, inputs).trace)).refused;
  }

  /** It is not necessary byte for byte: a torn Heartbeat whose identifier is the magic number, followed by the same
      Heartbeat, happens to look to the host like the one that was delivered. */
  lemma TornReplyUnnoticed()
    ensures exists env: Env, inputs: seq<LoopInput> ::
              var w := Run(env, inputs);
              w.open && !QuietAfterTear(w.trace) && ReadAll(Wire(w.trace)) == HostSession(Delivered(w.trace), false)
  {
    var p := HeartbeatReply(MAGIC);
    assert Legal(p) && p == Packet(0, HEARTBEAT, MAGIC, []);
    hide Run, QuietAfterTear, ReadAll, Wire, AcceptThen, CuttingEnv, Frame, Delivered;
    CutSession(p, 12);
    AccidentalFrame(p, p);
    var env, inputs := CuttingEnv(12), AcceptThen(Frame(p) + Frame(p));
    assert Run(env, inputs).open && !QuietAfterTear(Run(env, inputs).trace)
           && ReadAll(Wire(Run(env, inputs).trace)) == HostSession(Delivered(Run(env, inputs).trace), false);
  }

  lemma TwoHeartbeats(env: Env, w: World, p: Packet, k: nat)
    requires 0 < k < 16 && env == CuttingEnv(k) && Legal(p) && p == HeartbeatReply(p.id)
    requires w.open && w.s.rx == [] && w.inbox == [] && w.cursors.writes == 0 && w.trace == After(Boot, Opened)
    ensures var r := AppLoop(env, w, Reception.Quiet(Frame(p) + Frame(p)));
            && r.open && !QuietAfterTear(r.trace)
            && Wire(r.trace) == Frame(p)[..k] + Frame(p) && Delivered(r.trace) == [p]
  {
    hide Frame, FrontOf, CuttingEnv, Accepted;
    var bytes := Frame(p) + Frame(p);
    var w0 := Arrive(w, Reception.Quiet(bytes));
    Reception.DrainExact(RX_BUFFER_SIZE, |bytes|, []);
    var w1 := Receive(w0, |bytes|);
    assert w0.inbox == bytes && bytes[..|bytes|] == bytes && w1.s.rx == bytes;
    FrontOfFrame(p, Frame(p));
    FrontOfFrame(p, []);
    assert Frame(p) + [] == Frame(p);
    CuttingLink(k, 16);
    var w2 := Consume(env, w1);
    assert w2.s.rx == Frame(p) && w2.open && w2.cursors.writes == 1;
    assert w2.trace == After(w1.trace, Handled(p, Nothing, Some(Sent(p, k))));
    var w3 := Consume(env, w2);
    assert w3.s.rx == [] && w3.open;
    assert w3.trace == After(w2.trace, Handled(p, Nothing, Some(Sent(p, 16))));
    EmptyFront();
    assert ProcessRx(env, w1) == ProcessRx(env, w2) == ProcessRx(env, w3) == w3;
    assert PollRx(env, w0, Reception.Quiet(bytes)) == w3;
    TornThenWhole(w1.trace, p, k);
  }

  lemma EmptyFront()
    ensures FrontOf([]).Incomplete?
  {
  }

  lemma TornThenWhole(t: Trace, p: Packet, k: nat)
    requires 0 < k < 16 && Legal(p) && p == HeartbeatReply(p.id)
    requires Wire(t) == [] && TornTail(t) == [] && Delivered(t) == []
    ensures var r := After(After(t, Handled(p, Nothing, Some(Sent(p, k)))), Handled(p, Nothing, Some(Sent(p, 16))));
            && !QuietAfterTear(r) && Wire(r) == Frame(p)[..k] + Frame(p) && Delivered(r) == [p]
  {
    hide Frame;
    assert Frame(p)[..16] == Frame(p);
  }

  lemma MangledWire(p: Packet)
    requires p == HeartbeatReply(7)
    ensures ReadAll(Frame(p)[..1] + Frame(p)).refused
  {
    var f := Frame(p);
    assert f[..4] == U32(MAGIC) == [0x31, 0x50, 0x53, 0x57];
    assert f[0] == 0x31 && f[1] == 0x50 && f[2] == 0x53;
    var b := f[..1] + f;
    assert b[0] == 0x31 && b[1] == 0x31 && b[2] == 0x50 && b[3] == 0x53;
    assert ReadPacket(b) == Refused;
  }

  // ----- Sequence numbers -----

  /** The identifier of the last packet of a type in a list, as the host's `last_seq` holds it. */
  function LastSequence(ps: seq<Packet>, typ: uint16): Option<uint32> {
    if ps == [] then None
    else if ps[|ps| - 1].typ == typ then Some(ps[|ps| - 1].id)
    else LastSequence(ps[..|ps| - 1], typ)
  }

  /** `check_sequence` reports a jump when `p` follows `ps`. */
  predicate Warns(ps: seq<Packet>, p: Packet) {
    var last := LastSequence(ps, p.typ);
    last.Some? && p.id != Wrap32(last.value + 1)
  }

  /** The numbers of a stream's whole packets in the latest session. */
  function Numbers(t: Trace, stream: Stream): seq<uint32> {
    match t
    case Boot => []
    case After(before, e) =>
      if e.Opened? then []
      else if FlowOf(e).Some? && FlowOf(e).value.stream == stream && !Failed(FlowOf(e).value.sent) then
        Numbers(before, stream) + [FlowOf(e).value.sent.packet.id]
      else Numbers(before, stream)
  }

  lemma FlowStep(env: Env, t: Trace, e: Event, stream: Stream)
    requires EventOk(env, t, e) && FlowOf(e).Some? && FlowOf(e).value.stream == stream
    ensures var sent := FlowOf(e).value.sent;
            && sent.packet.typ == Code(stream) && sent.packet.id == Wrap32(Attempts(t, stream))
            && (!Connected(t) ==> Failed(sent)) && SendOf(e) == Some(sent)
  {
    hide AnsweredWell, Timely, HeldBack, Subscribed, Parse, SensorPayload;
  }

  /** Whole packets of every stream but MicComp are numbered 0, 1, 2, ... modulo 2^32, without a gap. */
  lemma {:induction false} ConsecutiveNumbers(env: Env, t: Trace, stream: Stream)
    requires Orderly(env, t) && stream != MicComp
    ensures forall i :: 0 <= i < |Numbers(t, stream)| ==> Numbers(t, stream)[i] == Wrap32(i)
    ensures Connected(t) && !MustClose(t) ==> |Numbers(t, stream)| == Attempts(t, stream)
  {
    if t.After? {
      ConsecutiveNumbers(env, t.before, stream);
      var e := t.last;
      if FlowOf(e).Some? && FlowOf(e).value.stream == stream {
        FlowStep(env, t.before, e, stream);
      }
      hide AnsweredWell, Timely, HeldBack, Subscribed, Parse, SensorPayload;
    }
  }

  /** MicComp packets that failed since the last whole one. */
  function Skipped(t: Trace): nat {
    match t
    case Boot => 0
    case After(before, e) =>
      if e.Opened? then 0
      else if FlowOf(e).Some? && FlowOf(e).value.stream == MicComp then
        if Failed(FlowOf(e).value.sent) then Skipped(before) + 1 else 0
      else Skipped(before)
  }

  lemma WrapSucc(a: int, b: int)
    requires Wrap32(a) == Wrap32(b)
    ensures Wrap32(a + 1) == Wrap32(b + 1)
  {
  }

  lemma WrapShift(n: nat, d: nat)
    ensures Wrap32(n + d) == Wrap32(n) <==> Wrap32(d) == 0
  {
    var q, r := d / 0x1_0000_0000, Wrap32(d);
    assert n + d == n + r + 0x1_0000_0000 * q;
    WrapMultiple(n + r, q);
    var m := Wrap32(n);
    assert n == m + 0x1_0000_0000 * (n / 0x1_0000_0000);
    WrapMultiple(m + r, n / 0x1_0000_0000);
  }

  lemma WrapMultiple(n: nat, q: nat)
    ensures Wrap32(n + 0x1_0000_0000 * q) == Wrap32(n)
  {
  }

  lemma SkipStep(last: uint32, n: nat, skipped: nat)
    requires Wrap32(n) == Wrap32(last + 1 + skipped)
    ensures Wrap32(n + 1) == Wrap32(last + 1 + (skipped + 1))
    ensures Wrap32(n) == Wrap32(last + 1) <==> Wrap32(skipped) == 0
  {
    WrapSucc(n, last + 1 + skipped);
    WrapShift(last + 1, skipped);
  }

  /** Each failed MicComp packet skips one number. */
  lemma {:induction false} SkippedNumbers(env: Env, t: Trace)
    requires Orderly(env, t) && Connected(t)
    ensures var ns := Numbers(t, MicComp);
            ns != [] ==> Wrap32(Attempts(t, MicComp)) == Wrap32(ns[|ns| - 1] + 1 + Skipped(t))
  {
    if !t.last.Opened? {
      var before, e := t.before, t.last;
      SkippedNumbers(env, before);
      var ns := Numbers(before, MicComp);
      if FlowOf(e).Some? && FlowOf(e).value.stream == MicComp {
        FlowStep(env, before, e, MicComp);
        if ns != [] {
          SkipStep(ns[|ns| - 1], Attempts(before, MicComp), Skipped(before));
        }
        WrapNext(Attempts(before, MicComp));
      }
    }
  }

  // ----- What the host's sequence check sees -----

  lemma LastPush(ps: seq<Packet>, p: Packet, typ: uint16)
    ensures LastSequence(ps + [p], typ) == if p.typ == typ then Some(p.id) else LastSequence(ps, typ)
  {
    assert (ps + [p])[..|ps|] == ps;
  }

  lemma {:induction false} LastOfStream(env: Env, t: Trace, stream: Stream)
    requires Orderly(env, t)
    ensures var ns := Numbers(t, stream);
            LastSequence(Delivered(t), Code(stream)) == if ns == [] then None else Some(ns[|ns| - 1])
  {
    hide EventOk, LastSequence, Failed, Code;
    if t.After? && !t.last.Opened? {
      var before, e := t.before, t.last;
      LastOfStream(env, before, stream);
      if SendOf(e).Some? {
        SendType(env, before, e, stream);
        LastPush(Delivered(before), SendOf(e).value.packet, Code(stream));
      }
    } else {
      assert LastSequence([], Code(stream)) == None by { NoLast(Code(stream)); }
    }
  }

  lemma NoLast(typ: uint16)
    ensures LastSequence([], typ) == None
  {
  }

  /** A packet has a stream's type exactly when it belongs to the stream: replies never do. */
  lemma SendType(env: Env, t: Trace, e: Event, stream: Stream)
    requires EventOk(env, t, e) && SendOf(e).Some?
    ensures SendOf(e).value.packet.typ == Code(stream) <==> FlowOf(e).Some? && FlowOf(e).value.stream == stream
    ensures FlowOf(e).Some? ==> FlowOf(e).value.sent == SendOf(e).value
  {
    if e.Handled? {
      assert SendOf(e).value.packet.typ in {ACK, ERROR, HEARTBEAT};
    } else {
      FlowStep(env, t, e, FlowOf(e).value.stream);
      if Code(FlowOf(e).value.stream) == Code(stream) {
        Reactions.CodeInjective(FlowOf(e).value.stream, stream);
      }
    }
  }

  lemma CheckAt(env: Env, u: Trace, e: Event)
    requires Orderly(env, u) && EventOk(env, u, e) && FlowOf(e).Some? && !Failed(FlowOf(e).value.sent)
    ensures var flow := FlowOf(e).value;
            && Connected(u) && !MustClose(u)
            && Delivered(After(u, e)) == Delivered(u) + [flow.sent.packet]
            && flow.sent.packet.id == Wrap32(Attempts(u, flow.stream)) && flow.sent.packet.typ == Code(flow.stream)
  {
    FlowStep(env, u, e, FlowOf(e).value.stream);
    hide AnsweredWell, Numbered, Timely, HeldBack, Subscribed, Parse, SensorPayload;
  }

  /** The host's sequence check on the packets of a session, at the moment `u` when `e` delivers a data packet: it
      never warns about any type but MicComp, and about MicComp exactly when a number was skipped since the last one
      received. */
  lemma SequenceCheck(env: Env, inputs: seq<LoopInput>, u: Trace, e: Event)
    requires Within(After(u, e), Run(env, inputs).trace)
    requires FlowOf(e).Some? && !Failed(FlowOf(e).value.sent)
    ensures var flow := FlowOf(e).value;
            && Delivered(After(u, e)) == Delivered(u) + [flow.sent.packet]
            && (flow.stream != MicComp ==> !Warns(Delivered(u), flow.sent.packet))
            && (flow.stream == MicComp ==>
                  (Warns(Delivered(u), flow.sent.packet) <==> Numbers(u, MicComp) != [] && Wrap32(Skipped(u)) != 0))
  {
    RunOrderly(env, inputs, After(u, e));
    SequenceCheckAt(env, u, e);
  }

  lemma SequenceCheckAt(env: Env, u: Trace, e: Event)
    requires Orderly(env, u) && EventOk(env, u, e) && FlowOf(e).Some? && !Failed(FlowOf(e).value.sent)
    ensures var flow := FlowOf(e).value;
            && Delivered(After(u, e)) == Delivered(u) + [flow.sent.packet]
            && (flow.stream != MicComp ==> !Warns(Delivered(u), flow.sent.packet))
            && (flow.stream == MicComp ==>
                  (Warns(Delivered(u), flow.sent.packet) <==> Numbers(u, MicComp) != [] && Wrap32(Skipped(u)) != 0))
  {
    hide EventOk, FlowOf, Failed, LastSequence, Code, Wrap32, Orderly, Attempts, Skipped;
    CheckAt(env, u, e);
    var flow := FlowOf(e).value;
    LastOfStream(env, u, flow.stream);
    var ns := Numbers(u, flow.stream);
    if flow.stream != MicComp {
      ConsecutiveNumbers(env, u, flow.stream);
      if ns != [] {
        WrapNext(|ns| - 1);
      }
    } else {
      SkippedNumbers(env, u);
      if ns != [] {
        SkipStep(ns[|ns| - 1], Attempts(u, MicComp), Skipped(u));
      }
    }
  }

  /** No MicComp packet of the latest session was lost. */
  predicate NoDrops(t: Trace) {
    match t
    case Boot => true
    case After(before, e) =>
      e.Opened?
      || (NoDrops(before)
          && (FlowOf(e).Some? && FlowOf(e).value.stream == MicComp ==> !Failed(FlowOf(e).value.sent)))
  }

  lemma {:induction false} NothingSkipped(t: Trace)
    requires NoDrops(t)
    ensures Skipped(t) == 0
  {
    hide FlowOf, Failed;
    if t.After? && !t.last.Opened? {
      NothingSkipped(t.before);
    }
  }

  /** No packet of the list makes the sequence check warn, except those of the types in `spared`. */
  predicate Silent(ps: seq<Packet>, spared: set<uint16>) {
    forall i :: 0 <= i < |ps| && ps[i].typ !in spared ==> !Warns(ps[..i], ps[i])
  }

  lemma SilentPush(ps: seq<Packet>, p: Packet, spared: set<uint16>)
    requires Silent(ps, spared) && (p.typ in spared || !Warns(ps, p))
    ensures Silent(ps + [p], spared)
  {
    hide Warns;
    var more := ps + [p];
    forall i | 0 <= i < |more| && more[i].typ !in spared ensures !Warns(more[..i], more[i]) {
      assert more[..i] == ps[..i];
      assert i == |ps| ==> ps[..i] == ps;
    }
  }

  lemma {:induction false} DeliveredSilent(env: Env, t: Trace, spared: set<uint16>)
    requires Orderly(env, t) && {ACK, ERROR, HEARTBEAT} <= spared && (MIC_COMP in spared || NoDrops(t))
    ensures Silent(Delivered(t), spared)
  {
    hide EventOk, Warns, Failed, Code;
    if t.After? && !t.last.Opened? {
      var before, e := t.before, t.last;
      DeliveredSilent(env, before, spared);
      if SendOf(e).Some? && !Failed(SendOf(e).value) {
        hide NoDrops;
        DeliveredQuietly(env, before, e, spared);
        SilentPush(Delivered(before), SendOf(e).value.packet, spared);
      }
    }
  }

  lemma DeliveredQuietly(env: Env, u: Trace, e: Event, spared: set<uint16>)
    requires Orderly(env, u) && EventOk(env, u, e) && SendOf(e).Some? && !Failed(SendOf(e).value)
    requires {ACK, ERROR, HEARTBEAT} <= spared && (MIC_COMP in spared || NoDrops(u))
    ensures SendOf(e).value.packet.typ in spared || !Warns(Delivered(u), SendOf(e).value.packet)
  {
    if e.Handled? {
      ReplyTypes(env, u, e);
    } else {
      SendType(env, u, e, MicComp);
      hide EventOk, Warns, Failed;
      FlowIsSend(e);
      SequenceCheckAt(env, u, e);
      if MIC_COMP !in spared {
        NothingSkipped(u);
      }
    }
  }

  lemma FlowIsSend(e: Event)
    requires SendOf(e).Some? && !e.Handled?
    ensures FlowOf(e).Some? && FlowOf(e).value.sent == SendOf(e).value
  {
  }

  lemma ReplyTypes(env: Env, u: Trace, e: Event)
    requires EventOk(env, u, e) && e.Handled? && SendOf(e).Some?
    ensures SendOf(e).value.packet.typ in {ACK, ERROR, HEARTBEAT}
  {
  }

  /** What the host sees of every session in which nothing follows a torn reply or MicComp packet: it reads exactly
      the packets delivered, and its sequence check never warns about any type but MicComp, nor about MicComp if no
      MicComp packet was lost. */
  lemma HostSeesNoGaps(env: Env, inputs: seq<LoopInput>)
    requires QuietAfterTear(Run(env, inputs).trace)
    ensures var t := Run(env, inputs).trace;
            var ps := ReadAll(Wire(t)).packets;
            && ps == Delivered(t)
            && Silent(ps, {MIC_COMP, ACK, ERROR, HEARTBEAT})
            && (NoDrops(t) ==> Silent(ps, {ACK, ERROR, HEARTBEAT}))
  {
    var t := Run(env, inputs).trace;
    OutgoingFraming(env, inputs);
    RunOrderly(env, inputs, t);
    hide Run, ReadAll, Orderly, Silent;
    DeliveredSilent(env, t, {MIC_COMP, ACK, ERROR, HEARTBEAT});
    if NoDrops(t) {
      DeliveredSilent(env, t, {ACK, ERROR, HEARTBEAT});
    }
  }
}
