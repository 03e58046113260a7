/** Main results about what the firmware receives, over every run of the main loop. */
module Reception {
  import opened Bytes
  import opened Protocol
  import opened Parsing
  import opened Drivers
  import opened Transmit
  import opened Session
  import opened History
  import opened Invariant

  // ----- Fragmentation independence -----

  /** However the bytes of a session arrive and are read, and whatever is sent meanwhile: between two passes of the
      main loop the packets dispatched are the ones a one-shot parser finds in all the bytes read, the buffer holds
      exactly the unparsed remainder, and no bad header has been read. */
  lemma DispatchedIsParsed(env: Env, inputs: seq<LoopInput>)
    requires Run(env, inputs).open
    ensures var w := Run(env, inputs);
            Parse(Inbound(w.trace)) == Parsed(Dispatched(w.trace), w.s.rx, false)
  {
    RunInv(env, inputs);
    var w := Run(env, inputs);
    assert Parse(w.s.rx) == Parsed([], w.s.rx, false);
    assert Dispatched(w.trace) + [] == Dispatched(w.trace);
  }

  /** Why the latest session ended: the first close after it was opened. */
  function Verdict(t: Trace): Option<Why> {
    match t
    case Boot => None
    case After(before, e) =>
      if e.Opened? then None
      else if e.Closed? && Verdict(before).None? then Some(e.why)
      else Verdict(before)
  }

  lemma {:induction false} VerdictHolds(env: Env, t: Trace)
    requires Orderly(env, t)
    ensures Dispatched(t) <= Parse(Inbound(t)).packets
    ensures Connected(t) ==> Verdict(t).None?
    ensures Verdict(t) == Some(BadHeader) ==>
              !Connected(t) && Parse(Inbound(t)).bad && Parse(Inbound(t)).packets == Dispatched(t)
  {
    hide AnsweredWell, Numbered, Timely, HeldBack, Parse;
    match t {
      case Boot =>
        ParseEmpty();
      case After(before, e) =>
        VerdictHolds(env, before);
        if e.Opened? {
          ParseEmpty();
        } else if e.Received? {
          ParseAppend(Inbound(before), e.bytes);
        }
    }
  }

  lemma ParseEmpty()
    ensures Parse([]) == Parsed([], [], false)
  {
  }

  /** The verdict of a session is the one-shot parser's: a session ended by a bad header had dispatched every packet
      before that header, a session that is still open has read none, and however a session ended, what it dispatched is
      an initial part of what its bytes mean. */
  lemma SessionVerdict(env: Env, inputs: seq<LoopInput>)
    ensures var t := Run(env, inputs).trace;
            && Dispatched(t) <= Parse(Inbound(t)).packets
            && (Verdict(t) == Some(BadHeader) ==> Parse(Inbound(t)).bad && Parse(Inbound(t)).packets == Dispatched(t))
            && (Run(env, inputs).open ==> Verdict(t).None? && !Parse(Inbound(t)).bad)
  {
    RunInv(env, inputs);
    VerdictHolds(env, Run(env, inputs).trace);
    if Run(env, inputs).open {
      DispatchedIsParsed(env, inputs);
    }
  }

  /** The session goes on, or was ended by a bad header: not by an overflow, a failed send or the loss of the client. */
  predicate Undisturbed(w: World) {
    w.open || Verdict(w.trace) == Some(BadHeader)
  }

  lemma UndisturbedParse(env: Env, inputs: seq<LoopInput>)
    requires Undisturbed(Run(env, inputs))
    ensures var w := Run(env, inputs);
            var parsed := Parse(Inbound(w.trace));
            && Dispatched(w.trace) == parsed.packets && w.open == !parsed.bad
            && w.s.rx == if w.open then parsed.rest else []
  {
    SessionVerdict(env, inputs);
    RunInv(env, inputs);
    hide Parse, StreamInv, SensorInv, Orderly, Verdict, Run;
    if Run(env, inputs).open {
      DispatchedIsParsed(env, inputs);
    }
  }

  // ----- No byte is lost, repeated or reordered -----

  /** What has been read in this session and what still waits to be. */
  function Carried(w: World): seq<byte> {
    Inbound(w.trace) + w.inbox
  }

  /** What is left of the stream is an initial part of it, and all of it if the session goes on. */
  predicate Carries(w: World, r: World) {
    Carried(r) <= Carried(w) && (r.open ==> w.open && Carried(r) == Carried(w))
  }

  lemma HandleCarries(env: Env, w: World, p: Packet)
    ensures Carries(w, Handle(env, w, p))
  {
    HandleShape(env, w, p);
    hide React;
  }

  lemma {:induction false} ProcessRxCarries(env: Env, w: World)
    ensures Carries(w, ProcessRx(env, w))
    decreases |w.s.rx|
  {
    hide FrontOf, Handle, Reset;
    if FrontOf(w.s.rx).Whole? {
      HandleCarries(env, w, FrontOf(w.s.rx).packet);
      ProcessRxCarries(env, Consume(env, w));
    }
  }

  lemma PollRxCarries(env: Env, w: World, input: LoopInput)
    ensures Carries(w, PollRx(env, w, input))
  {
    hide ProcessRx, Reset;
    if w.open && input.upRx {
      var d := Drain(Max(0, RX_BUFFER_SIZE - |w.s.rx|), |w.inbox|, input.takes);
      var w1 := Receive(w, d.count);
      assert w.inbox == w.inbox[..d.count] + w.inbox[d.count..];
      assert Carried(w1) == Carried(w);
      ProcessRxCarries(env, w1);
    }
  }

  lemma SendDataCarries(env: Env, w: World, stream: Stream, payload: seq<byte>)
    ensures Carries(w, SendData(env, w, stream, payload))
  {
    hide Send, NextSeq, Reset;
    assert Inbound(SendData(env, w, stream, payload).trace) == Inbound(w.trace);
  }

  lemma SenseIfCarries(env: Env, w: World, kind: SensorKind, needed: bool, input: LoopInput)
    ensures Carries(w, SenseIf(env, w, kind, needed, input))
  {
    hide SensedState, With, Reset, Send, TooClose;
    assert Inbound(SenseIf(env, w, kind, needed, input).trace) == Inbound(w.trace);
  }

  lemma PollsCarry(env: Env, w: World, input: LoopInput)
    ensures Carries(w, PollIr(env, w, input)) && Carries(w, PollSensors(env, w, input))
              && Carries(w, PollMic(env, w, input))
  {
    hide SendData, SenseIf, Captured, LouderSlot, PcmPayload, CompPayload, IrReceivePayload, Carried, Due;
    if input.decoded.Some? && Captured(env.rawTick, input.decoded.value).Some? {
      var c := Captured(env.rawTick, input.decoded.value).value;
      SendDataCarries(env, w, IrReceive, IrReceivePayload(c.raw, c.overflow));
    }
    if input.mic.Some? {
      var payload := PcmPayload(LouderSlot(input.mic.value));
      SendDataCarries(env, w, MicPcm, payload);
      if input.encoded.Some? {
        SendDataCarries(env, w, MicComp, CompPayload(input.encoded.value));
        SendDataCarries(env, SendData(env, w, MicPcm, payload), MicComp, CompPayload(input.encoded.value));
      }
    }
    var needAmbient, needTemp, needHum :=
        Due(w.s.ambient, w.clock), Due(w.s.temperature, w.clock), Due(w.s.humidity, w.clock);
    SenseIfCarries(env, w, Ambient, needAmbient, input);
    var s1 := SenseIf(env, w, Ambient, needAmbient, input);
    SenseIfCarries(env, s1, Temperature, needTemp, input);
    SenseIfCarries(env, SenseIf(env, s1, Temperature, needTemp, input), Humidity, needHum, input);
  }

  /** The pass accepts a new client. */
  predicate Accepting(w: World, input: LoopInput) {
    (!w.open || !input.upLoop) && input.incoming
  }

  /** Every byte that has arrived since the latest client was accepted. */
  function Arrivals(env: Env, inputs: seq<LoopInput>): seq<byte> {
    if inputs == [] then []
    else
      var before, input := inputs[..|inputs| - 1], inputs[|inputs| - 1];
      if Accepting(Run(env, before), input) then [] else Arrivals(env, before) + input.arrived
  }

  lemma AppLoopCarries(env: Env, w: World, input: LoopInput)
    ensures var r := AppLoop(env, w, input);
            var arrived := if Accepting(w, input) then [] else Carried(w) + input.arrived;
            Carried(r) <= arrived && (r.open ==> Carried(r) == arrived)
    ensures AppLoop(env, w, input).open && !Accepting(w, input) ==> w.open
  {
    var w0 := Arrive(w, input);
    assert if w.open then Carried(w0) == Carried(w) + input.arrived else Carried(w0) == Carried(w);
    assert Carried(Open(w0)) == [];
    hide PollRx, PollIr, PollSensors, PollMic, Reset, Carried;
    PollRxCarries(env, w0, input);
    var w1 := PollRx(env, w0, input);
    PollsCarry(env, w1, input);
    var w2 := PollIr(env, w1, input);
    PollsCarry(env, w2, input);
    PollsCarry(env, PollSensors(env, w2, input), input);
  }

  lemma {:induction false} StreamArrived(env: Env, inputs: seq<LoopInput>)
    ensures Carried(Run(env, inputs)) <= Arrivals(env, inputs)
    ensures Run(env, inputs).open ==> Carried(Run(env, inputs)) == Arrivals(env, inputs)
  {
    if inputs != [] {
      hide AppLoop, Carried, Accepting, Initial;
      var before := inputs[..|inputs| - 1];
      StreamArrived(env, before);
      AppLoopCarries(env, Run(env, before), inputs[|inputs| - 1]);
    }
  }

  /** What is dispatched from the front of a stream stays at its front, and a bad header stays bad, whatever follows. */
  lemma ParseLonger(b: seq<byte>, longer: seq<byte>)
    requires b <= longer
    ensures Parse(b).packets <= Parse(longer).packets
    ensures Parse(b).bad ==> Parse(longer).bad && Parse(longer).packets == Parse(b).packets
  {
    hide Parse;
    ParseAppend(b, longer[|b|..]);
    assert b + longer[|b|..] == longer;
  }

  /** Conservation, in every run: the bytes read in the latest session and those still waiting are the first of the
      bytes that arrived since its client was accepted, in order, and all of them while the session is open; and
      however the session fared, what it dispatched is an initial part of what a one-shot parser finds in the bytes
      that arrived. */
  lemma NothingLost(env: Env, inputs: seq<LoopInput>)
    ensures var w := Run(env, inputs);
            && Inbound(w.trace) + w.inbox <= Arrivals(env, inputs)
            && (w.open ==> Inbound(w.trace) + w.inbox == Arrivals(env, inputs))
            && Dispatched(w.trace) <= Parse(Arrivals(env, inputs)).packets
  {
    StreamArrived(env, inputs);
    SessionVerdict(env, inputs);
    hide Run, Arrivals, Parse;
    ParseLonger(Inbound(Run(env, inputs).trace), Arrivals(env, inputs));
  }

  /** The disconnect verdict and the packets dispatched are the one-shot parser's, on the whole stream that arrived:
      an undisturbed session has dispatched exactly the packets found there, and is still open exactly if no bad
      header is. */
  lemma ArrivalsParsed(env: Env, inputs: seq<LoopInput>)
    requires var w := Run(env, inputs); Undisturbed(w) && (w.open ==> w.inbox == [])
    ensures var w := Run(env, inputs);
            var parsed := Parse(Arrivals(env, inputs));
            && Dispatched(w.trace) == parsed.packets && w.open == !parsed.bad
            && w.s.rx == if w.open then parsed.rest else []
  {
    UndisturbedParse(env, inputs);
    NothingLost(env, inputs);
    var w := Run(env, inputs);
    hide Run, Arrivals, Parse, Undisturbed;
    if w.open {
      assert Inbound(w.trace) + w.inbox == Inbound(w.trace);
    } else {
      ParseLonger(Inbound(w.trace), Arrivals(env, inputs));
    }
  }

  /** Fragmentation independence: send the same bytes to two firmwares with any drivers, clocks, sockets, read sizes
      and schedules, cut up in any way. Once each has read all of them or has met a bad header, both have dispatched
      the same packets, both have come to the same verdict, and both hold the same remainder. How much either has read
      past a bad header does not matter. */
  lemma FragmentationIndependence(env1: Env, inputs1: seq<LoopInput>, env2: Env, inputs2: seq<LoopInput>)
    requires Undisturbed(Run(env1, inputs1)) && (Run(env1, inputs1).open ==> Run(env1, inputs1).inbox == [])
    requires Undisturbed(Run(env2, inputs2)) && (Run(env2, inputs2).open ==> Run(env2, inputs2).inbox == [])
    requires Arrivals(env1, inputs1) == Arrivals(env2, inputs2)
    ensures Dispatched(Run(env1, inputs1).trace) == Dispatched(Run(env2, inputs2).trace)
    ensures Run(env1, inputs1).open == Run(env2, inputs2).open
    ensures Run(env1, inputs1).s.rx == Run(env2, inputs2).s.rx
  {
    hide Run, Arrivals, Parse, Undisturbed;
    ArrivalsParsed(env1, inputs1);
    ArrivalsParsed(env2, inputs2);
  }

  // ----- The receive buffer -----

  const LARGEST_RESIDUE := HEADER_SIZE + MAX_PAYLOAD - 1

  /** Between passes at most 4111 bytes wait in the buffer: one byte less than the largest packet. */
  lemma ResidueBound(env: Env, inputs: seq<LoopInput>)
    ensures |Run(env, inputs).s.rx| <= 4111 == LARGEST_RESIDUE
  {
    RunInv(env, inputs);
  }

  /** The read loop finds the buffer full with bytes waiting only if they did not fit; if no read fails, exactly
      then. */
  lemma {:induction false} DrainExact(room: nat, available: nat, takes: seq<nat>)
    ensures Drain(room, available, takes).overflow ==> available > room
    ensures (forall i :: 0 <= i < |takes| ==> takes[i] > 0) ==>
              Drain(room, available, takes) == Drained(Min(room, available), available > room)
    decreases available
  {
    if available > 0 && room > 0 {
      var n := if takes == [] then Min(available, room) else Min(takes[0], Min(available, room));
      if n > 0 {
        DrainExact(room - n, available - n, if takes == [] then [] else takes[1..]);
      }
    }
  }

  function Taken(takes: seq<nat>, k: nat): nat
    requires k <= |takes|
  {
    if k == 0 then 0 else Taken(takes, k - 1) + takes[k - 1]
  }

  lemma {:induction false} TakenAfter(takes: seq<nat>, k: nat)
    requires 0 < k <= |takes|
    ensures Taken(takes, k) == takes[0] + Taken(takes[1..], k - 1)
  {
    if k > 1 {
      TakenAfter(takes, k - 1);
    }
  }

  /** A read that fails ends the loop: exactly the bytes of the reads before it have been taken, and no overflow is
      found. */
  lemma {:induction false} DrainFails(room: nat, available: nat, takes: seq<nat>, k: nat)
    requires k < |takes| && takes[k] == 0 && forall i :: 0 <= i < k ==> takes[i] > 0
    requires Taken(takes, k) < Min(room, available)
    ensures Drain(room, available, takes) == Drained(Taken(takes, k), false)
    decreases k
  {
    if k > 0 {
      TakenAfter(takes, k);
      DrainFails(room - takes[0], available - takes[0], takes[1..], k - 1);
    }
  }

  lemma {:induction false} ProcessRxInbox(env: Env, w: World)
    requires w.inbox == []
    ensures ProcessRx(env, w).inbox == [] && Inbound(ProcessRx(env, w).trace) == Inbound(w.trace)
    decreases |w.s.rx|
  {
    hide FrontOf, React, Reset;
    if FrontOf(w.s.rx).Whole? {
      ProcessRxInbox(env, Consume(env, w));
    }
  }

  /** A poll of a connected client reads everything that waits and fits, if no read fails; without a connected client it
      changes nothing. */
  lemma PollReadsAll(env: Env, w: World, input: LoopInput)
    ensures !w.open || !input.upRx ==> PollRx(env, w, input) == w
    ensures w.open && input.upRx && |w.s.rx| + |w.inbox| <= 8192
              && (forall i :: 0 <= i < |input.takes| ==> input.takes[i] > 0) ==>
              var r := PollRx(env, w, input);
              r.inbox == [] && Inbound(r.trace) == Inbound(w.trace) + w.inbox
  {
    hide FrontOf, ProcessRx, Reset;
    if w.open && input.upRx && |w.s.rx| + |w.inbox| <= 8192
        && (forall i :: 0 <= i < |input.takes| ==> input.takes[i] > 0) {
      DrainExact(RX_BUFFER_SIZE - |w.s.rx|, |w.inbox|, input.takes);
      assert w.inbox[..|w.inbox|] == w.inbox;
      ProcessRxInbox(env, Receive(w, |w.inbox|));
    }
  }

  predicate Overflows(env: Env, w: World, input: LoopInput) {
    var t := PollRx(env, w, input).trace;
    t.After? && t.last == Closed(Overflow)
  }

  lemma {:induction false} ProcessRxVerdict(env: Env, w: World)
    requires w.trace.After? && w.trace.last != Closed(Overflow)
    ensures ProcessRx(env, w).trace.After? && ProcessRx(env, w).trace.last != Closed(Overflow)
    decreases |w.s.rx|
  {
    hide FrontOf, React, Accepted;
    if FrontOf(w.s.rx).Whole? {
      ProcessRxVerdict(env, Consume(env, w));
    }
  }

  /** When no read fails, a poll overflows exactly when the residue and the bytes waiting exceed the 8192-byte buffer;
      when reads fail it can only overflow less. */
  lemma OverflowExactly(env: Env, inputs: seq<LoopInput>, w: World, input: LoopInput)
    requires w == Arrive(Run(env, inputs), input) && w.open && input.upRx
    ensures Overflows(env, w, input) ==> |w.s.rx| + |w.inbox| > 8192
    ensures (forall i :: 0 <= i < |input.takes| ==> input.takes[i] > 0) ==>
              (Overflows(env, w, input) <==> |w.s.rx| + |w.inbox| > 8192)
  {
    hide FrontOf, ProcessRx;
    ResidueBound(env, inputs);
    var room := RX_BUFFER_SIZE - |w.s.rx|;
    DrainExact(room, |w.inbox|, input.takes);
    var d := Drain(room, |w.inbox|, input.takes);
    ProcessRxVerdict(env, Receive(w, d.count));
  }

  /** A poll that meets at most 4081 bytes can never overflow, in any reachable state. */
  lemma SmallBurstsFit(env: Env, inputs: seq<LoopInput>, input: LoopInput)
    requires Run(env, inputs).open && input.upRx
    requires |Run(env, inputs).inbox + input.arrived| <= 4081
    ensures !Overflows(env, Arrive(Run(env, inputs), input), input)
  {
    ResidueBound(env, inputs);
    OverflowExactly(env, inputs, Arrive(Run(env, inputs), input), input);
  }

  /** The bound is tight: after all but the last byte of a largest packet, 4082 more bytes overflow the buffer. */
  lemma LargerBurstOverflows(env: Env)
    ensures exists inputs: seq<LoopInput>, input: LoopInput ::
              Run(env, inputs).open && input.upRx && |input.arrived| == 4082
                                    && Run(env, inputs).inbox == []
                                    && Overflows(env, Arrive(Run(env, inputs), input), input)
  {
    var p := Packet(0, 0, 0, seq(MAX_PAYLOAD, i => 0));
    var most := Frame(p)[..LARGEST_RESIDUE];
    PrefixIncomplete(p, LARGEST_RESIDUE);
    var accept := Quiet([]).(incoming := true);
    var inputs := [accept, Quiet(most)];
    var input := Quiet(seq(4082, i => 0));
    RunTwo(env, accept, Quiet(most));
    AcceptFirst(env);
    hide Frame, FrontOf, AppLoop, Initial, Run;
    var w1 := AppLoop(env, Initial(), accept);
    QuietLoop(env, w1, most);
    var w2 := AppLoop(env, w1, Quiet(most));
    assert w2 == Run(env, inputs);
    OverflowExactly(env, inputs, Arrive(w2, input), input);
    assert Overflows(env, Arrive(Run(env, inputs), input), input);
  }

  /** A pass in which bytes are read and nothing else happens. */
  function Quiet(arrived: seq<byte>): LoopInput {
    LoopInput(0, true, true, false, false, false, false, arrived, [], None, None, None, None, None, None)
  }

  /** The first client is accepted. */
  lemma AcceptFirst(env: Env)
    ensures var w := AppLoop(env, Initial(), Quiet([]).(incoming := true));
            w.open && w.s.rx == [] && w.inbox == [] && w.cursors.writes == 0 && w.trace == After(Boot, Opened)
  {
  }

  lemma RunTwo(env: Env, a: LoopInput, b: LoopInput)
    ensures Run(env, [a, b]) == AppLoop(env, AppLoop(env, Initial(), a), b)
  {
    hide AppLoop, Initial;
    assert [a, b][..1] == [a] && [a][..0] == [];
    assert Run(env, [a]) == AppLoop(env, Initial(), a);
  }

  lemma QuietLoop(env: Env, w: World, arrived: seq<byte>)
    requires w.open && w.s.rx == [] && w.inbox == [] && |arrived| <= RX_BUFFER_SIZE && FrontOf(arrived).Incomplete?
    ensures var r := AppLoop(env, w, Quiet(arrived)); r.open && r.s.rx == arrived && r.inbox == []
  {
    hide FrontOf;
    var input := Quiet(arrived);
    DrainExact(RX_BUFFER_SIZE, |arrived|, []);
    var w0 := Arrive(w, input);
    assert w0.inbox == arrived && w0.s.rx + arrived == arrived;
    var w1 := PollRx(env, w0, input);
    assert arrived[..|arrived|] == arrived;
    assert w1.open && w1.s.rx == arrived && w1.inbox == [];
  }

  /** Every legal packet can be received: a session that has read exactly its frame has dispatched it. */
  lemma EveryPacketReceived(env: Env, inputs: seq<LoopInput>, ps: seq<Packet>, p: Packet)
    requires AllLegal(ps) && Legal(p) && Run(env, inputs).open
    requires Inbound(Run(env, inputs).trace) == Frames(ps) + Frame(p)
    ensures Dispatched(Run(env, inputs).trace) == ps + [p] && Run(env, inputs).s.rx == []
  {
    hide Frame, FrontOf, Parse;
    FramesPush(ps, p);
    ParseFrames(ps + [p], []);
    ParseEmpty();
    assert Frames(ps + [p]) + [] == Frames(ps + [p]);
    assert ps + [p] + [] == ps + [p];
    DispatchedIsParsed(env, inputs);
  }
}
