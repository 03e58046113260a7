/** The host's two sending threads on one socket: the main thread and the heartbeat thread take turns under a lock, and
    every `sendall` hands its bytes over in pieces. All interleavings are considered. */
module HostLock {
  import opened Bytes
  import opened Protocol
  import opened Parsing
  import opened Decoding
  import opened Host

  datatype Thread = Main | Heart

  /** What a thread is asked to send; identifiers are chosen when the packet is built. */
  datatype Request = Request(typ: uint16, payload: seq<byte>)

  predicate GoodProgram(program: seq<Request>) {
    forall i :: 0 <= i < |program| ==> |program[i].payload| <= MAX_PAYLOAD
  }

  /** Between sends; with a packet built and waiting for the lock; holding the lock with `sent` bytes handed over. */
  datatype Phase = Idle | Waiting(packet: Packet) | Writing(packet: Packet, sent: nat)

  /** `built` packets have been built; `stopped` once a send has raised an error. */
  datatype Sender = Sender(phase: Phase, built: nat, stopped: bool)

  datatype Delivery = Delivery(who: Thread, packet: Packet)

  /** `done` are the packets sent as a whole; `torn` holds the bytes of a send that failed part way, and `mangled`
      says that bytes were written after it. */
  datatype Peer = Peer(
    main: Sender, heart: Sender, holder: Option<Thread>, sequences: map<uint16, uint32>,
    wire: seq<byte>, done: seq<Delivery>, torn: seq<byte>, mangled: bool)

  /** A step of one thread; `id` is the request identifier drawn, for which nothing is claimed. */
  datatype Move =
    | Build(who: Thread, id: uint32)
    | Acquire(who: Thread)
    | Write(who: Thread, count: nat)
    | Release(who: Thread)
    | Fail(who: Thread)

  function Of(h: Peer, t: Thread): Sender {
    if t == Main then h.main else h.heart
  }

  function With(h: Peer, t: Thread, s: Sender): Peer {
    if t == Main then h.(main := s) else h.(heart := s)
  }

  function Start(): Peer {
    Peer(Sender(Idle, 0, false), Sender(Idle, 0, false), None, map[], [], [], [], false)
  }

  /** The next thing a thread has to send; the heartbeat thread never runs out of heartbeats. */
  function Next(program: seq<Request>, t: Thread, built: nat): Option<Request> {
    if t == Heart then Some(Request(HEARTBEAT, []))
    else if built < |program| then Some(program[built])
    else None
  }

  /** One step; a step that is not possible changes nothing. */
  function Step(program: seq<Request>, h: Peer, m: Move): Peer {
    var s := Of(h, m.who);
    match m
    case Build(t, id) =>
      var r := Next(program, t, s.built);
      if !s.phase.Idle? || s.stopped || r.None? then h
      else if IsControl(r.value.typ) then
        With(h, t, s.(phase := Waiting(Packet(0, r.value.typ, id, r.value.payload)), built := s.built + 1))
      else
        var number := SequenceOf(h.sequences, r.value.typ);
        With(h, t, s.(phase := Waiting(Packet(0, r.value.typ, number, r.value.payload)), built := s.built + 1))
          .(sequences := h.sequences[r.value.typ := Wrap32(number + 1)])
    case Acquire(t) =>
      if !s.phase.Waiting? || h.holder.Some? then h
      else With(h, t, s.(phase := Writing(s.phase.packet, 0))).(holder := Some(t))
    case Write(t, count) =>
      if !s.phase.Writing? || !Legal(s.phase.packet) || s.phase.sent > FrameSize(s.phase.packet) then h
      else
        var p, sent := s.phase.packet, s.phase.sent;
        var n := Min(count, FrameSize(p) - sent);
        With(h, t, s.(phase := Writing(p, sent + n)))
          .(wire := h.wire + Frame(p)[sent..sent + n], mangled := h.mangled || (n > 0 && h.torn != []))
    case Release(t) =>
      if !s.phase.Writing? || s.phase.sent < FrameSize(s.phase.packet) then h
      else With(h, t, s.(phase := Idle)).(holder := None, done := h.done + [Delivery(t, s.phase.packet)])
    case Fail(t) =>
      if !s.phase.Writing? || s.phase.sent >= FrameSize(s.phase.packet) || !Legal(s.phase.packet) then h
      else
        With(h, t, s.(phase := Idle, stopped := true))
          .(holder := None, torn := h.torn + Frame(s.phase.packet)[..s.phase.sent])
  }

  function Schedule(program: seq<Request>, moves: seq<Move>): Peer {
    if moves == [] then Start() else Step(program, Schedule(program, moves[..|moves| - 1]), moves[|moves| - 1])
  }

  // ----- The lock -----

  predicate Locked(h: Peer) {
    (h.main.phase.Writing? <==> h.holder == Some(Main)) && (h.heart.phase.Writing? <==> h.holder == Some(Heart))
  }

  lemma StepLocked(program: seq<Request>, h: Peer, m: Move)
    requires Locked(h)
    ensures Locked(Step(program, h, m))
  {
    hide Frame, Next, SequenceOf, IsControl, Legal;
  }

  /** At most one thread is between the start and the end of a `sendall`, and it is the one that holds the lock. */
  lemma {:induction false} MutualExclusion(program: seq<Request>, moves: seq<Move>)
    ensures Locked(Schedule(program, moves))
  {
    if moves != [] {
      hide Locked, Step;
      MutualExclusion(program, moves[..|moves| - 1]);
      StepLocked(program, Schedule(program, moves[..|moves| - 1]), moves[|moves| - 1]);
    }
  }

  // ----- What each thread has sent -----

  function Packets(done: seq<Delivery>): (ps: seq<Packet>)
    ensures |ps| == |done|
  {
    seq(|done|, i requires 0 <= i < |done| => done[i].packet)
  }

  /** The packets of one thread, in the order in which they went out. */
  function By(done: seq<Delivery>, t: Thread): seq<Packet> {
    if done == [] then []
    else
      var d := done[|done| - 1];
      By(done[..|done| - 1], t) + if d.who == t then [d.packet] else []
  }

  function Requests(program: seq<Request>, typ: uint16): nat {
    if program == [] then 0
    else Requests(program[..|program| - 1], typ) + if program[|program| - 1].typ == typ then 1 else 0
  }

  /** The types that carry sequence numbers: all but Subscribe, Unsubscribe, Ack, Error and Heartbeat. */
  predicate Sequenced(typ: uint16) {
    typ !in {0xF001, 0xF002, 0xF010, 0xF011, 0xF020}
  }

  lemma SequencedExactly(typ: uint16)
    ensures Sequenced(typ) <==> !IsControl(typ)
  {
  }

  /** `p` is the packet for the `i`-th request of a thread: of the main thread it has the type and the payload asked
      for, and if it is a data packet the number of earlier requests of its type; of the heartbeat thread it is an
      empty Heartbeat. */
  predicate BuiltFor(program: seq<Request>, t: Thread, i: nat, p: Packet) {
    p.flags == 0
    && if t == Heart then p.typ == 0xF020 && p.payload == []
       else
         && i < |program| && p.typ == program[i].typ && p.payload == program[i].payload
         && (Sequenced(p.typ) ==> p.id == Wrap32(Requests(program[..i], p.typ)))
  }

  /** A thread's packets are those of its first requests, in order, and then perhaps one that is under way or was
      lost. */
  predicate InOrder(program: seq<Request>, h: Peer, t: Thread) {
    var s, ps := Of(h, t), By(h.done, t);
    && s.built == |ps| + (if s.phase.Idle? && !s.stopped then 0 else 1)
    && (s.stopped ==> s.phase.Idle?)
    && (t == Main ==> s.built <= |program|)
    && (forall i :: 0 <= i < |ps| ==> BuiltFor(program, t, i, ps[i]))
    && (!s.phase.Idle? ==> BuiltFor(program, t, s.built - 1, s.phase.packet))
  }

  predicate Counted(program: seq<Request>, h: Peer) {
    forall typ: uint16 :: Sequenced(typ) && h.main.built <= |program| ==>
      SequenceOf(h.sequences, typ) == Wrap32(Requests(program[..h.main.built], typ))
  }

  predicate Ordered(program: seq<Request>, h: Peer) {
    InOrder(program, h, Main) && InOrder(program, h, Heart) && Counted(program, h)
  }

  lemma RequestsNext(program: seq<Request>, i: nat, typ: uint16)
    requires i < |program|
    ensures Requests(program[..i + 1], typ) == Requests(program[..i], typ) + if program[i].typ == typ then 1 else 0
  {
    assert program[..i + 1][..i] == program[..i];
  }

  lemma ByPush(done: seq<Delivery>, d: Delivery, t: Thread)
    ensures By(done + [d], t) == By(done, t) + if d.who == t then [d.packet] else []
  {
    assert (done + [d])[..|done|] == done;
  }

  lemma WrapNext(n: nat)
    ensures Wrap32(Wrap32(n) + 1) == Wrap32(n + 1)
  {
  }

  lemma BuildOrdered(program: seq<Request>, h: Peer, m: Move)
    requires m.Build? && Ordered(program, h)
    ensures Ordered(program, Step(program, h, m))
  {
    var s := Of(h, m.who);
    if m.who == Main && s.built < |program| {
      SequencedExactly(program[s.built].typ);
      forall typ: uint16 ensures Requests(program[..s.built + 1], typ) ==
                                 Requests(program[..s.built], typ) + if program[s.built].typ == typ then 1 else 0 {
        RequestsNext(program, s.built, typ);
      }
      WrapNext(Requests(program[..s.built], program[s.built].typ));
    } else if m.who == Heart {
      HeartbeatIsControl();
    }
    hide Requests, By, IsControl, Sequenced;
  }

  lemma HeartbeatIsControl()
    ensures IsControl(HEARTBEAT)
  {
  }

  lemma ReleaseOrdered(program: seq<Request>, h: Peer, m: Move)
    requires m.Release? && Ordered(program, h)
    ensures Ordered(program, Step(program, h, m))
  {
    hide By, Sequenced, IsControl, Requests, BuiltFor, Counted;
    var s := Of(h, m.who);
    if s.phase.Writing? {
      ByPush(h.done, Delivery(m.who, s.phase.packet), Main);
      ByPush(h.done, Delivery(m.who, s.phase.packet), Heart);
    }
    var r := Step(program, h, m);
    assert r.main.built == h.main.built && r.sequences == h.sequences;
    assert Counted(program, r) by { SameCount(program, h, r); }
  }

  lemma SameCount(program: seq<Request>, h: Peer, r: Peer)
    requires Counted(program, h) && r.main.built == h.main.built && r.sequences == h.sequences
    ensures Counted(program, r)
  {
  }

  lemma OtherOrdered(program: seq<Request>, h: Peer, m: Move)
    requires (m.Acquire? || m.Write? || m.Fail?) && Ordered(program, h)
    ensures Ordered(program, Step(program, h, m))
  {
    hide By, Sequenced, IsControl, Requests, BuiltFor, Counted, Frame;
    var r := Step(program, h, m);
    assert r.done == h.done && r.main.built == h.main.built && r.sequences == h.sequences;
    SameCount(program, h, r);
  }

  lemma {:induction false} ScheduleOrdered(program: seq<Request>, moves: seq<Move>)
    ensures Ordered(program, Schedule(program, moves))
  {
    if moves == [] {
      StartOrdered(program);
    } else {
      hide Ordered, Step;
      ScheduleOrdered(program, moves[..|moves| - 1]);
      var h, m := Schedule(program, moves[..|moves| - 1]), moves[|moves| - 1];
      match m {
        case Build(_, _) => BuildOrdered(program, h, m);
        case Release(_) => ReleaseOrdered(program, h, m);
        case _ => OtherOrdered(program, h, m);
      }
    }
  }

  lemma StartOrdered(program: seq<Request>)
    ensures Ordered(program, Start())
  {
    assert program[..0] == [];
  }

  // ----- The shape of the stream -----

  /** The bytes of the send in progress. */
  function Current(h: Peer): seq<byte> {
    if h.holder.None? then []
    else
      var phase := Of(h, h.holder.value).phase;
      if phase.Writing? && Legal(phase.packet) && phase.sent <= FrameSize(phase.packet) then
        Frame(phase.packet)[..phase.sent]
      else []
  }

  predicate Healthy(s: Sender) {
    (!s.phase.Idle? ==> Legal(s.phase.packet)) && (s.phase.Writing? ==> s.phase.sent <= FrameSize(s.phase.packet))
  }

  /** The bytes of a frame that was cut short, of whatever type. */
  ghost predicate Cut(b: seq<byte>) {
    exists p :: Legal(p) && |b| < FrameSize(p) && b == Frame(p)[..|b|]
  }

  /** Until bytes follow a send that failed part way: whole frames, then what is left of that send or has been handed
      over of the current one. */
  ghost predicate Framed(h: Peer) {
    && Locked(h) && Healthy(h.main) && Healthy(h.heart) && AllLegal(Packets(h.done))
    && (!h.mangled ==>
          && h.wire == Frames(Packets(h.done)) + (h.torn + Current(h))
          && (h.torn == [] || (Current(h) == [] && Cut(h.torn))))
  }

  lemma PacketsPush(done: seq<Delivery>, d: Delivery)
    ensures Packets(done + [d]) == Packets(done) + [d.packet]
  {
  }

  lemma BuildFramed(program: seq<Request>, h: Peer, m: Move)
    requires GoodProgram(program) && Framed(h) && m.Build?
    ensures Framed(Step(program, h, m))
  {
    hide Frame, Frames, IsControl, SequenceOf, Cut, Packets;
  }

  lemma AcquireFramed(program: seq<Request>, h: Peer, m: Move)
    requires Framed(h) && m.Acquire?
    ensures Framed(Step(program, h, m))
  {
    hide Frames, Cut, Packets;
    var s := Of(h, m.who);
    if s.phase.Waiting? && h.holder.None? {
      assert Frame(s.phase.packet)[..0] == [];
      hide Frame;
    }
  }

  lemma Slice(f: seq<byte>, i: nat, j: nat)
    requires i <= j <= |f|
    ensures f[..i] + f[i..j] == f[..j]
  {
  }

  lemma Join3(a: seq<byte>, b: seq<byte>, c: seq<byte>, d: seq<byte>)
    ensures (a + (b + c)) + d == a + (b + (c + d))
    ensures b == [] ==> b + c == c
    ensures b + [] == b
  {
    if b == [] { assert b + c == c; }
    assert b + [] == b;
    assert (a + (b + c)) + d == a + (b + (c + d));
  }

  lemma WriteFramed(program: seq<Request>, h: Peer, m: Move)
    requires Framed(h) && m.Write?
    ensures Framed(Step(program, h, m))
  {
    hide Frame, Frames, Cut, Packets;
    var s := Of(h, m.who);
    if s.phase.Writing? {
      assert h.holder == Some(m.who);
      var p, sent := s.phase.packet, s.phase.sent;
      var n := Min(m.count, FrameSize(p) - sent);
      Slice(Frame(p), sent, sent + n);
      Join3(Frames(Packets(h.done)), h.torn, Current(h), Frame(p)[sent..sent + n]);
      var r := Step(program, h, m);
      assert Current(h) == Frame(p)[..sent] && Current(r) == Frame(p)[..sent + n];
      if n == 0 {
        assert Current(r) == Current(h);
      }
      hide Step, Current;
    }
  }

  lemma ReleaseFramed(program: seq<Request>, h: Peer, m: Move)
    requires Framed(h) && m.Release?
    ensures Framed(Step(program, h, m))
  {
    hide Frames, Cut;
    var s := Of(h, m.who);
    if s.phase.Writing? && s.phase.sent >= FrameSize(s.phase.packet) {
      var p := s.phase.packet;
      assert h.holder == Some(m.who) && Frame(p)[..FrameSize(p)] == Frame(p);
      assert Current(h) == Frame(p) && Frame(p) != [];
      PacketsPush(h.done, Delivery(m.who, p));
      FramesPush(Packets(h.done), p);
      hide Frame, Packets;
      Join3(Frames(Packets(h.done)), h.torn, Frame(p), []);
    }
  }

  lemma FailFramed(program: seq<Request>, h: Peer, m: Move)
    requires Framed(h) && m.Fail?
    ensures Framed(Step(program, h, m))
  {
    hide Frames, Packets;
    var s := Of(h, m.who);
    if s.phase.Writing? && s.phase.sent < FrameSize(s.phase.packet) {
      var p, sent := s.phase.packet, s.phase.sent;
      assert h.holder == Some(m.who) && Current(h) == Frame(p)[..sent];
      assert |Frame(p)[..sent]| == sent && Cut(Frame(p)[..sent]);
      hide Cut, Frame;
      Join3(Frames(Packets(h.done)), h.torn, Current(h), []);
    }
  }

  lemma {:induction false} ScheduleFramed(program: seq<Request>, moves: seq<Move>)
    requires GoodProgram(program)
    ensures Framed(Schedule(program, moves))
  {
    if moves != [] {
      hide Framed, Step;
      ScheduleFramed(program, moves[..|moves| - 1]);
      var h, m := Schedule(program, moves[..|moves| - 1]), moves[|moves| - 1];
      match m {
        case Build(_, _) => BuildFramed(program, h, m);
        case Acquire(_) => AcquireFramed(program, h, m);
        case Write(_, _) => WriteFramed(program, h, m);
        case Release(_) => ReleaseFramed(program, h, m);
        case Fail(_) => FailFramed(program, h, m);
      }
    }
  }

  // ----- When a stream is torn, in terms of the steps taken -----

  /** A `sendall` raises an error after some but not all bytes of its packet. */
  predicate FailsPartWay(h: Peer, m: Move) {
    var phase := Of(h, m.who).phase;
    m.Fail? && phase.Writing? && 0 < phase.sent < FrameSize(phase.packet)
  }

  /** A `sendall` hands over at least one byte. */
  predicate HandsOver(h: Peer, m: Move) {
    var phase := Of(h, m.who).phase;
    m.Write? && m.count > 0 && phase.Writing? && phase.sent < FrameSize(phase.packet)
  }

  /** One of the first `n` steps is a send that fails part way. */
  predicate TornBefore(program: seq<Request>, moves: seq<Move>, n: nat)
    requires n <= |moves|
  {
    exists i :: 0 <= i < n && FailsPartWay(Schedule(program, moves[..i]), moves[i])
  }

  /** A send fails part way, and later some thread hands over a byte. */
  predicate WritesAfterTear(program: seq<Request>, moves: seq<Move>) {
    exists j :: 0 <= j < |moves| && HandsOver(Schedule(program, moves[..j]), moves[j]) && TornBefore(program, moves, j)
  }

  lemma StepTears(program: seq<Request>, h: Peer, m: Move)
    requires Healthy(h.main) && Healthy(h.heart)
    ensures var r := Step(program, h, m);
            && (r.torn != [] <==> h.torn != [] || FailsPartWay(h, m))
            && (r.mangled <==> h.mangled || (h.torn != [] && HandsOver(h, m)))
  {
    hide Frame, IsControl, SequenceOf, Next;
    if m.Fail? && Of(h, m.who).phase.Writing? {
      var phase := Of(h, m.who).phase;
      assert |Frame(phase.packet)[..phase.sent]| == phase.sent;
    }
  }

  lemma TornSteps(program: seq<Request>, moves: seq<Move>, n: nat)
    requires n < |moves|
    ensures TornBefore(program, moves, n + 1) <==>
              TornBefore(program, moves, n) || FailsPartWay(Schedule(program, moves[..n]), moves[n])
  {
    hide FailsPartWay, Schedule;
  }

  lemma TornFront(program: seq<Request>, moves: seq<Move>, k: nat, n: nat)
    requires n <= k <= |moves|
    ensures TornBefore(program, moves[..k], n) <==> TornBefore(program, moves, n)
  {
    hide FailsPartWay, Schedule;
    assert forall i :: 0 <= i < n ==> moves[..k][..i] == moves[..i] && moves[..k][i] == moves[i];
  }

  lemma WritesFront(program: seq<Request>, moves: seq<Move>, n: nat)
    requires n + 1 == |moves|
    ensures WritesAfterTear(program, moves) <==>
              WritesAfterTear(program, moves[..n])
              || (TornBefore(program, moves, n) && HandsOver(Schedule(program, moves[..n]), moves[n]))
  {
    hide HandsOver, Schedule, TornBefore;
    var front := moves[..n];
    assert forall j :: 0 <= j < n ==> front[..j] == moves[..j] && front[j] == moves[j];
    forall j | 0 <= j < n ensures TornBefore(program, front, j) <==> TornBefore(program, moves, j) {
      TornFront(program, moves, n, j);
    }
  }

  /** Exactly when the stream is torn, and exactly when bytes follow the tear, in every schedule. */
  lemma {:induction false} TearsExactly(program: seq<Request>, moves: seq<Move>)
    requires GoodProgram(program)
    ensures Schedule(program, moves).torn != [] <==> TornBefore(program, moves, |moves|)
    ensures Schedule(program, moves).mangled <==> WritesAfterTear(program, moves)
  {
    if moves != [] {
      var n := |moves| - 1;
      var front := moves[..n];
      TearsExactly(program, front);
      ScheduleFramed(program, front);
      StepTears(program, Schedule(program, front), moves[n]);
      TornFront(program, moves, n, n);
      TornSteps(program, moves, n);
      WritesFront(program, moves, n);
      hide Step, TornBefore, WritesAfterTear, FailsPartWay, HandsOver, Framed;
      assert front[..n] == front;
    }
  }

  /** Without a failing send nothing is torn, in any interleaving and with any partial writes. */
  lemma NothingTears(program: seq<Request>, moves: seq<Move>)
    requires forall m :: m in moves ==> !m.Fail?
    ensures !TornBefore(program, moves, |moves|) && !WritesAfterTear(program, moves)
  {
    hide Schedule, HandsOver;
  }

  // ----- What the firmware finds in the stream -----

  /** The packets that are on the wire as a whole: those sent, and the current one once all its bytes are handed
      over. */
  function OnWire(h: Peer): seq<Delivery> {
    if h.holder.None? then h.done
    else
      var t := h.holder.value;
      var phase := Of(h, t).phase;
      if phase.Writing? && phase.sent == FrameSize(phase.packet) then h.done + [Delivery(t, phase.packet)] else h.done
  }

  lemma CutIncomplete(b: seq<byte>)
    requires Cut(b)
    ensures FrontOf(b).Incomplete?
  {
    hide Frame, FrontOf;
    var p :| Legal(p) && |b| < FrameSize(p) && b == Frame(p)[..|b|];
    PrefixIncomplete(p, |b|);
  }

  lemma ParseIncomplete(b: seq<byte>)
    requires FrontOf(b).Incomplete?
    ensures Parse(b) == Parsed([], b, false)
  {
  }

  lemma NothingIncomplete()
    ensures FrontOf([]).Incomplete?
  {
  }

  /** As long as no bytes follow a send that failed part way, a one-shot parser finds on the wire exactly the packets
      that were sent as a whole. */
  lemma ParsedOnWire(program: seq<Request>, moves: seq<Move>)
    requires GoodProgram(program) && !WritesAfterTear(program, moves)
    ensures var h := Schedule(program, moves);
            Parse(h.wire).packets == Packets(OnWire(h)) && !Parse(h.wire).bad
  {
    ScheduleFramed(program, moves);
    TearsExactly(program, moves);
    var h := Schedule(program, moves);
    hide Schedule, Step;
    FramedParses(h);
  }

  lemma FramedParses(h: Peer)
    requires Framed(h) && !h.mangled
    ensures Parse(h.wire).packets == Packets(OnWire(h)) && !Parse(h.wire).bad
  {
    ParseFrames(Packets(h.done), h.torn + Current(h));
    TailParses(h);
  }

  /** What stands after the whole frames is the current one, if complete, or incomplete. */
  lemma TailParses(h: Peer)
    requires Framed(h) && !h.mangled
    ensures var tail := Parse(h.torn + Current(h));
            !tail.bad && Packets(OnWire(h)) == Packets(h.done) + tail.packets
  {
    hide Frames;
    if h.torn != [] {
      TornIdle(h);
      CutIncomplete(h.torn);
      hide Parse, FrontOf, OnWire, Current, Cut;
      assert h.torn + [] == h.torn;
      ParseIncomplete(h.torn);
      assert Packets(h.done) + [] == Packets(h.done);
    } else {
      assert h.torn + Current(h) == Current(h);
      CurrentParses(h);
    }
  }

  lemma CurrentParses(h: Peer)
    requires Locked(h) && Healthy(h.main) && Healthy(h.heart)
    ensures !Parse(Current(h)).bad && Packets(OnWire(h)) == Packets(h.done) + Parse(Current(h)).packets
  {
    hide Parse, FrontOf, Packets, Frame;
    assert Packets(h.done) + [] == Packets(h.done);
    NothingIncomplete();
    ParseIncomplete([]);
    if h.holder.Some? {
      var t := h.holder.value;
      var p, sent := Of(h, t).phase.packet, Of(h, t).phase.sent;
      assert Current(h) == Frame(p)[..sent];
      if sent == FrameSize(p) {
        assert Frame(p)[..sent] == Frame(p);
        OneFrame(p);
        PacketsPush(h.done, Delivery(t, p));
      } else {
        PrefixIncomplete(p, sent);
        ParseIncomplete(Frame(p)[..sent]);
      }
    }
  }

  lemma TornIdle(h: Peer)
    requires Framed(h) && !h.mangled && h.torn != []
    ensures OnWire(h) == h.done && Current(h) == []
  {
    hide Frames, Cut, Packets;
    if h.holder.Some? {
      var phase := Of(h, h.holder.value).phase;
      assert |Frame(phase.packet)[..phase.sent]| == phase.sent;
    }
  }

  lemma OneFrame(p: Packet)
    requires Legal(p)
    ensures Parse(Frame(p)) == Parsed([p], [], false)
  {
    FrontOfFrame(p, []);
    NothingIncomplete();
    hide FrontOf, Frame;
    assert Frame(p) + [] == Frame(p);
    ParseIncomplete([]);
    assert [p] + [] == [p];
  }

  // ----- Order and numbers on the wire -----

  /** The packets of `ps` with a given type. */
  function CountOf(ps: seq<Packet>, typ: uint16): nat {
    if ps == [] then 0 else CountOf(ps[..|ps| - 1], typ) + if ps[|ps| - 1].typ == typ then 1 else 0
  }

  /** Every data packet is numbered by how many of its type came before it. */
  predicate Consecutive(ps: seq<Packet>) {
    forall i :: 0 <= i < |ps| && Sequenced(ps[i].typ) ==> ps[i].id == Wrap32(CountOf(ps[..i], ps[i].typ))
  }

  /** A thread's packets on the wire are those of its first requests, in order. */
  predicate Faithful(program: seq<Request>, done: seq<Delivery>, t: Thread) {
    var ps := By(done, t);
    (t == Main ==> |ps| <= |program|) && forall i :: 0 <= i < |ps| ==> BuiltFor(program, t, i, ps[i])
  }

  lemma OnWireFaithful(program: seq<Request>, h: Peer, t: Thread)
    requires InOrder(program, h, t) && Locked(h)
    ensures Faithful(program, OnWire(h), t)
  {
    hide BuiltFor, By;
    if h.holder.Some? {
      ByPush(h.done, Delivery(h.holder.value, Of(h, h.holder.value).phase.packet), t);
    }
  }

  lemma FaithfulFront(program: seq<Request>, done: seq<Delivery>, d: Delivery, t: Thread)
    requires Faithful(program, done + [d], t)
    ensures Faithful(program, done, t)
    ensures d.who == t ==> BuiltFor(program, t, |By(done, t)|, d.packet)
  {
    hide BuiltFor, By;
    ByPush(done, d, t);
    var ps, more := By(done, t), By(done + [d], t);
    forall i | 0 <= i < |ps| ensures BuiltFor(program, t, i, ps[i]) {
      assert ps[i] == more[i];
    }
    if d.who == t {
      assert d.packet == more[|ps|];
    }
  }

  lemma CountPush(ps: seq<Packet>, p: Packet, typ: uint16)
    ensures CountOf(ps + [p], typ) == CountOf(ps, typ) + if p.typ == typ then 1 else 0
  {
    assert (ps + [p])[..|ps|] == ps;
  }

  lemma ConsecutivePush(ps: seq<Packet>, p: Packet)
    requires Consecutive(ps) && (Sequenced(p.typ) ==> p.id == Wrap32(CountOf(ps, p.typ)))
    ensures Consecutive(ps + [p])
  {
    hide Sequenced, CountOf;
    var more := ps + [p];
    forall i | 0 <= i < |more| && Sequenced(more[i].typ)
           ensures more[i].id == Wrap32(CountOf(more[..i], more[i].typ)) {
      assert more[..i] == ps[..i];
      assert ps[..|ps|] == ps;
    }
  }

  /** Only the main thread sends data packets, so its numbers are the stream's. */
  lemma {:induction false} FaithfulConsecutive(program: seq<Request>, done: seq<Delivery>, typ: uint16)
    requires Faithful(program, done, Main) && Faithful(program, done, Heart)
    ensures Consecutive(Packets(done))
    ensures Sequenced(typ) ==> CountOf(Packets(done), typ) == Requests(program[..|By(done, Main)|], typ)
    decreases |done|
  {
    hide Sequenced, BuiltFor, By, Faithful, Packets;
    if done == [] {
      assert Packets([]) == [] && By([], Main) == [] by { NothingDone(); }
    } else {
      var front, d := done[..|done| - 1], done[|done| - 1];
      assert done == front + [d];
      var p := d.packet;
      FaithfulFront(program, front, d, Main);
      FaithfulFront(program, front, d, Heart);
      FaithfulConsecutive(program, front, typ);
      FaithfulConsecutive(program, front, p.typ);
      PacketsPush(front, d);
      ByPush(front, d, Main);
      CountPush(Packets(front), p, typ);
      LastBuilt(program, d, |By(front, d.who)|);
      ConsecutivePush(Packets(front), p);
      if d.who == Main {
        FaithfulBound(program, done);
        RequestsNext(program, |By(front, Main)|, typ);
      }
    }
  }

  lemma NothingDone()
    ensures Packets([]) == [] && By([], Main) == [] && Consecutive([])
  {
  }

  lemma FaithfulBound(program: seq<Request>, done: seq<Delivery>)
    requires Faithful(program, done, Main)
    ensures |By(done, Main)| <= |program|
  {
  }

  lemma LastBuilt(program: seq<Request>, d: Delivery, i: nat)
    requires BuiltFor(program, d.who, i, d.packet)
    ensures d.who == Heart ==> !Sequenced(d.packet.typ)
    ensures d.who == Main ==> i < |program| && d.packet.typ == program[i].typ
    ensures d.who == Main && Sequenced(d.packet.typ) ==> d.packet.id == Wrap32(Requests(program[..i], d.packet.typ))
  {
  }

  /** What the wire of a schedule is to be: whole packets, each thread's those of its first requests in order, and data
      packets numbered consecutively per type. */
  predicate StreamKept(program: seq<Request>, h: Peer) {
    var ps := Parse(h.wire).packets;
    && !Parse(h.wire).bad && ps == Packets(OnWire(h))
    && Faithful(program, OnWire(h), Main) && Faithful(program, OnWire(h), Heart)
    && Consecutive(ps)
  }

  /** The lock protocol: in every interleaving, with every `sendall` cut into any pieces, the stream is kept as long
      as no thread hands over a byte after a send that failed part way. */
  lemma LockedStream(program: seq<Request>, moves: seq<Move>)
    requires GoodProgram(program) && !WritesAfterTear(program, moves)
    ensures StreamKept(program, Schedule(program, moves))
  {
    ParsedOnWire(program, moves);
    ScheduleOrdered(program, moves);
    MutualExclusion(program, moves);
    var h := Schedule(program, moves);
    hide Parse, OnWire, InOrder, Locked, Faithful, Consecutive, Packets, Schedule, WritesAfterTear;
    OnWireFaithful(program, h, Main);
    OnWireFaithful(program, h, Heart);
    FaithfulConsecutive(program, OnWire(h), 0);
  }

  /** In particular it is kept in every interleaving, with any partial writes, in which no send fails. */
  lemma UnfailingStream(program: seq<Request>, moves: seq<Move>)
    requires GoodProgram(program) && forall m :: m in moves ==> !m.Fail?
    ensures StreamKept(program, Schedule(program, moves))
  {
    hide *;
    NothingTears(program, moves);
    LockedStream(program, moves);
  }

  /** The packet a thread builds next, if it still has something to send: its request, under the next number of its
      type or under the identifier drawn. */
  function NextPacket(program: seq<Request>, h: Peer, t: Thread, id: uint32): Packet
    requires t == Main ==> h.main.built < |program|
  {
    if t == Heart then Packet(0, 0xF020, id, [])
    else
      var r := program[h.main.built];
      Packet(0, r.typ, if Sequenced(r.typ) then SequenceOf(h.sequences, r.typ) else id, r.payload)
  }

  /** A thread that finds the lock free gets its next packet out whole: build, lock, `sendall`, unlock. */
  lemma SendsAlone(program: seq<Request>, h: Peer, t: Thread, id: uint32)
    requires GoodProgram(program) && h.holder.None? && h.torn == [] && Of(h, t).phase.Idle? && !Of(h, t).stopped
    requires t == Main ==> h.main.built < |program|
    ensures var p := NextPacket(program, h, t, id);
            && Legal(p)
            && var r := Step(program, Step(program, Step(program, Step(program, h, Build(t, id)), Acquire(t)),
                                           Write(t, FrameSize(p))), Release(t));
               && r.wire == h.wire + Frame(p) && r.done == h.done + [Delivery(t, p)] && r.holder.None?
                    && r.mangled == h.mangled
               && Of(r, t) == Sender(Idle, Of(h, t).built + 1, false)
               && (t == Main && Sequenced(p.typ) ==> SequenceOf(r.sequences, p.typ) == (p.id + 1) % 0x1_0000_0000)
  {
    HeartbeatIsControl();
    var p := NextPacket(program, h, t, id);
    SequencedExactly(p.typ);
    hide IsControl, Sequenced, Frame;
    var h1 := Step(program, h, Build(t, id));
    assert Of(h1, t).phase == Waiting(p);
    var h2 := Step(program, h1, Acquire(t));
    assert Of(h2, t).phase == Writing(p, 0);
    var h3 := Step(program, h2, Write(t, FrameSize(p)));
    assert Frame(p)[0..FrameSize(p)] == Frame(p);
    assert Of(h3, t).phase == Writing(p, FrameSize(p));
  }

  // ----- A send that times out part way -----

  lemma ScheduleNext(program: seq<Request>, moves: seq<Move>, m: Move)
    ensures Schedule(program, moves + [m]) == Step(program, Schedule(program, moves), m)
  {
    hide Step;
    assert (moves + [m])[..|moves|] == moves;
  }

  /** Both threads send a Heartbeat with the same identifier; the first fails after `k` bytes. */
  function TearAt(id: uint32, k: nat): seq<Move> {
    ((([] + [Build(Heart, id)]) + [Acquire(Heart)]) + [Write(Heart, k)]) + [Fail(Heart)]
  }

  function TearAndGoOn(id: uint32, k: nat): seq<Move> {
    ((TearAt(id, k) + [Build(Main, id)]) + [Acquire(Main)]) + [Write(Main, 16)]
  }

  lemma ScheduleStart(program: seq<Request>)
    ensures Schedule(program, []) == Start()
  {
  }

  lemma HeartbeatFails(program: seq<Request>, id: uint32, k: nat)
    requires 0 < k < 16
    ensures var h := Schedule(program, TearAt(id, k));
            && h.main == Sender(Idle, 0, false) && h.holder == None && h.done == [] && !h.mangled
            && h.wire == h.torn == Frame(Packet(0, HEARTBEAT, id, []))[..k]
  {
    HeartbeatIsControl();
    hide IsControl, Frame;
    var p := Packet(0, HEARTBEAT, id, []);
    ScheduleNext(program, [], Build(Heart, id));
    ScheduleNext(program, [] + [Build(Heart, id)], Acquire(Heart));
    ScheduleNext(program, ([] + [Build(Heart, id)]) + [Acquire(Heart)], Write(Heart, k));
    ScheduleNext(program, (([] + [Build(Heart, id)]) + [Acquire(Heart)]) + [Write(Heart, k)], Fail(Heart));
    ScheduleStart(program);
    hide Schedule;
    assert Frame(p)[0..k] == Frame(p)[..k];
    var h1 := Step(program, Start(), Build(Heart, id));
    var h2 := Step(program, h1, Acquire(Heart));
    var h3 := Step(program, h2, Write(Heart, k));
    assert h3.heart.phase == Writing(p, k) && h3.wire == Frame(p)[..k];
  }

  /** The main thread sends a packet of its own after that. */
  lemma MainSendsOn(program: seq<Request>, h: Peer, id: uint32, k: nat)
    requires 0 < k < 16 && program == [Request(HEARTBEAT, [])]
    requires h.main == Sender(Idle, 0, false) && h.holder == None && h.done == []
    requires h.wire == h.torn == Frame(Packet(0, HEARTBEAT, id, []))[..k]
    ensures var p := Packet(0, HEARTBEAT, id, []);
            var r := Step(program, Step(program, Step(program, h, Build(Main, id)), Acquire(Main)), Write(Main, 16));
            r.wire == Frame(p)[..k] + Frame(p) && r.mangled && OnWire(r) == [Delivery(Main, p)]
  {
    HeartbeatIsControl();
    hide IsControl, Frame;
    var p := Packet(0, HEARTBEAT, id, []);
    var h2 := Step(program, Step(program, h, Build(Main, id)), Acquire(Main));
    assert h2.main.phase == Writing(p, 0) && h2.wire == Frame(p)[..k] && h2.torn == Frame(p)[..k];
    assert Frame(p)[0..16] == Frame(p) && |h2.torn| == k;
  }

  lemma TornAndGoneOn(id: uint32, k: nat)
    requires 0 < k < 16
    ensures var p, h := Packet(0, HEARTBEAT, id, []), Schedule([Request(HEARTBEAT, [])], TearAndGoOn(id, k));
            h.wire == Frame(p)[..k] + Frame(p) && h.mangled && OnWire(h) == [Delivery(Main, p)]
  {
    var program, first := [Request(HEARTBEAT, [])], TearAt(id, k);
    HeartbeatFails(program, id, k);
    hide Frame, Step, OnWire, TearAt;
    ScheduleNext(program, first, Build(Main, id));
    ScheduleNext(program, first + [Build(Main, id)], Acquire(Main));
    ScheduleNext(program, (first + [Build(Main, id)]) + [Acquire(Main)], Write(Main, 16));
    hide Schedule;
    MainSendsOn(program, Schedule(program, first), id, k);
  }

  lemma OneHeartbeat()
    ensures GoodProgram([Request(HEARTBEAT, [])])
  {
  }

  /** The condition is needed: the socket has a timeout, so a heartbeat can fail after one byte; the heartbeat thread
      stops, but the main thread sends on, and the firmware finds a bad header. */
  lemma TimeoutMangles()
    ensures exists program: seq<Request>, moves: seq<Move> ::
              GoodProgram(program) && WritesAfterTear(program, moves) && Parse(Schedule(program, moves).wire).bad
  {
    hide *;
    var program, moves := [Request(HEARTBEAT, [])], TearAndGoOn(7, 1);
    OneHeartbeat();
    TornAndGoneOn(7, 1);
    TearsExactly(program, moves);
    BadStart(Packet(0, HEARTBEAT, 7, []));
    assert GoodProgram(program) && WritesAfterTear(program, moves) && Parse(Schedule(program, moves).wire).bad;
  }

  lemma BadStart(p: Packet)
    requires p == Packet(0, HEARTBEAT, 7, [])
    ensures Parse(Frame(p)[..1] + Frame(p)).bad
  {
    var f := Frame(p);
    assert f[..4] == U32(MAGIC) == [0x31, 0x50, 0x53, 0x57];
    assert f[0] == 0x31 && f[1] == 0x50 && f[2] == 0x53;
    var b := f[..1] + f;
    assert b[0] == 0x31 && b[1] == 0x31 && b[2] == 0x50 && b[3] == 0x53;
    assert FrontOf(b) == Corrupt;
  }

  /** The condition is not necessary byte for byte: a torn packet and what follows it can by accident look like the
      packets sent. Here the identifier is the magic number, and the packet after the tear is the same one. */
  lemma TearUnnoticed()
    ensures exists program: seq<Request>, moves: seq<Move> ::
              var h := Schedule(program, moves);
              GoodProgram(program) && WritesAfterTear(program, moves)
              && !Parse(h.wire).bad && Parse(h.wire).packets == Packets(OnWire(h))
  {
    var program, moves, p := [Request(HEARTBEAT, [])], TearAndGoOn(MAGIC, 12), Packet(0, HEARTBEAT, MAGIC, []);
    assert Legal(p);
    hide *;
    OneHeartbeat();
    TornAndGoneOn(MAGIC, 12);
    TearsExactly(program, moves);
    AccidentalFrame(p, p);
    OneDelivery(Delivery(Main, p));
    var h := Schedule(program, moves);
    assert GoodProgram(program) && WritesAfterTear(program, moves)
           && !Parse(h.wire).bad && Parse(h.wire).packets == Packets(OnWire(h));
  }

  lemma OneDelivery(d: Delivery)
    ensures Packets([d]) == [d.packet]
  {
  }
}
