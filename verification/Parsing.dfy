/** Two readers of one byte stream: the one-shot meaning of the firmware's push parser, and the host's pull reader. */
module Parsing {
  import opened Bytes
  import opened Protocol

  // ----- The firmware side: what a whole byte stream means -----

  /** What stands at the front of a stream: too little, a header that ends the session, or a whole packet. */
  datatype Front = Incomplete | Corrupt | Whole(packet: Packet)

  function FrontOf(b: seq<byte>): (f: Front)
    ensures f.Whole? ==> Legal(f.packet) && FrameSize(f.packet) <= |b|
    ensures f.Incomplete? ==> |b| < HEADER_SIZE + MAX_PAYLOAD
  {
    if |b| < HEADER_SIZE then Incomplete
    else
      var h := HeaderAt(b);
      if !GoodHeader(h) then Corrupt
      else if |b| < HEADER_SIZE + h.size then Incomplete
      else Whole(Packet(h.flags, h.typ, h.id, b[HEADER_SIZE..HEADER_SIZE + h.size]))
  }

  /** `packets` were complete, `rest` is not consumed, `bad` says that `rest` starts with a header that ends the
      session. */
  datatype Parsed = Parsed(packets: seq<Packet>, rest: seq<byte>, bad: bool)

  function Parse(b: seq<byte>): Parsed
    decreases |b|
  {
    match FrontOf(b)
    case Incomplete => Parsed([], b, false)
    case Corrupt => Parsed([], b, true)
    case Whole(p) =>
      var r := Parse(b[FrameSize(p)..]);
      Parsed([p] + r.packets, r.rest, r.bad)
  }

  lemma HeaderAtPrefix(a: seq<byte>, b: seq<byte>)
    requires |a| >= HEADER_SIZE
    ensures HeaderAt(a + b) == HeaderAt(a)
  {
  }

  /** Bytes that arrive later do not change what stands complete at the front. */
  lemma FrontAppend(a: seq<byte>, b: seq<byte>)
    requires !FrontOf(a).Incomplete?
    ensures FrontOf(a + b) == FrontOf(a)
  {
    HeaderAtPrefix(a, b);
    if FrontOf(a).Whole? {
      var n := FrameSize(FrontOf(a).packet);
      assert (a + b)[HEADER_SIZE..n] == a[HEADER_SIZE..n];
    }
  }

  /** Parsing is incremental: the bytes after `a` are parsed from where `a` left off. */
  lemma {:induction false} ParseAppend(a: seq<byte>, b: seq<byte>)
    ensures !Parse(a).bad ==>
              var later := Parse(Parse(a).rest + b);
              Parse(a + b) == Parsed(Parse(a).packets + later.packets, later.rest, later.bad)
    ensures Parse(a).bad ==> Parse(a + b) == Parsed(Parse(a).packets, Parse(a).rest + b, true)
    decreases |a|
  {
    hide FrontOf;
    match FrontOf(a) {
      case Incomplete =>
        assert Parse(a) == Parsed([], a, false);
      case Corrupt =>
        FrontAppend(a, b);
      case Whole(p) =>
        FrontAppend(a, b);
        var n := FrameSize(p);
        assert (a + b)[n..] == a[n..] + b;
        ParseAppend(a[n..], b);
        assert Parse(a).packets == [p] + Parse(a[n..]).packets;
    }
  }

  /** Nothing more can be parsed from what parsing left over. */
  lemma {:induction false} ParseRest(b: seq<byte>)
    ensures FrontOf(Parse(b).rest) == if Parse(b).bad then Corrupt else Incomplete
    ensures |Parse(b).rest| <= |b|
    decreases |b|
  {
    hide HeaderAt, GoodHeader;
    if FrontOf(b).Whole? {
      ParseRest(b[FrameSize(FrontOf(b).packet)..]);
    }
  }

  // ----- Framed packet lists -----

  predicate AllLegal(ps: seq<Packet>) {
    forall i :: 0 <= i < |ps| ==> Legal(ps[i])
  }

  predicate AllKnown(ps: seq<Packet>) {
    forall i :: 0 <= i < |ps| ==> KnownType(ps[i].typ)
  }

  /** The frames of `ps`, back to back. */
  function Frames(ps: seq<Packet>): seq<byte>
    requires AllLegal(ps)
  {
    if ps == [] then [] else Frames(ps[..|ps| - 1]) + Frame(ps[|ps| - 1])
  }

  /** The bytes of a frame that was cut short. */
  ghost predicate Torn(b: seq<byte>) {
    exists p :: Legal(p) && KnownType(p.typ) && |b| < FrameSize(p) && b == Frame(p)[..|b|]
  }

  lemma FrameHeader(p: Packet, tail: seq<byte>)
    requires Legal(p)
    ensures HeaderAt(Frame(p) + tail) == HeaderOf(p) && GoodHeader(HeaderOf(p))
  {
    HeaderRoundTrip(HeaderOf(p), p.payload + tail);
    assert Frame(p) + tail == EncodeHeader(HeaderOf(p)) + (p.payload + tail);
  }

  /** A frame at the front of a stream is the whole packet found there. */
  lemma FrontOfFrame(p: Packet, tail: seq<byte>)
    requires Legal(p)
    ensures FrontOf(Frame(p) + tail) == Whole(p)
    ensures (Frame(p) + tail)[FrameSize(p)..] == tail
  {
    hide EncodeHeader, HeaderAt;
    FrameHeader(p, tail);
    assert (Frame(p) + tail)[HEADER_SIZE..FrameSize(p)] == p.payload;
  }

  /** A proper prefix of a frame is incomplete. */
  lemma PrefixIncomplete(p: Packet, n: nat)
    requires Legal(p) && n < FrameSize(p)
    ensures FrontOf(Frame(p)[..n]) == Incomplete
    ensures n >= HEADER_SIZE ==> HeaderAt(Frame(p)[..n]) == HeaderOf(p)
  {
    hide EncodeHeader, HeaderAt;
    if n >= HEADER_SIZE {
      FrameHeader(p, []);
      var f := Frame(p);
      assert f + [] == f == f[..n] + f[n..];
      HeaderAtPrefix(f[..n], f[n..]);
    }
  }

  /** Framing then parsing is the identity, whatever follows the frames. */
  lemma {:induction false} ParseFrames(ps: seq<Packet>, tail: seq<byte>)
    requires AllLegal(ps)
    ensures Parse(Frames(ps) + tail) == Parsed(ps + Parse(tail).packets, Parse(tail).rest, Parse(tail).bad)
    decreases |ps|
  {
    hide Frame, FrontOf;
    if ps == [] {
      assert Frames(ps) + tail == tail;
    } else {
      var n := |ps| - 1;
      var a, b := Frames(ps[..n]), Frame(ps[n]);
      ParseFrames(ps[..n], b + tail);
      FrontOfFrame(ps[n], tail);
      assert (a + b) + tail == a + (b + tail);
      assert Parse(b + tail).packets == [ps[n]] + Parse(tail).packets;
      assert ps[..n] + ([ps[n]] + Parse(tail).packets) == ps + Parse(tail).packets;
    }
  }

  lemma FramesPush(ps: seq<Packet>, p: Packet)
    requires AllLegal(ps) && Legal(p)
    ensures AllLegal(ps + [p]) && Frames(ps + [p]) == Frames(ps) + Frame(p)
  {
    hide Frame;
    assert (ps + [p])[..|ps|] == ps;
  }

  // ----- The host side: read_packet over what recv delivers -----

  datatype ReadResult = Got(packet: Packet, rest: seq<byte>) | Eof | Refused

  /** `read_packet` on a stream whose end is the end of the connection. */
  function ReadPacket(b: seq<byte>): ReadResult {
    if |b| < HEADER_SIZE then Eof
    else
      var h := HeaderAt(b);
      if h.magic != MAGIC || h.version != PROTO_VER || h.size > MAX_PAYLOAD || !KnownType(h.typ) then Refused
      else if |b| < HEADER_SIZE + h.size then Eof
      else Got(Packet(h.flags, h.typ, h.id, b[HEADER_SIZE..HEADER_SIZE + h.size]), b[HEADER_SIZE + h.size..])
  }

  datatype HostSession = HostSession(packets: seq<Packet>, refused: bool)

  /** The host's main loop: read packets until the stream ends or a header is refused. */
  function ReadAll(b: seq<byte>): HostSession
    decreases |b|
  {
    match ReadPacket(b)
    case Got(p, rest) => var r := ReadAll(rest); HostSession([p] + r.packets, r.refused)
    case Eof => HostSession([], false)
    case Refused => HostSession([], true)
  }

  /** One step of the host's reader against the firmware's: they differ only on unknown types. */
  lemma ReadPacketAgrees(b: seq<byte>)
    ensures match ReadPacket(b)
            case Got(p, rest) => FrontOf(b) == Whole(p) && KnownType(p.typ) && rest == b[FrameSize(p)..]
            case Eof => FrontOf(b) == Incomplete
            case Refused => FrontOf(b) == Corrupt || (|b| >= HEADER_SIZE && !KnownType(HeaderAt(b).typ))
    ensures FrontOf(b).Whole? && KnownType(FrontOf(b).packet.typ) ==> ReadPacket(b).Got?
    ensures FrontOf(b).Corrupt? ==> ReadPacket(b).Refused?
    ensures FrontOf(b).Whole? ==> FrontOf(b).packet.typ == HeaderAt(b).typ
  {
    hide HeaderAt;
  }

  /** The two readers agree on every stream whose types are known: the push parser and the pull reader find the same
      packets. On any stream the host's packets are a prefix of the firmware's, and the host refuses every bad header
      and every unknown type that the firmware reaches. */
  lemma {:induction false} ReadersAgree(b: seq<byte>)
    ensures ReadAll(b).packets <= Parse(b).packets && AllKnown(ReadAll(b).packets)
    ensures AllKnown(Parse(b).packets) ==> ReadAll(b).packets == Parse(b).packets
    ensures Parse(b).bad || !AllKnown(Parse(b).packets) ==> ReadAll(b).refused
    decreases |b|
  {
    hide FrontOf, ReadPacket, KnownType;
    ReadPacketAgrees(b);
    match ReadPacket(b) {
      case Eof =>
      case Refused =>
        if FrontOf(b).Whole? {
          assert Parse(b).packets[0] == FrontOf(b).packet;
        }
      case Got(p, rest) =>
        ReadersAgree(rest);
        var later := Parse(rest).packets;
        assert Parse(b).packets == [p] + later;
        assert AllKnown([p] + later) <==> AllKnown(later) by { AllKnownCons(p, later); }
        AllKnownCons(p, ReadAll(rest).packets);
    }
  }

  lemma AllKnownCons(p: Packet, ps: seq<Packet>)
    requires KnownType(p.typ)
    ensures AllKnown([p] + ps) <==> AllKnown(ps)
  {
    hide KnownType;
    forall i | 0 <= i < |ps| ensures ([p] + ps)[i + 1] == ps[i] {}
  }

  /** Reading whole frames followed by a torn one returns exactly the whole packets and ends without a refusal,
      unless the torn frame's header is refused: a torn frame is never of an unknown type here. */
  lemma {:induction false} ReadFrames(ps: seq<Packet>, torn: seq<byte>)
    requires AllLegal(ps) && AllKnown(ps) && (torn == [] || Torn(torn))
    ensures ReadAll(Frames(ps) + torn) == HostSession(ps, false)
    decreases |ps|
  {
    hide Frame, FrontOf, ReadPacket, KnownType;
    if ps == [] {
      assert Frames(ps) + torn == torn;
      ReadTorn(torn);
    } else {
      FramesCons(ps);
      var a, b := Frame(ps[0]), Frames(ps[1..]);
      assert (a + b) + torn == a + (b + torn);
      FrontOfFrame(ps[0], b + torn);
      ReadPacketAgrees(a + (b + torn));
      ReadFrames(ps[1..], torn);
      assert [ps[0]] + ps[1..] == ps;
    }
  }

  lemma ReadTorn(torn: seq<byte>)
    requires torn == [] || Torn(torn)
    ensures ReadPacket(torn) == Eof
  {
    hide Frame, HeaderAt, KnownType;
    if torn != [] {
      var p :| Legal(p) && KnownType(p.typ) && |torn| < FrameSize(p) && torn == Frame(p)[..|torn|];
      PrefixIncomplete(p, |torn|);
    }
  }

  lemma {:induction false} FramesCons(ps: seq<Packet>)
    requires AllLegal(ps) && ps != []
    ensures Frames(ps) == Frame(ps[0]) + Frames(ps[1..])
    decreases |ps|
  {
    hide Frame;
    var n := |ps| - 1;
    if n == 0 {
      assert ps[..n] == [] && ps[1..] == [];
    } else {
      FramesCons(ps[..n]);
      var middle := ps[..n][1..];
      assert middle == ps[1..][..n - 1];
      var a, b, c := Frame(ps[0]), Frames(middle), Frame(ps[n]);
      assert Frames(ps) == (a + b) + c;
      assert Frames(ps[1..]) == b + c;
      assert (a + b) + c == a + (b + c);
    }
  }

  // ----- An accident -----

  /** A Heartbeat whose identifier is the magic number, torn after twelve bytes, is completed by the header of
      whatever packet follows: both readers find it first, so they find the packet that was sent exactly if it is the
      same Heartbeat. */
  lemma AccidentalFrame(p: Packet, q: Packet)
    requires p == Packet(0, HEARTBEAT, MAGIC, []) && Legal(q)
    ensures var b := Frame(p)[..12] + Frame(q);
            && FrontOf(b) == Whole(p)
            && (Parse(b) == Parsed([q], Parse(b).rest, false) <==> q == p)
            && (ReadAll(b) == HostSession([q], false) <==> q == p)
  {
    var b, f, g := Frame(p)[..12] + Frame(q), Frame(p), Frame(q);
    assert f[12..16] == U32(MAGIC) == g[..4];
    assert b == f + g[4..] by {
      assert f == f[..12] + f[12..16];
      assert g == g[..4] + g[4..];
    }
    FrontOfFrame(p, g[4..]);
    ReadPacketAgrees(b);
    hide Frame, FrontOf, ReadPacket;
    assert Parse(b).packets[0] == p && ReadAll(b).packets[0] == p;
    if q == p {
      assert |g[4..]| == 12;
      ShortIncomplete(g[4..]);
    }
  }

  lemma ShortIncomplete(b: seq<byte>)
    requires |b| < HEADER_SIZE
    ensures Parse(b) == Parsed([], b, false) && ReadAll(b) == HostSession([], false)
  {
  }
}
