/** The host's receiving loop: exact reads over whatever `recv` returns, packets, and the logger's sequence check. */
module Reader {
  import opened Bytes
  import opened Protocol
  import opened Codec
  import opened Parsing
  import opened Decoding
  import opened Emission

  /** One answer of `recv`: a timeout, seen with or without the stop flag, or some of the bytes that are there. */
  datatype Recv = Timeout(stopping: bool) | Chunk(size: nat)

  /** No timeout is seen with the stop flag set. */
  predicate NeverStops(answers: seq<Recv>) {
    forall i :: 0 <= i < |answers| ==> answers[i] != Timeout(true)
  }

  datatype Read = Bytes(data: seq<byte>) | Closed | Stopped

  datatype Received = Received(packet: Packet) | EndOfFile | Stopping | BadPacket

  /** `inbox` holds all the bytes still to come before the connection is closed; when `answers` run out, `recv`
      returns as much as it is asked for. */
  class Connection {
    var inbox: seq<byte>
    var answers: seq<Recv>

    constructor (inbox: seq<byte>, answers: seq<Recv>)
      ensures this.inbox == inbox && this.answers == answers
    {
      this.inbox, this.answers := inbox, answers;
    }

    method NextAnswer(remaining: nat) returns (answer: Recv)
      modifies `answers
      ensures if old(answers) == [] then answer == Chunk(remaining) && answers == []
              else answer == old(answers)[0] && answers == old(answers)[1..]
    {
      if answers == [] {
        return Chunk(remaining);
      }
      answer := answers[0];
      answers := answers[1..];
    }

    method RecvExact(size: nat) returns (r: Read)
      modifies this
      ensures r.Bytes? ==> |old(inbox)| >= size && r.data == old(inbox)[..size] && inbox == old(inbox)[size..]
      ensures r.Closed? ==> |old(inbox)| < size
      ensures NeverStops(old(answers)) ==> !r.Stopped? && NeverStops(answers)
    {
      var data: seq<byte>, remaining := [], size;
      ghost var stream := inbox;
      while remaining > 0
        invariant 0 <= remaining <= size && size - remaining <= |stream|
        invariant data == stream[..size - remaining] && inbox == stream[size - remaining..]
        invariant NeverStops(old(answers)) ==> NeverStops(answers)
        decreases remaining, |answers|
      {
        var answer := NextAnswer(remaining);
        if answer.Timeout? {
          if answer.stopping {
            return Stopped;
          }
          continue;
        }
        if inbox == [] {
          return Closed;
        }
        var n := Max(1, Min(answer.size, Min(remaining, |inbox|)));
        data := data + inbox[..n];
        inbox := inbox[n..];
        remaining := remaining - n;
      }
      r := Bytes(data);
    }

    /** However `recv` cuts the stream, the pull reader finds what `ReadPacket` defines on the whole of it. */
    method ReadOne() returns (r: Received)
      modifies this
      ensures match r
              case Received(p) => ReadPacket(old(inbox)) == Got(p, inbox)
              case EndOfFile => ReadPacket(old(inbox)) == Eof
              case BadPacket => ReadPacket(old(inbox)) == Refused
              case Stopping => true
      ensures NeverStops(old(answers)) ==> !r.Stopping? && NeverStops(answers)
    {
      ghost var stream := inbox;
      var header := RecvExact(HEADER_SIZE);
      if !header.Bytes? {
        return if header.Closed? then EndOfFile else Stopping;
      }
      HeaderOfStream(stream);
      hide HeaderAt, KnownType;
      var h := UnpackHeader(header.data);
      if h.magic != MAGIC || h.version != PROTO_VER || h.size > MAX_PAYLOAD || !KnownType(h.typ) {
        return BadPacket;
      }
      var payload: seq<byte> := [];
      if h.size > 0 {
        var body := RecvExact(h.size);
        if !body.Bytes? {
          return if body.Closed? then EndOfFile else Stopping;
        }
        payload := body.data;
      }
      assert payload == stream[HEADER_SIZE..HEADER_SIZE + h.size] && inbox == stream[HEADER_SIZE + h.size..];
      r := Received(Packet(h.flags, h.typ, h.id, payload));
    }

    method UnpackHeader(data: seq<byte>) returns (h: Header)
      requires |data| == HEADER_SIZE
      ensures h == HeaderAt(data)
    {
      HeaderUnpacked(data);
      hide *;
      h := FromValues(Unpack(HEADER_FORMAT, data), HeaderAt(data));
    }

    /** The header whose fields have these values. */
    method FromValues(v: Values, ghost g: Header) returns (h: Header)
      requires v == HeaderValues(g)
      ensures h == g
    {
      var w := v.tail.tail.tail;
      h := Header(v.head, v.tail.head, v.tail.tail.head, w.head, w.tail.head, w.tail.tail.head);
    }

    lemma HeaderOfStream(stream: seq<byte>)
      requires |stream| >= HEADER_SIZE
      ensures HeaderAt(stream[..HEADER_SIZE]) == HeaderAt(stream)
    {
      HeaderAtPrefix(stream[..HEADER_SIZE], stream[HEADER_SIZE..]);
      assert stream[..HEADER_SIZE] + stream[HEADER_SIZE..] == stream;
    }
  }

  class PacketLogger {
    var lastSeq: map<uint16, uint32>
    /** Every packet handled so far. */
    ghost var seen: seq<Packet>

    ghost predicate Valid()
      reads this
    {
      forall typ: uint16 :: !IsControl(typ) ==>
        LastSequence(seen, typ) == if typ in lastSeq then Some(lastSeq[typ]) else None
    }

    constructor ()
      ensures Valid() && seen == []
    {
      lastSeq, seen := map[], [];
    }

    method CheckSequence(p: Packet) returns (warned: bool)
      requires Valid() && !IsControl(p.typ)
      modifies this
      ensures Valid() && seen == old(seen) + [p] && (warned <==> Warns(old(seen), p))
    {
      hide IsControl;
      var last: int := if p.typ in lastSeq then lastSeq[p.typ] else 0;
      warned := p.typ in lastSeq && p.id != Wrap32(last + 1);
      lastSeq := lastSeq[p.typ := p.id];
      forall typ: uint16
        ensures LastSequence(seen + [p], typ) == if p.typ == typ then Some(p.id) else LastSequence(seen, typ) {
        LastPush(seen, p, typ);
      }
      seen := seen + [p];
    }

    method HandlePacket(p: Packet) returns (heard: Heard, warned: bool)
      requires Valid()
      modifies this
      ensures Valid() && seen == old(seen) + [p] && heard == Decode(p)
      ensures warned <==> !IsControl(p.typ) && Warns(old(seen), p)
    {
      hide Decode, LastSequence, Warns;
      heard := Decode(p);
      if IsControl(p.typ) {
        forall typ: uint16 | !IsControl(typ) ensures LastSequence(seen + [p], typ) == LastSequence(seen, typ) {
          LastPush(seen, p, typ);
        }
        hide IsControl;
        seen := seen + [p];
        warned := false;
      } else {
        warned := CheckSequence(p);
      }
    }
  }

  lemma {:induction false} ReadAllStep(b: seq<byte>)
    ensures match ReadPacket(b)
            case Got(p, rest) =>
              ReadAll(b) == HostSession([p] + ReadAll(rest).packets, ReadAll(rest).refused) && |rest| < |b|
            case Eof => ReadAll(b) == HostSession([], false)
            case Refused => ReadAll(b) == HostSession([], true)
  {
  }

  datatype Ending = AtEnd | Interrupted | Rejecting

  /** The main loop of the host on a connection: it handles exactly the packets that `ReadAll` finds in the stream,
      whatever sizes `recv` delivers, and ends when the stream does or at the first header it refuses. */
  method ReadLoop(connection: Connection, logger: PacketLogger)
    returns (packets: seq<Packet>, heard: seq<Heard>, warned: seq<bool>, ending: Ending)
    requires logger.Valid() && logger.seen == []
    modifies connection, logger
    ensures packets <= ReadAll(old(connection.inbox)).packets && |heard| == |warned| == |packets|
    ensures NeverStops(old(connection.answers)) ==> !ending.Interrupted?
    ensures !ending.Interrupted? ==> HostSession(packets, ending.Rejecting?) == ReadAll(old(connection.inbox))
    ensures forall i :: 0 <= i < |packets| ==> heard[i] == Decode(packets[i])
    ensures forall i :: 0 <= i < |packets| ==>
              (warned[i] <==> !IsControl(packets[i].typ) && Warns(packets[..i], packets[i]))
  {
    hide ReadPacket, ReadAll, Decode, IsControl, Warns;
    packets, heard, warned := [], [], [];
    ghost var stream := connection.inbox;
    while true
      invariant logger.Valid() && logger.seen == packets && |heard| == |warned| == |packets|
      invariant NeverStops(old(connection.answers)) ==> NeverStops(connection.answers)
      invariant var later := ReadAll(connection.inbox);
                ReadAll(stream) == HostSession(packets + later.packets, later.refused)
      invariant forall i :: 0 <= i < |packets| ==> heard[i] == Decode(packets[i])
      invariant forall i :: 0 <= i < |packets| ==>
                (warned[i] <==> !IsControl(packets[i].typ) && Warns(packets[..i], packets[i]))
      decreases |connection.inbox|
    {
      ReadAllStep(connection.inbox);
      var r := connection.ReadOne();
      match r {
        case EndOfFile => return packets, heard, warned, AtEnd;
        case BadPacket => return packets, heard, warned, Rejecting;
        case Stopping => return packets, heard, warned, Interrupted;
        case Received(p) =>
          var h, w := logger.HandlePacket(p);
          assert forall i :: 0 <= i < |packets| ==> (packets + [p])[..i] == packets[..i];
          assert (packets + [p])[..|packets|] == packets;
          packets, heard, warned := packets + [p], heard + [h], warned + [w];
      }
    }
  }
}
