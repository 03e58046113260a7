/** What packets say to a listener: the samples of SpkPCM packets. */
module Audio {
  import opened Bytes
  import opened Protocol
  import opened History

  /** The packets of one type, in order. */
  function Only(ps: seq<Packet>, typ: uint16): seq<Packet> {
    if ps == [] then []
    else Only(ps[..|ps| - 1], typ) + if ps[|ps| - 1].typ == typ then [ps[|ps| - 1]] else []
  }

  /** The samples of one packet: those of a SpkPCM packet that passes the checks. */
  function Voice(p: Packet): seq<int16> {
    if p.typ == SPK_PCM && GoodSpkPcm(p) then SpkSamples(p) else []
  }

  function Speech(ps: seq<Packet>): seq<int16> {
    if ps == [] then [] else Speech(ps[..|ps| - 1]) + Voice(ps[|ps| - 1])
  }

  lemma SpeechPush(ps: seq<Packet>, p: Packet)
    ensures Speech(ps + [p]) == Speech(ps) + Voice(p)
  {
    assert (ps + [p])[..|ps|] == ps;
  }

  lemma {:induction false} SpeechCons(p: Packet, ps: seq<Packet>)
    ensures Speech([p] + ps) == Voice(p) + Speech(ps)
    decreases |ps|
  {
    hide Voice;
    if ps == [] {
      SpeechPush([], p);
      assert [p] + ps == [] + [p] && Speech([]) == [];
      assert Voice(p) + [] == Voice(p) == [] + Voice(p);
    } else {
      var front, last := ps[..|ps| - 1], ps[|ps| - 1];
      SpeechCons(p, front);
      assert [p] + ps == ([p] + front) + [last] && ps == front + [last];
      SpeechPush([p] + front, last);
      SpeechPush(front, last);
      assert (Voice(p) + Speech(front)) + Voice(last) == Voice(p) + (Speech(front) + Voice(last));
    }
  }

  /** Other packets in between say nothing. */
  lemma {:induction false} SpeechOnly(ps: seq<Packet>)
    ensures Speech(Only(ps, SPK_PCM)) == Speech(ps)
  {
    if ps != [] {
      var front, last := ps[..|ps| - 1], ps[|ps| - 1];
      SpeechOnly(front);
      hide GoodSpkPcm, SpkSamples;
      if last.typ == SPK_PCM {
        SpeechPush(Only(front, SPK_PCM), last);
      } else {
        assert Voice(last) == [] && Only(ps, SPK_PCM) == Only(front, SPK_PCM);
      }
    }
  }

  lemma {:induction false} OnlyContains(ps: seq<Packet>, typ: uint16)
    ensures forall p :: p in ps && p.typ == typ ==> p in Only(ps, typ)
  {
    if ps != [] {
      OnlyContains(ps[..|ps| - 1], typ);
    }
  }

  /** Packets that pass the firmware's checks and together say exactly these samples. */
  predicate Speaks(ps: seq<Packet>, samples: seq<int16>) {
    (forall p :: p in ps ==> p.typ == SPK_PCM && GoodSpkPcm(p)) && Speech(ps) == samples
  }

  /** Every packet carries `size` samples, the last one perhaps fewer. */
  predicate Pieces(ps: seq<Packet>, size: nat) {
    forall i :: 0 <= i < |ps| ==>
      if i < |ps| - 1 then |Voice(ps[i])| == size else 1 <= |Voice(ps[i])| <= size
  }

  lemma SpeaksCons(p: Packet, ps: seq<Packet>, piece: seq<int16>, rest: seq<int16>)
    requires Speaks(ps, rest) && p.typ == SPK_PCM && GoodSpkPcm(p) && Voice(p) == piece
    ensures Speaks([p] + ps, piece + rest)
  {
    hide Voice, Speech, GoodSpkPcm;
    SpeechCons(p, ps);
  }

  lemma PiecesCons(p: Packet, ps: seq<Packet>, size: nat)
    requires Pieces(ps, size) && 1 <= |Voice(p)| <= size && (ps != [] ==> |Voice(p)| == size)
    ensures Pieces([p] + ps, size)
  {
    hide Voice;
  }
}
