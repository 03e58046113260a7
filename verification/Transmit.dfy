/** The partial-write loop of esp32/wsp_packet.cpp against a socket that answers as it likes. */
module Transmit {
  import opened Bytes

  const WRITE_TIMEOUT_MS := 1000

  /** What the socket and the clock answer during one `wspWritePacket` call. `ready` is the connection check on entry
      and `start` the true time read there; in iteration `i` of the loop `up(i)` is the connection check, `chunk(i)`
      what `write` returns (clipped to what it was offered) and `at(i)` the true time of the timeout check. */
  datatype Tape = Tape(ready: bool, start: nat, up: nat -> bool, chunk: nat -> nat, at: nat -> nat)

  /** `millis() - startMs` in the 32-bit arithmetic of the firmware. */
  function Elapsed(tape: Tape, i: nat): uint32 {
    Wrap32(tape.at(i) - tape.start)
  }

  /** The one assumption about the clock: between the timeout checks of two iterations separated by `delay(1)` at least
      one millisecond and at most 2^32 - 1001 milliseconds (49 days) pass. */
  ghost predicate Ticking(tape: Tape) {
    forall i: nat :: tape.chunk(i) == 0 ==> tape.at(i) + 1 <= tape.at(i + 1) <= tape.at(i) + 0x1_0000_0000 - 1001
  }

  type Link = t: Tape | Ticking(t) ghost witness Tape(true, 0, (i: nat) => true, (i: nat) => 1, (i: nat) => i)

  /** Retry time left before a stalled write gives up. */
  function Patience(link: Link, i: nat): nat {
    if Elapsed(link, i) > WRITE_TIMEOUT_MS then 0 else 1 + WRITE_TIMEOUT_MS - Elapsed(link, i)
  }

  /** A stalled iteration that does not give up uses up patience, even when the clock wraps. */
  lemma StallCosts(link: Link, i: nat)
    requires link.chunk(i) == 0 && Elapsed(link, i) <= WRITE_TIMEOUT_MS
    ensures Patience(link, i + 1) < Patience(link, i)
  {
    var passed := link.at(i + 1) - link.at(i);
    var before := link.at(i) - link.start;
    assert 1 <= passed <= 0x1_0000_0000 - 1001;
    WrapAdd(before, passed);
  }

  lemma WrapAdd(n: int, d: nat)
    requires Wrap32(n) + d < 0x1_0000_0000
    ensures Wrap32(n + d) == Wrap32(n) + d
  {
  }

  /** The number of bytes accepted in the end, when `sent` were accepted before iteration `i`. */
  function Progress(link: Link, size: nat, sent: nat, i: nat): (total: nat)
    requires sent <= size
    ensures sent <= total <= size
    decreases size - sent, Patience(link, i)
  {
    if sent == size || !link.up(i) then sent
    else if link.chunk(i) > 0 then Progress(link, size, sent + Min(link.chunk(i), size - sent), i + 1)
    else if Elapsed(link, i) > WRITE_TIMEOUT_MS then sent
    else
      StallCosts(link, i);
      Progress(link, size, sent, i + 1)
  }

  /** The number of bytes of a packet that one `wspWritePacket` call gets accepted. */
  function Accepted(link: Link, open: bool, size: nat): (total: nat)
    ensures total <= size
    ensures !open ==> total == 0
  {
    if open && link.ready then Progress(link, size, 0, 0) else 0
  }

  // ----- What the loop amounts to -----

  /** The bytes that the first `n` calls of `write` take, if they are offered enough. */
  function Sum(link: Link, n: nat): nat {
    if n == 0 then 0 else Sum(link, n - 1) + link.chunk(n - 1)
  }

  /** The loop can end in iteration `n`: everything has been taken, the connection is gone, or nothing is taken more
      than a second after the start. */
  predicate Ends(link: Link, size: nat, n: nat) {
    || Sum(link, n) >= size
    || !link.up(n)
    || (link.chunk(n) == 0 && (link.at(n) - link.start) % 0x1_0000_0000 > 1000)
  }

  /** `n` is the iteration in which the loop ends: the first in which it can. */
  predicate EndsFirst(link: Link, size: nat, n: nat) {
    Ends(link, size, n) && forall i: nat :: i < n ==> !Ends(link, size, i)
  }

  lemma {:induction false} EndsSomewhere(link: Link, size: nat, i: nat) returns (n: nat)
    requires forall j: nat :: j < i ==> !Ends(link, size, j)
    ensures EndsFirst(link, size, n)
    decreases Max(0, size - Sum(link, i)), Patience(link, i)
  {
    n := i;
    if !Ends(link, size, i) {
      if link.chunk(i) == 0 {
        StallCosts(link, i);
      }
      n := EndsSomewhere(link, size, i + 1);
    }
  }

  lemma {:induction false} ProgressCounts(link: Link, size: nat, i: nat, n: nat)
    requires EndsFirst(link, size, n) && i <= n
    ensures Min(size, Sum(link, i)) == size ==> i == n
    ensures Progress(link, size, Min(size, Sum(link, i)), i) == Min(size, Sum(link, n))
    decreases n - i
  {
    if i < n {
      assert !Ends(link, size, i);
      ProgressCounts(link, size, i + 1, n);
    }
  }

  /** On a connected socket a call gets exactly the bytes taken before the loop ends, and at most the packet. */
  lemma AcceptedCounts(link: Link, size: nat, n: nat)
    requires link.ready && EndsFirst(link, size, n)
    ensures Accepted(link, true, size) == Min(size, Sum(link, n))
  {
    ProgressCounts(link, size, 0, n);
  }

  /** Short and zero writes in any pattern: the call terminates; the accepted bytes are an initial part of the packet,
      each accepted once and in order, as many as the socket takes before the loop ends; and the call reports success
      exactly when that is all of them. */
  method WspWritePacket(link: Link, open: bool, data: array<byte>, size: nat)
    returns (ok: bool, accepted: seq<byte>)
    requires 0 < size <= data.Length
    ensures accepted == data[..Accepted(link, open, size)]
    ensures ok <==> accepted == data[..size]
    ensures !open || !link.ready ==> !ok && accepted == []
    ensures open && link.ready ==>
              exists n: nat :: EndsFirst(link, size, n) && accepted == data[..Min(size, Sum(link, n))]
                               && (ok <==> Sum(link, n) >= size)
  {
    if !open || !link.ready {
      return false, [];
    }
    ghost var n := EndsSomewhere(link, size, 0);
    AcceptedCounts(link, size, n);
    var sent, i := 0, 0;
    accepted := [];
    while sent < size
      invariant sent <= size
      invariant accepted == data[..sent]
      invariant Progress(link, size, sent, i) == Accepted(link, open, size)
      decreases size - sent, Patience(link, i)
    {
      if !link.up(i) {
        return false, accepted;
      }
      var chunk := Min(link.chunk(i), size - sent);
      if chunk > 0 {
        accepted := accepted + data[sent..sent + chunk];
        sent := sent + chunk;
      } else {
        if Elapsed(link, i) > WRITE_TIMEOUT_MS {
          return false, accepted;
        }
        StallCosts(link, i);
      }
      i := i + 1;
    }
    ok := true;
  }

  /** A packet is cut short only by the iteration in which the loop ends: the connection was lost there, or more than a
      second had passed at a stall; and exactly the bytes taken before it have gone out. */
  lemma ShortWriteReason(link: Link, size: nat, n: nat)
    requires link.ready && EndsFirst(link, size, n) && Accepted(link, true, size) < size
    ensures Accepted(link, true, size) == Sum(link, n)
    ensures !link.up(n) || (link.chunk(n) == 0 && (link.at(n) - link.start) % 0x1_0000_0000 > 1000)
  {
    hide Accepted, Sum;
    AcceptedCounts(link, size, n);
    assert Ends(link, size, n);
    hide EndsFirst;
  }
}
