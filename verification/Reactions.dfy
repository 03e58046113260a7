/** Every reaction to a packet obeys the protocol, and changes only what the packet is about. */
module Reactions {
  import opened Bytes
  import opened Protocol
  import opened Drivers
  import opened Session
  import opened History

  /** A target type names at most one stream. */
  lemma CodeInjective(a: Stream, b: Stream)
    requires Code(a) == Code(b)
    ensures a == b
  {
  }

  lemma AnswersSubscribe(env: Env, s: State, c: Cursors, p: Packet)
    requires p.typ == SUBSCRIBE
    ensures var r := React(env, s, c, p); AnsweredWell(env, p, r.action, r.reply)
  {
    hide ErrorReply, AckReply;
    if |p.payload| != 8 {
      assert !exists stream :: Accepts(env, p, stream);
    } else {
      var target := U16At(p.payload, 0);
      if target == MIC_PCM {
        assert Accepts(env, p, MicPcm);
      } else if target == MIC_COMP {
        assert Accepts(env, p, MicComp) == env.encoderReady;
      } else if target == IR_RECEIVE {
        assert Accepts(env, p, IrReceive);
      } else {
        match KindOf(target) {
          case None =>
          case Some(kind) => assert Accepts(env, p, Sensor(kind)) == SensorReady(env, kind);
        }
      }
    }
  }

  lemma AnswersUnsubscribe(env: Env, s: State, c: Cursors, p: Packet)
    requires p.typ == UNSUBSCRIBE
    ensures var r := React(env, s, c, p); AnsweredWell(env, p, r.action, r.reply)
  {
    hide ErrorReply, AckReply;
    if |p.payload| == 2 {
      var target := U16At(p.payload, 0);
      if target == MIC_PCM {
        assert Cancels(p, MicPcm);
      } else if target == MIC_COMP {
        assert Cancels(p, MicComp);
      } else if target == IR_RECEIVE {
        assert Cancels(p, IrReceive);
      } else {
        match KindOf(target) {
          case None =>
          case Some(kind) => assert Cancels(p, Sensor(kind));
        }
      }
    }
  }

  lemma AnswersIrTransmit(env: Env, s: State, c: Cursors, p: Packet)
    requires p.typ == IR_TRANSMIT
    ensures var r := React(env, s, c, p); AnsweredWell(env, p, r.action, r.reply)
  {
    hide ErrorReply, Bursts, U16At, U32At, U16sOf;
  }

  lemma AnswersSpkPcm(env: Env, s: State, c: Cursors, p: Packet)
    requires p.typ == SPK_PCM
    ensures var r := React(env, s, c, p); AnsweredWell(env, p, r.action, r.reply)
  {
    hide ErrorReply, Duplicate, U16At, U32At, I16sOf;
  }

  lemma AnswersSpkComp(env: Env, s: State, c: Cursors, p: Packet)
    requires p.typ == SPK_COMP
    ensures var r := React(env, s, c, p); AnsweredWell(env, p, r.action, r.reply)
  {
    hide ErrorReply, Duplicate, U16At, U32At;
    var decoded := env.decodes(c.decodes);
  }

  /** Whatever is dispatched is answered as the protocol says. */
  lemma Answers(env: Env, s: State, c: Cursors, p: Packet)
    ensures var r := React(env, s, c, p); AnsweredWell(env, p, r.action, r.reply)
  {
    if p.typ == SUBSCRIBE {
      AnswersSubscribe(env, s, c, p);
    } else if p.typ == UNSUBSCRIBE {
      AnswersUnsubscribe(env, s, c, p);
    } else if p.typ == IR_TRANSMIT {
      AnswersIrTransmit(env, s, c, p);
    } else if p.typ == SPK_PCM {
      AnswersSpkPcm(env, s, c, p);
    } else if p.typ == SPK_COMP {
      AnswersSpkComp(env, s, c, p);
    } else if p.typ != HEARTBEAT {
      hide ErrorReply;
    }
  }

  /** Replies are legal packets of types the host knows. */
  lemma RepliesLegal(env: Env, s: State, c: Cursors, p: Packet)
    ensures var r := React(env, s, c, p).reply;
            r.Some? ==> Legal(r.value) && r.value.typ in {ACK, ERROR, HEARTBEAT} && KnownType(r.value.typ)
  {
    hide Text, ErrorCode;
    Answers(env, s, c, p);
  }

  // ----- What a request moves -----

  function TurnOn(s: State, stream: Stream, p: Packet): State {
    match stream
    case MicPcm => s.(micPcm := true)
    case MicComp => s.(micComp := true)
    case IrReceive => s.(irReceive := true)
    case Sensor(kind) => SubscribeSensor(s, kind, Wanted(p).0, Wanted(p).1)
  }

  function TurnOff(s: State, stream: Stream): State {
    match stream
    case MicPcm => s.(micPcm := false)
    case MicComp => s.(micComp := false)
    case IrReceive => s.(irReceive := false)
    case Sensor(kind) => With(s, kind, Of(s, kind).(enabled := false))
  }

  /** Only a request about a stream changes the state, and only that stream's part of it. */
  lemma ReactState(env: Env, s: State, c: Cursors, p: Packet)
    ensures var r := React(env, s, c, p).s;
            || (r == s && forall stream :: !Accepts(env, p, stream) && !Cancels(p, stream))
            || (exists stream :: Accepts(env, p, stream) && r == TurnOn(s, stream, p))
            || (exists stream :: Cancels(p, stream) && r == TurnOff(s, stream))
  {
    hide U16At, U32At, SubscribeSensor, With, Of, ErrorReply, AckReply, HeartbeatReply;
    hide ReactIrTransmit, ReactSpkPcm, ReactSpkComp;
    var r := React(env, s, c, p).s;
    if p.typ == SUBSCRIBE && |p.payload| == 8 {
      var target := U16At(p.payload, 0);
      if target == MIC_PCM {
        assert Accepts(env, p, MicPcm) && r == TurnOn(s, MicPcm, p);
      } else if target == MIC_COMP {
        assert env.encoderReady ==> Accepts(env, p, MicComp) && r == TurnOn(s, MicComp, p);
      } else if target == IR_RECEIVE {
        assert Accepts(env, p, IrReceive) && r == TurnOn(s, IrReceive, p);
      } else if KindOf(target).Some? {
        var kind := KindOf(target).value;
        assert SensorReady(env, kind) ==> Accepts(env, p, Sensor(kind)) && r == TurnOn(s, Sensor(kind), p);
      }
    } else if p.typ == UNSUBSCRIBE && |p.payload| == 2 {
      var target := U16At(p.payload, 0);
      if target == MIC_PCM {
        assert Cancels(p, MicPcm) && r == TurnOff(s, MicPcm);
      } else if target == MIC_COMP {
        assert Cancels(p, MicComp) && r == TurnOff(s, MicComp);
      } else if target == IR_RECEIVE {
        assert Cancels(p, IrReceive) && r == TurnOff(s, IrReceive);
      } else if KindOf(target).Some? {
        var kind := KindOf(target).value;
        assert Cancels(p, Sensor(kind)) && r == TurnOff(s, Sensor(kind));
      }
    } else {
      QuietState(env, s, c, p);
    }
  }

  lemma QuietState(env: Env, s: State, c: Cursors, p: Packet)
    requires !(p.typ == SUBSCRIBE && |p.payload| == 8) && !(p.typ == UNSUBSCRIBE && |p.payload| == 2)
    ensures React(env, s, c, p).s == s
  {
    hide U16At, U32At, ErrorReply, AckReply, HeartbeatReply;
  }

  /** Replacing one sensor's state leaves everything else alone. */
  lemma WithFrame(s: State, kind: SensorKind, c: SensorState, other: SensorKind)
    ensures var r := With(s, kind, c);
            && Of(r, other) == (if other == kind then c else Of(s, other))
            && (r.micPcm, r.micComp, r.irReceive, r.rx) == (s.micPcm, s.micComp, s.irReceive, s.rx)
            && (r.micPcmSeq, r.micCompSeq, r.irReceiveSeq) == (s.micPcmSeq, s.micCompSeq, s.irReceiveSeq)
  {
  }

  lemma TurnMovesSensor(s: State, moved: Stream, p: Packet, kind: SensorKind)
    ensures Of(TurnOn(s, moved, p), kind) ==
            if moved == Sensor(kind) then
              Of(s, kind).(enabled := true, intervalMs := NormalizedInterval(kind, Wanted(p).0),
                           onChangeOnly := Wanted(p).1, lastMs := 0, haveLast := false)
            else Of(s, kind)
    ensures Of(TurnOff(s, moved), kind) == if moved == Sensor(kind) then Of(s, kind).(enabled := false) else Of(s, kind)
  {
    hide Wanted, NormalizedInterval;
    if moved.Sensor? {
      hide With, Of;
      WithFrame(s, moved.kind, Of(TurnOn(s, moved, p), moved.kind), kind);
      var c := Of(s, moved.kind);
      WithFrame(s, moved.kind, c.(enabled := false), kind);
      WithFrame(s, moved.kind, c.(enabled := true, intervalMs := NormalizedInterval(moved.kind, Wanted(p).0),
                                  onChangeOnly := Wanted(p).1, lastMs := 0, haveLast := false), kind);
    }
  }

  lemma TurnMoves(s: State, moved: Stream, p: Packet, stream: Stream)
    ensures Enabled(TurnOn(s, moved, p), stream) == (stream == moved || Enabled(s, stream))
    ensures Enabled(TurnOff(s, moved), stream) == (stream != moved && Enabled(s, stream))
    ensures SeqOf(TurnOn(s, moved, p), stream) == SeqOf(TurnOff(s, moved), stream) == SeqOf(s, stream)
    ensures TurnOn(s, moved, p).rx == TurnOff(s, moved).rx == s.rx
  {
    hide Wanted, NormalizedInterval;
    if stream.Sensor? {
      hide Of;
      TurnMovesSensor(s, moved, p, stream.kind);
    }
    if moved.Sensor? {
      hide With, Of;
      var c := Of(s, moved.kind);
      WithFrame(s, moved.kind, c.(enabled := false), Ambient);
      WithFrame(s, moved.kind, c.(enabled := true, intervalMs := NormalizedInterval(moved.kind, Wanted(p).0),
                                  onChangeOnly := Wanted(p).1, lastMs := 0, haveLast := false), Ambient);
    }
  }

  lemma OneTarget(env: Env, p: Packet, a: Stream, b: Stream)
    requires Accepts(env, p, a) || Cancels(p, a)
    ensures Accepts(env, p, b) <==> a == b && Accepts(env, p, a)
    ensures Cancels(p, b) <==> a == b && Cancels(p, a)
    ensures !(Accepts(env, p, a) && Cancels(p, a))
  {
    if Code(a) == Code(b) { CodeInjective(a, b); }
  }

  /** A request moves exactly the stream it is accepted for; no counter and no buffered byte moves. */
  lemma ReactStream(env: Env, s: State, c: Cursors, p: Packet, stream: Stream)
    ensures var r := React(env, s, c, p).s;
            && Enabled(r, stream) == (Accepts(env, p, stream) || (!Cancels(p, stream) && Enabled(s, stream)))
            && SeqOf(r, stream) == SeqOf(s, stream)
            && r.rx == s.rx
  {
    hide React, Accepts, Cancels, TurnOn, TurnOff, Enabled, SeqOf;
    ReactState(env, s, c, p);
    var r := React(env, s, c, p).s;
    if moved :| Accepts(env, p, moved) && r == TurnOn(s, moved, p) {
      TurnMoves(s, moved, p, stream);
      OneTarget(env, p, moved, stream);
    } else if moved :| Cancels(p, moved) && r == TurnOff(s, moved) {
      TurnMoves(s, moved, p, stream);
      OneTarget(env, p, moved, stream);
    }
  }

  /** The whole of one sensor's state after a packet. */
  lemma ReactSensor(env: Env, s: State, c: Cursors, p: Packet, kind: SensorKind)
    ensures Of(React(env, s, c, p).s, kind) ==
            if Accepts(env, p, Sensor(kind)) then
              Of(s, kind).(enabled := true, intervalMs := NormalizedInterval(kind, Wanted(p).0),
                           onChangeOnly := Wanted(p).1, lastMs := 0, haveLast := false)
            else if Cancels(p, Sensor(kind)) then Of(s, kind).(enabled := false)
            else Of(s, kind)
  {
    hide React, Accepts, Cancels, TurnOn, TurnOff, Of, Wanted, NormalizedInterval;
    ReactState(env, s, c, p);
    var r := React(env, s, c, p).s;
    if moved :| Accepts(env, p, moved) && r == TurnOn(s, moved, p) {
      TurnMovesSensor(s, moved, p, kind);
      OneTarget(env, p, moved, Sensor(kind));
    } else if moved :| Cancels(p, moved) && r == TurnOff(s, moved) {
      TurnMovesSensor(s, moved, p, kind);
      OneTarget(env, p, moved, Sensor(kind));
    }
  }

  /** Handling a packet never touches the receive buffer. */
  lemma HandleRx(env: Env, w: World, p: Packet)
    ensures Handle(env, w, p).s.rx == w.s.rx
  {
    ReactStream(env, w.s, w.cursors, p, MicPcm);
    hide React;
  }
}
