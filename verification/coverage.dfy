/** Nothing is only accounted for: every sequenced byte, and our FIN, really is in some emitted segment. */
module Coverage {
  import opened Base
  import opened SeqSpace
  import opened Segment
  import opened Pending
  import opened Reassembly
  import opened State
  import opened SendInfos
  import opened SendSide
  import opened Transitions
  import opened Timers
  import opened Runs

  /** Some emission carries the byte at offset `k` of the outgoing stream. */
  ghost predicate ByteEmitted(h: History, k: nat) {
    exists e :: e in h.emitted && e.offset <= k < e.offset + Len(e.info.payload)
  }

  ghost predicate FinEmitted(h: History) {
    exists e :: e in h.emitted && e.info.flags == FinAck
  }

  ghost predicate SentIsEmitted(h: History) {
    (forall k: nat :: k < |h.sent| ==> ByteEmitted(h, k)) && (h.finSent ==> FinEmitted(h))
  }

  lemma CoveredFin(h: History)
    requires SentIsEmitted(h) && h.finSent
    ensures FinEmitted(h)
  {
  }

  lemma EmittedStays(h: History, h': History)
    requires h.emitted <= h'.emitted
    ensures forall k: nat :: ByteEmitted(h, k) ==> ByteEmitted(h', k)
    ensures FinEmitted(h) ==> FinEmitted(h')
  {
    assert forall e :: e in h.emitted ==> e in h'.emitted;
  }

  /** A history extended by what one emission carries. */
  lemma CoverExtends(h: History, h': History, info: SendInfo)
    requires SentIsEmitted(h) && h'.sent == h.sent + Bytes(info.payload)
    requires h'.emitted == h.emitted + [Emission(|h.sent|, info)]
    requires h'.finSent ==> h.finSent || info.flags == FinAck
    ensures SentIsEmitted(h')
  {
    EmittedStays(h, h');
    var e := Emission(|h.sent|, info);
    assert e in h'.emitted;
    forall k: nat | k < |h'.sent|
      ensures ByteEmitted(h', k)
    {
      if k < |h.sent| {
        assert ByteEmitted(h, k);
      }
    }
  }

  lemma CoverStays(h: History, h': History)
    requires SentIsEmitted(h) && h'.sent == h.sent && h.emitted <= h'.emitted && (h'.finSent ==> h.finSent)
    ensures SentIsEmitted(h')
  {
    EmittedStays(h, h');
  }

  lemma ClosingAnswers(c: Conn, w: WindowState, now: Time)
    ensures var r := CloseWaitOrLastAck(c, w, now);
            r.info.Ok? && r.conn.state.FinSent() ==> r.info.value.flags == FinAck || c.state.FinSent()
  {
  }

  /** Only a segment that carries the FIN moves a connection past sending it. */
  lemma FinIsAnswered(app: ServerApp, seg: TcpSegment, c: Conn, now: Time)
    requires HandleKnown(app, seg, c, now).reply.Ok?
    ensures var r := HandleKnown(app, seg, c, now);
            r.conn.state.FinSent() && !c.state.FinSent() ==>
              r.reply.value.info.Some? && r.reply.value.info.value.flags == FinAck
  {
    hide DataOrAck, DrainTransmittable, CloseWaitOrLastAck, AckedConn, AckedWindow, CheckSeq, Drain, Precedes,
         PrecedesOrEq, DeliverBuffered, Deliver, FinReached, BufferSegment;
    AckedStays(c, seg.ackNum);
    if c.state.SynReceived? {
      var c1 := CompleteHandshake(seg, c);
      OpenAnswers(app, seg, c1, c1.state.window, now);
    } else if c.state.Established? {
      var w1 := AckedWindow(c, c.state.window, seg);
      var c1 := AckedConn(c, seg.ackNum).(state := Established(w1));
      OpenAnswers(app, seg, c1, w1, now);
      OpenAnswers(app, seg, c, c.state.window, now);
      DataFrame(c1, w1, None, now);
    } else if c.state.CloseWait? {
      ClosingAnswers(AckedConn(c, seg.ackNum), AckedWindow(c, c.state.window, seg), now);
    }
  }

  lemma OpenAnswers(app: ServerApp, seg: TcpSegment, c: Conn, w: WindowState, now: Time)
    requires c.state.Established?
    ensures var c3 := DeliverBuffered(app, Deliver(app, c, Bytes(seg.payload)));
            && (DrainTransmittable(c3, w).Ok? ==>
                  var t := DrainTransmittable(c3, w).value;
                  !DataOrAck(t.conn, t.payload, now).conn.state.FinSent() && !t.conn.state.FinSent())
            && c3.state == c.state && BufferSegment(c, seg).state == c.state
            && (var r := CloseWaitOrLastAck(ConsumeFin(c3), w, now);
                r.info.Ok? && r.conn.state.FinSent() ==> r.info.value.flags == FinAck)
    ensures var c2 := ConsumeFin(Deliver(app, c, Bytes(seg.payload)));
            var r := CloseWaitOrLastAck(AckedConn(c2, seg.ackNum), AckedWindow(c2, w, seg), now);
            r.info.Ok? && r.conn.state.FinSent() ==> r.info.value.flags == FinAck
  {
    hide DataOrAck, DrainTransmittable, CloseWaitOrLastAck, AckedWindow;
    var c3 := DeliverBuffered(app, Deliver(app, c, Bytes(seg.payload)));
    OpenFrame(app, seg, c, w, now);
    ClosingAnswers(ConsumeFin(c3), w, now);
    var c2 := ConsumeFin(Deliver(app, c, Bytes(seg.payload)));
    AckedStays(c2, seg.ackNum);
    ClosingAnswers(AckedConn(c2, seg.ackNum), AckedWindow(c2, w, seg), now);
  }

  lemma StepKeepsCover(cfg: Config, w: World, e: Event)
    requires SentIsEmitted(w.hist) && SendHistory(cfg, w) && Sound(w, e)
    ensures SentIsEmitted(Step(cfg, w, e).hist)
  {
    hide HandleKnown, SendInv, Slip, Truthful, EmittedTruthful, SentIsEmitted, AfterResend, GivesUp, DueEmissions;
    if w.Live? {
      var c, h, h' := w.conn, w.hist, Step(cfg, w, e).hist;
      match e
      case Arrive(seg, now) =>
        ArrivalSends(cfg.app, seg, c, now, h.iss, h.sent);
        FinIsAnswered(cfg.app, seg, c, now);
        var r := HandleKnown(cfg.app, seg, c, now);
        if r.reply.value.info.Some? {
          CoverExtends(h, h', r.reply.value.info.value);
        } else {
          assert h.sent + [] == h.sent;
          CoverStays(h, h');
        }
      case Timeout(now) => CoverStays(h, h');
      case ActiveClose(now) =>
        if c.state.Established? {
          assert h.sent + [] == h.sent;
          CoverExtends(h, h', CloseActively(c, now).info);
        }
    }
  }

  lemma {:induction false} RunKeepsCover(cfg: Config, w: World, events: seq<Event>)
    requires SentIsEmitted(w.hist) && SendHistory(cfg, w) && AllSound(cfg, w, events)
    ensures SentIsEmitted(Run(cfg, w, events).hist)
    decreases |events|
  {
    hide Step, SendHistory, SentIsEmitted, Sound;
    if events != [] {
      StepKeepsSendHistory(cfg, w, events[0]);
      StepKeepsCover(cfg, w, events[0]);
      RunKeepsCover(cfg, Step(cfg, w, events[0]), events[1..]);
    }
  }

  lemma OpenedCovers(iss: SeqPoint, syn: TcpSegment, now: Time)
    ensures SentIsEmitted(Opened(iss, syn, now).hist)
  {
  }

  /** What has been emitted stays emitted. */
  lemma {:induction false} RunKeepsEmitted(cfg: Config, w: World, events: seq<Event>)
    ensures w.hist.emitted <= Run(cfg, w, events).hist.emitted
    decreases |events|
  {
    hide HandleKnown, GivesUp, AfterResend, DueEmissions;
    if events != [] {
      RunKeepsEmitted(cfg, Step(cfg, w, events[0]), events[1..]);
    }
  }
}
