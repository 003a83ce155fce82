/** What emitted segments acknowledge, and what is emitted again. */
module Acknowledgments {
  import opened Base
  import opened SeqSpace
  import opened Segment
  import opened Pending
  import opened Reassembly
  import opened State
  import opened SendInfos
  import opened SendSide
  import opened ReceiveSide
  import opened Transitions
  import opened Timers
  import opened Runs
  import opened Theorems
  import opened StateDiagram

  lemma SendingAcks(c: Conn, w: WindowState, payload: Option<Payload>, now: Time)
    ensures var s := DataOrAck(c, payload, now);
            && s.info.flags == Ack && s.info.ackNum == s.conn.rcvNxt == c.rcvNxt
            && (s.info.payload == None ==> s.info.seqNum == s.conn.sndNxt)
    ensures DrainTransmittable(c, w).Ok? ==> DrainTransmittable(c, w).value.conn.rcvNxt == c.rcvNxt
    ensures var r := CloseWaitOrLastAck(c, w, now);
            r.info.Ok? ==>
              && r.info.value.flags in {Ack, FinAck} && r.info.value.ackNum == r.conn.rcvNxt
              && (r.info.value.flags == Ack && r.info.value.payload == None ==> r.info.value.seqNum == r.conn.sndNxt)
  {
  }

  /** A SYN in SYN-RECEIVED with another sequence number than the one that opened the connection. */
  predicate StraySyn(seg: TcpSegment, c: Conn) {
    c.state.SynReceived? && seg.flags == Syn && Add(seg.seqNum, 1) != c.rcvNxt
  }

  /** The reply to a segment, judged by the connection it leaves behind. */
  ghost predicate Current(seg: TcpSegment, c: Conn, r: Handled) {
    r.reply.Ok? && r.reply.value.info.Some? ==>
      var info := r.reply.value.info.value;
      && (info.flags != Rst ==> (info.ackNum == r.conn.rcvNxt <==> !StraySyn(seg, c)))
      && match info.flags
         case Ack => info.payload == None ==> info.seqNum == r.conn.sndNxt
         case FinAck => true
         case SynAck =>
           && c.state.SynReceived? && seg.flags == Syn && r.conn.rcvNxt == c.rcvNxt
           && info.seqNum == c.sndUna && info.ackNum == Add(seg.seqNum, 1) && info.payload == None
         case Rst => info == SendInfo(seg.ackNum, 0, Rst, None) && r.conn == c && seg.flags !in {Rst, RstAck}
         case Syn | RstAck => false
  }

  /**
   A reply acknowledges RCV.NXT as it stands after the segment if and only if the segment is not a
   stray SYN. A bare acknowledgment is sent from SND.NXT; a reset echoes SEG.ACK and changes
   nothing, and no reset is answered by a reset.
   */
  lemma RepliesAreCurrent(app: ServerApp, seg: TcpSegment, c: Conn, now: Time)
    ensures Current(seg, c, HandleKnown(app, seg, c, now))
  {
    hide DataOrAck, DrainTransmittable, CloseWaitOrLastAck, AckedConn, AckedWindow, CheckSeq, Drain, Precedes,
         PrecedesOrEq, DeliverBuffered, FinReached, BufferSegment, HandleSynRcv, HandleEstablished;
    if c.state.SynReceived? {
      SynRcvCurrent(app, seg, c, now);
    } else if c.state.Established? {
      EstablishedCurrent(app, seg, c, now);
    } else if c.state.FinWait1? || c.state.FinWait2? {
      FinWaitCurrent(app, seg, c, now);
    } else {
      AckedStays(c, seg.ackNum);
      SendingAcks(AckedConn(c, seg.ackNum), AckedWindow(c, c.state.window, seg), None, now);
    }
  }

  lemma FinWaitCurrent(app: ServerApp, seg: TcpSegment, c: Conn, now: Time)
    requires c.state.FinWait1? || c.state.FinWait2?
    ensures Current(seg, c, HandleKnown(app, seg, c, now))
  {
    hide AckedConn, AckedWindow, CheckSeq;
    AckedStays(c, seg.ackNum);
    AckedStays(Discard(c, Bytes(seg.payload)), seg.ackNum);
    AckedStays(ConsumeFin(Discard(c, Bytes(seg.payload))), seg.ackNum);
  }

  /**
   Whatever moves RCV.NXT is acknowledged at once, in any state: data, data that had been waiting and
   FINs all get a reply, and it acknowledges RCV.NXT as it then stands.
   */
  lemma TakenIsAcknowledged(app: ServerApp, seg: TcpSegment, c: Conn, now: Time)
    requires HandleKnown(app, seg, c, now).reply.Ok?
    ensures var r := HandleKnown(app, seg, c, now);
            r.conn.rcvNxt != c.rcvNxt ==>
              && r.reply.value.info.Some? && r.reply.value.info.value.flags in {Ack, FinAck}
              && r.reply.value.info.value.ackNum == r.conn.rcvNxt
  {
    hide HandleSynRcv, HandleEstablished, CloseWaitOrLastAck, AckedConn, AckedWindow, CheckSeq, Add;
    RepliesAreCurrent(app, seg, c, now);
    if c.state.SynReceived? {
      HandshakeAnswers(app, seg, c, now);
    } else if c.state.Established? {
      EstablishedAnswers(app, seg, c, now);
    } else {
      AckedStays(c, seg.ackNum);
      ClosingFrame(AckedConn(c, seg.ackNum), AckedWindow(c, c.state.window, seg), now);
    }
  }

  lemma HandshakeAnswers(app: ServerApp, seg: TcpSegment, c: Conn, now: Time)
    requires c.state.SynReceived? && HandleSynRcv(app, seg, c, now).reply.Ok?
    ensures var r := HandleSynRcv(app, seg, c, now);
            r.conn.rcvNxt != c.rcvNxt ==>
              r.reply.value.info.Some? && r.reply.value.info.value.flags in {Ack, FinAck} && !StraySyn(seg, c)
  {
    hide DataOrAck, DrainTransmittable, CloseWaitOrLastAck, AckedConn, AckedWindow, CheckSeq, Drain, Precedes,
         PrecedesOrEq, Add, FinReached;
    var c1 := CompleteHandshake(seg, c);
    var c2 := Deliver(app, c1, Bytes(seg.payload));
    NothingDrained(c2.segments, c2.rcvNxt);
    AddZeroPoint(c.rcvNxt);
    SendingAcks(ConsumeFin(DeliverBuffered(app, c2)), c1.state.window, None, now);
    if DrainTransmittable(DeliverBuffered(app, c2), c1.state.window).Ok? {
      var t := DrainTransmittable(DeliverBuffered(app, c2), c1.state.window).value;
      SendingAcks(t.conn, c1.state.window, t.payload, now);
    }
    var c4 := ConsumeFin(Deliver(app, c1, Bytes(seg.payload)));
    SendingAcks(AckedConn(c4, seg.ackNum), AckedWindow(c4, c1.state.window, seg), None, now);
  }

  lemma NothingDrained(segments: seq<Buffered>, rcv: SeqPoint)
    ensures Drain(segments, rcv).bytes == [] ==> Drain(segments, rcv).rcvNxt == rcv
  {
  }

  lemma EstablishedAnswers(app: ServerApp, seg: TcpSegment, c: Conn, now: Time)
    requires c.state.Established? && HandleEstablished(app, seg, c, now).reply.Ok?
    ensures var r := HandleEstablished(app, seg, c, now);
            r.conn.rcvNxt != c.rcvNxt ==>
              r.reply.value.info.Some? && r.reply.value.info.value.flags in {Ack, FinAck}
  {
    hide DataOrAck, DrainTransmittable, CloseWaitOrLastAck, AckedConn, AckedWindow, CheckSeq, Drain, Precedes,
         PrecedesOrEq, Add, FinReached, DeliverBuffered;
    var w1 := AckedWindow(c, c.state.window, seg);
    var c1 := AckedConn(c, seg.ackNum).(state := Established(w1));
    AckedStays(c, seg.ackNum);
    SendingAcks(c1, w1, None, now);
    var c3 := DeliverBuffered(app, Deliver(app, c1, Bytes(seg.payload)));
    SendingAcks(ConsumeFin(c3), w1, None, now);
    if DrainTransmittable(c3, w1).Ok? {
      var t := DrainTransmittable(c3, w1).value;
      SendingAcks(t.conn, w1, t.payload, now);
    }
    if DrainTransmittable(c1, w1).Ok? {
      var t := DrainTransmittable(c1, w1).value;
      SendingAcks(t.conn, w1, t.payload, now);
    }
    var c4 := ConsumeFin(Deliver(app, c, Bytes(seg.payload)));
    SendingAcks(AckedConn(c4, seg.ackNum), AckedWindow(c4, c.state.window, seg), None, now);
  }

  lemma SynRcvCurrent(app: ServerApp, seg: TcpSegment, c: Conn, now: Time)
    requires c.state.SynReceived?
    ensures Current(seg, c, HandleSynRcv(app, seg, c, now))
  {
    hide DataOrAck, DrainTransmittable, CloseWaitOrLastAck, AckedConn, AckedWindow, CheckSeq, Drain, Precedes,
         PrecedesOrEq, DeliverBuffered, FinReached, BufferSegment, CloseOnInOrderFin;
    if seg.flags == Ack && CheckSeq(seg, c.rcvNxt) == InOrder {
      HandshakeCurrent(app, seg, c, now);
    } else if seg.flags == FinAck {
      FinCurrent(app, seg, c, CompleteHandshake(seg, c), now);
    }
  }

  /** An in-order FIN on `c1`, which is `c` or what the handshake has made of it. */
  lemma FinCurrent(app: ServerApp, seg: TcpSegment, c: Conn, c1: Conn, now: Time)
    requires c1.state.Established? && seg.flags == FinAck && c1.rcvNxt == c.rcvNxt
    ensures Current(seg, c, CloseOnInOrderFin(app, seg, c1, c1.state.window, now))
  {
    hide DataOrAck, DrainTransmittable, CloseWaitOrLastAck, AckedConn, AckedWindow;
    var c4 := ConsumeFin(Deliver(app, c1, Bytes(seg.payload)));
    SendingAcks(AckedConn(c4, seg.ackNum), AckedWindow(c4, c1.state.window, seg), None, now);
  }

  /** The acknowledgment that completes the handshake, with the data it carries. */
  lemma HandshakeCurrent(app: ServerApp, seg: TcpSegment, c: Conn, now: Time)
    requires c.state.SynReceived? && seg.flags == Ack && CheckSeq(seg, c.rcvNxt) == InOrder
    ensures Current(seg, c, HandleSynRcv(app, seg, c, now))
  {
    hide DataOrAck, DrainTransmittable, CloseWaitOrLastAck, AckedConn, AckedWindow, CheckSeq, Drain, Precedes,
         PrecedesOrEq, DeliverBuffered, FinReached, BufferSegment, CloseOnInOrderFin;
    var c1 := CompleteHandshake(seg, c);
    var w := c1.state.window;
    var c3 := DeliverBuffered(app, Deliver(app, c1, Bytes(seg.payload)));
    SendingAcks(ConsumeFin(c3), w, None, now);
    SendingAcks(c3, w, None, now);
    if DrainTransmittable(c3, w).Ok? {
      SendingAcks(DrainTransmittable(c3, w).value.conn, w, DrainTransmittable(c3, w).value.payload, now);
    }
  }

  lemma EstablishedCurrent(app: ServerApp, seg: TcpSegment, c: Conn, now: Time)
    requires c.state.Established?
    ensures Current(seg, c, HandleEstablished(app, seg, c, now))
  {
    hide DataOrAck, DrainTransmittable, CloseWaitOrLastAck, AckedConn, AckedWindow, CheckSeq, Drain, Precedes,
         PrecedesOrEq, DeliverBuffered, FinReached, BufferSegment, Current;
    if && seg.flags == Ack && seg.payload != None && CheckSeq(seg, c.rcvNxt) == InOrder
       && !Precedes(c.sndNxt, seg.ackNum) {
      DataCurrent(app, seg, c, now);
    } else {
      OtherCurrent(app, seg, c, now);
    }
  }

  lemma DataCurrent(app: ServerApp, seg: TcpSegment, c: Conn, now: Time)
    requires c.state.Established? && seg.flags == Ack && seg.payload != None
    requires CheckSeq(seg, c.rcvNxt) == InOrder && !Precedes(c.sndNxt, seg.ackNum)
    ensures Current(seg, c, HandleEstablished(app, seg, c, now))
  {
    hide DataOrAck, DrainTransmittable, CloseWaitOrLastAck, AckedConn, AckedWindow, CheckSeq, Drain, Precedes,
         PrecedesOrEq, DeliverBuffered, FinReached, BufferSegment;
    var w1 := AckedWindow(c, c.state.window, seg);
    var c1 := AckedConn(c, seg.ackNum).(state := Established(w1));
    var c3 := DeliverBuffered(app, Deliver(app, c1, Bytes(seg.payload)));
    SendingAcks(ConsumeFin(c3), w1, None, now);
    SendingAcks(c3, w1, None, now);
    if DrainTransmittable(c3, w1).Ok? {
      SendingAcks(DrainTransmittable(c3, w1).value.conn, w1, DrainTransmittable(c3, w1).value.payload, now);
    }
  }

  lemma OtherCurrent(app: ServerApp, seg: TcpSegment, c: Conn, now: Time)
    requires c.state.Established?
    requires !(&& seg.flags == Ack && seg.payload != None && CheckSeq(seg, c.rcvNxt) == InOrder
               && !Precedes(c.sndNxt, seg.ackNum))
    ensures Current(seg, c, HandleEstablished(app, seg, c, now))
  {
    hide DataOrAck, DrainTransmittable, CloseWaitOrLastAck, AckedConn, AckedWindow, CheckSeq, Drain, Precedes,
         PrecedesOrEq, DeliverBuffered, FinReached, BufferSegment;
    var w := c.state.window;
    var w1 := AckedWindow(c, w, seg);
    AckedStays(c, seg.ackNum);
    SendingAcks(AckedConn(c, seg.ackNum).(state := Established(w1)), w1, None, now);
    var c4 := ConsumeFin(Deliver(app, c, Bytes(seg.payload)));
    SendingAcks(AckedConn(c4, seg.ackNum), AckedWindow(c4, w, seg), None, now);
    BufferStays(AckedConn(c, seg.ackNum).(state := Established(w1)), seg);
  }

  // Retransmissions

  ghost predicate Emitted(info: SendInfo, h: History) {
    exists e :: e in h.emitted && e.info == info
  }

  /** Whatever is pending has been emitted as it stands. */
  ghost predicate PendingEmitted(w: World) {
    w.Live? ==> forall p :: p in w.conn.pending ==> Emitted(p.info, w.hist)
  }

  lemma {:induction false} DueAreEmitted(pending: seq<PendingSegment>, q: int, rto: RtoConfig, now: Time, h: History)
    requires forall p :: p in pending ==> Emitted(p.info, h)
    ensures forall e :: e in DueEmissions(pending, q, rto, now) ==> Emitted(e.info, h)
  {
    hide Emitted, Due;
    if pending != [] {
      assert pending[0] in pending;
      DueAreEmitted(pending[1..], q + Consumed(pending[0].info), rto, now, h);
    }
  }

  lemma EmittedLater(info: SendInfo, h: History, h': History)
    requires Emitted(info, h) && h.emitted <= h'.emitted
    ensures Emitted(info, h')
  {
    var e :| e in h.emitted && e.info == info;
    assert e in h'.emitted;
  }

  lemma StepKeepsPendingEmitted(cfg: Config, w: World, e: Event)
    requires PendingEmitted(w)
    ensures PendingEmitted(Step(cfg, w, e)) && w.hist.emitted <= Step(cfg, w, e).hist.emitted
  {
    hide HandleKnown, GivesUp, AfterResend, DueEmissions, Emitted;
    if w.Live? && Step(cfg, w, e).Live? {
      var w' := Step(cfg, w, e);
      if e.Arrive? {
        PendingIsReply(cfg.app, e.seg, w.conn, e.now);
        NewestIsEmitted(w'.hist);
      } else if e.Timeout? {
        assert forall i :: 0 <= i < |w'.conn.pending| ==> w.conn.pending[i] in w.conn.pending;
      } else {
        NewestIsEmitted(w'.hist);
      }
      forall p | p in w.conn.pending
        ensures Emitted(p.info, w'.hist)
      {
        EmittedLater(p.info, w.hist, w'.hist);
      }
    }
  }

  lemma NewestIsEmitted(h: History)
    ensures h.emitted != [] ==> Emitted(h.emitted[|h.emitted| - 1].info, h)
  {
  }

  lemma {:induction false} RunKeepsPendingEmitted(cfg: Config, w: World, events: seq<Event>)
    requires PendingEmitted(w)
    ensures PendingEmitted(Run(cfg, w, events))
    decreases |events|
  {
    hide Step, PendingEmitted;
    if events != [] {
      StepKeepsPendingEmitted(cfg, w, events[0]);
      RunKeepsPendingEmitted(cfg, Step(cfg, w, events[0]), events[1..]);
    }
  }

  /** Whatever a timeout emits was emitted before, with the same sequence number, acknowledgment, flags and data. */
  lemma RetransmissionsRepeat(
    cfg: Config, iss: SeqPoint, syn: TcpSegment, now: Time, events: seq<Event>, at: Time, i: nat)
    requires var w := Run(cfg, Opened(iss, syn, now), events);
             |w.hist.emitted| <= i < |Step(cfg, w, Timeout(at)).hist.emitted|
    ensures var w := Run(cfg, Opened(iss, syn, now), events);
            Emitted(Step(cfg, w, Timeout(at)).hist.emitted[i].info, w.hist)
  {
    hide Run, GivesUp, DueEmissions, Emitted;
    var w0 := Opened(iss, syn, now);
    NewestIsEmitted(w0.hist);
    RunKeepsPendingEmitted(cfg, w0, events);
    var w := Run(cfg, w0, events);
    DueAreEmitted(w.conn.pending, PendingOffset(w.conn, w.hist), cfg.rto, at, w.hist);
  }

  // SYN-ACKs

  predicate SynArrives(w: World, e: Event) {
    w.Live? && w.conn.state.SynReceived? && e.Arrive? && e.seg.flags == Syn
  }

  /** Every SYN that arrives in SYN-RECEIVED repeats the one that opened the connection. */
  ghost predicate SynsRepeat(cfg: Config, w: World, events: seq<Event>)
    decreases |events|
  {
    events != [] ==>
      && (SynArrives(w, events[0]) ==> events[0].seg.seqNum == w.hist.irs)
      && SynsRepeat(cfg, Step(cfg, w, events[0]), events[1..])
  }

  /** Every SYN-ACK emitted so far acknowledges the SYN that opened the connection. */
  ghost predicate SynAcksRight(h: History) {
    forall e :: e in h.emitted && e.info.flags == SynAck ==> e.info.ackNum == Add(h.irs, 1)
  }

  lemma SynAcksExtend(h: History, h': History, added: seq<Emission>)
    requires h'.irs == h.irs && h'.emitted == h.emitted + added
    ensures SynAcksRight(h') <==>
            SynAcksRight(h) && forall e :: e in added && e.info.flags == SynAck ==> e.info.ackNum == Add(h.irs, 1)
  {
    hide Add;
    assert forall e :: e in h'.emitted <==> e in h.emitted || e in added;
  }

  lemma AddOneInjective(p: SeqPoint, q: SeqPoint)
    ensures Add(p, 1) == Add(q, 1) <==> p == q
  {
  }

  lemma StepSynAcks(cfg: Config, w: World, e: Event)
    requires PendingEmitted(w)
    ensures SynAcksRight(Step(cfg, w, e).hist) <==>
            SynAcksRight(w.hist) && (SynArrives(w, e) ==> e.seg.seqNum == w.hist.irs)
  {
    hide HandleKnown, GivesUp, AfterResend, DueEmissions, SynAcksRight, Add, Emitted;
    if w.Live? {
      var c, h, h' := w.conn, w.hist, Step(cfg, w, e).hist;
      match e
      case Arrive(seg, now) =>
        ArrivalSynAcks(cfg, c, h, seg, now);
      case Timeout(now) =>
        if !GivesUp(c.pending, cfg.rto, cfg.maxRetries, now) {
          var due := DueEmissions(c.pending, PendingOffset(c, h), cfg.rto, now);
          DueAreEmitted(c.pending, PendingOffset(c, h), cfg.rto, now, h);
          SynAcksExtend(h, h', due);
          RepeatedStayRight(h, due);
        }
      case ActiveClose(now) =>
        if c.state.Established? {
          SynAcksExtend(h, h', [Emission(|h.sent|, CloseActively(c, now).info)]);
        }
    }
  }

  lemma RepeatedStayRight(h: History, due: seq<Emission>)
    requires forall e :: e in due ==> Emitted(e.info, h)
    ensures SynAcksRight(h) ==> forall e :: e in due && e.info.flags == SynAck ==> e.info.ackNum == Add(h.irs, 1)
  {
    hide Add;
  }

  lemma ArrivalSynAcks(cfg: Config, c: Conn, h: History, seg: TcpSegment, now: Time)
    ensures SynAcksRight(Step(cfg, Live(c, h), Arrive(seg, now)).hist) <==>
            SynAcksRight(h) && (SynArrives(Live(c, h), Arrive(seg, now)) ==> seg.seqNum == h.irs)
  {
    hide HandleKnown, SynAcksRight, Add;
    var r, h' := HandleKnown(cfg.app, seg, c, now), Step(cfg, Live(c, h), Arrive(seg, now)).hist;
    RepliesAreCurrent(cfg.app, seg, c, now);
    if c.state.SynReceived? && seg.flags == Syn {
      SynIsAnswered(cfg.app, seg, c, now);
    }
    AddOneInjective(seg.seqNum, h.irs);
    if ReplyOf(r).Some? {
      SynAcksExtend(h, h', [Emission(|h.sent|, ReplyOf(r).value)]);
    } else {
      SynAcksExtend(h, h', []);
    }
  }

  lemma SynIsAnswered(app: ServerApp, seg: TcpSegment, c: Conn, now: Time)
    requires c.state.SynReceived? && seg.flags == Syn
    ensures HandleKnown(app, seg, c, now).reply ==
            Ok(Reply(Some(SendInfo(c.sndUna, Add(seg.seqNum, 1), SynAck, None)), false))
    ensures HandleKnown(app, seg, c, now).conn == c.(pending := HandleKnown(app, seg, c, now).conn.pending)
  {
  }

  /** In SYN-RECEIVED a SYN is answered from the ISN, and with RCV.NXT if and only if it repeats the first one. */
  lemma SynReplyExactly(app: ServerApp, seg: TcpSegment, c: Conn, now: Time)
    requires c.state.SynReceived? && seg.flags == Syn
    ensures var r := HandleKnown(app, seg, c, now);
            && r.reply.Ok? && r.reply.value.info.Some? && r.conn.rcvNxt == c.rcvNxt && r.conn.state.SynReceived?
            && r.reply.value.info.value.seqNum == c.sndUna
            && (r.reply.value.info.value.ackNum == r.conn.rcvNxt <==> Add(seg.seqNum, 1) == c.rcvNxt)
  {
    SynIsAnswered(app, seg, c, now);
  }

  lemma {:induction false} RunSynAcks(cfg: Config, w: World, events: seq<Event>)
    requires PendingEmitted(w)
    ensures SynAcksRight(Run(cfg, w, events).hist) <==> SynAcksRight(w.hist) && SynsRepeat(cfg, w, events)
    decreases |events|
  {
    hide Step, PendingEmitted, SynAcksRight;
    if events != [] {
      StepKeepsPendingEmitted(cfg, w, events[0]);
      StepSynAcks(cfg, w, events[0]);
      RunSynAcks(cfg, Step(cfg, w, events[0]), events[1..]);
    }
  }

  /**
   In every run: all emitted SYN-ACKs, first ones and retransmissions, acknowledge ISN + 1 of the
   client if and only if no SYN with another sequence number has come in SYN-RECEIVED.
   */
  lemma SynAcksExactly(cfg: Config, iss: SeqPoint, syn: TcpSegment, now: Time, events: seq<Event>)
    ensures var h := Run(cfg, Opened(iss, syn, now), events).hist;
            (forall e :: e in h.emitted && e.info.flags == SynAck ==> e.info.ackNum == Add(syn.seqNum, 1)) <==>
            SynsRepeat(cfg, Opened(iss, syn, now), events)
  {
    hide Run, SynsRepeat;
    NewestIsEmitted(Opened(iss, syn, now).hist);
    RunSynAcks(cfg, Opened(iss, syn, now), events);
    RunKeepsOrigin(cfg, Opened(iss, syn, now), events);
  }

  const STRAY_SYN := SYN_SEGMENT.(seqNum := 5000)
  const STRAY_ACK := ACK_SEGMENT.(seqNum := 5001)

  /**
   A stray SYN: its SYN-ACK acknowledges 5001 with RCV.NXT at 1, stays pending beside the first
   one, and the acknowledgment a client would send for it establishes the connection with RCV.NXT
   still at 1.
   */
  lemma StraySynIsAnswered(cfg: Config, now: Time)
    ensures var w := Run(cfg, Opened(0, SYN_SEGMENT, now), [Arrive(STRAY_SYN, now)]);
            && w.Live? && w.conn.state.SynReceived? && w.conn.rcvNxt == 1 && !SynAcksRight(w.hist)
            && |w.conn.pending| == 2 && w.conn.pending[1].info == SendInfo(0, 5001, SynAck, None)
            && !SynsRepeat(cfg, Opened(0, SYN_SEGMENT, now), [Arrive(STRAY_SYN, now)])
            && var w' := Step(cfg, w, Arrive(STRAY_ACK, now));
               w'.Live? && w'.conn.state.Established? && w'.conn.rcvNxt == 1
  {
    var start := Opened(0, SYN_SEGMENT, now);
    var info := SendInfo(0, 5001, SynAck, None);
    SynIsAnswered(cfg.app, STRAY_SYN, start.conn, now);
    var w := Step(cfg, start, Arrive(STRAY_SYN, now));
    assert [Arrive(STRAY_SYN, now)][1..] == [];
    assert w == Run(cfg, start, [Arrive(STRAY_SYN, now)]);
    assert w.hist.emitted[1].info == info && w.hist.emitted[1] in w.hist.emitted;
    assert w.conn.pending[1].info == info;
    HandshakeAck(w.conn, 1);
    CheckIsWindow(STRAY_ACK, w.conn);
    InWindowExact(5001, 1, RCV_WND);
    HandshakeOutOfOrder(cfg.app, STRAY_ACK, w.conn, now);
  }

  /** An acknowledgment of our SYN ahead of RCV.NXT completes the handshake and leaves RCV.NXT alone. */
  lemma HandshakeOutOfOrder(app: ServerApp, seg: TcpSegment, c: Conn, now: Time)
    requires c.state.SynReceived? && seg.flags == Ack && CheckSeq(seg, c.rcvNxt) == OutOfOrder
    requires Precedes(c.sndUna, seg.ackNum) && PrecedesOrEq(seg.ackNum, c.sndNxt)
    ensures var r := HandleKnown(app, seg, c, now);
            r.reply.Ok? && !r.reply.value.remove && r.conn.state.Established? && r.conn.rcvNxt == c.rcvNxt
  {
    hide CheckSeq, Precedes, PrecedesOrEq;
  }

  // Acknowledgments

  /**
   What `info` acknowledges is held: for a SYN-ACK the client's SYN, and later some of the first `k`
   bytes of the stream `s`, and its FIN only behind all of them. (The field of a bare reset is not
   significant.)
   */
  ghost predicate AckHeld(info: SendInfo, irs: SeqPoint, s: seq<byte>, k: nat) {
    match info.flags
    case SynAck => info.ackNum == Add(irs, 1)
    case Ack | FinAck =>
      exists n: nat, fin: bool :: n <= k && (fin ==> n == |s|) && info.ackNum == RcvPoint(irs, n, fin)
    case Rst => true
    case Syn | RstAck => false
  }

  ghost predicate AcksHeld(w: World, s: seq<byte>) {
    forall e :: e in w.hist.emitted ==> e.info.flags == SynAck || AckHeld(e.info, w.hist.irs, s, |w.hist.accepted|)
  }

  lemma AckHeldLater(info: SendInfo, irs: SeqPoint, s: seq<byte>, k: nat, k': nat)
    requires AckHeld(info, irs, s, k) && k <= k'
    ensures AckHeld(info, irs, s, k')
  {
  }

  lemma AckHeldNow(info: SendInfo, irs: SeqPoint, s: seq<byte>, k: nat, fin: bool)
    requires info.ackNum == RcvPoint(irs, k, fin) && (fin ==> k == |s|) && info.flags in {Ack, FinAck}
    ensures AckHeld(info, irs, s, k)
  {
  }

  lemma ArrivalKeepsAcksHeld(cfg: Config, c: Conn, h: History, seg: TcpSegment, now: Time, s: seq<byte>)
    requires AcksHeld(Live(c, h), s) && ReceiveHistory(Live(c, h), s) && SendHistory(cfg, Live(c, h))
    requires Sound(Live(c, h), Arrive(seg, now)) && Faithful(Live(c, h), Arrive(seg, now), s)
    ensures AcksHeld(Step(cfg, Live(c, h), Arrive(seg, now)), s)
  {
    hide HandleKnown, SendHistory, Slip, FromStream, BufferInv, AheadInv, AckHeld, RcvPoint;
    var r := HandleKnown(cfg.app, seg, c, now);
    var w' := Step(cfg, Live(c, h), Arrive(seg, now));
    forall e | e in h.emitted && e.info.flags != SynAck
      ensures AckHeld(e.info, h.irs, s, |w'.hist.accepted|)
    {
      AckHeldLater(e.info, h.irs, s, |h.accepted|, |w'.hist.accepted|);
    }
    if r.reply.Ok? && r.reply.value.info.Some? {
      var info := r.reply.value.info.value;
      RepliesAreCurrent(cfg.app, seg, c, now);
      if c.state.SynReceived? && seg.flags == Syn {
        SynIsAnswered(cfg.app, seg, c, now);
      }
      ArrivalReceives(cfg.app, seg, c, now, h.irs, s, h.accepted);
      if info.flags == Rst {
        OtherFlags(info, h.irs, s, |w'.hist.accepted|);
      } else if info.flags == SynAck {
      } else if r.reply.value.remove {
        RemovalReplies(cfg.app, seg, c, now);
        AckHeldNow(info, h.irs, s, |w'.hist.accepted|, true);
      } else {
        AckHeldNow(info, h.irs, s, |w'.hist.accepted|, r.conn.state.PeerFin());
      }
    }
  }

  lemma OtherFlags(info: SendInfo, irs: SeqPoint, s: seq<byte>, k: nat)
    requires info.flags == Rst
    ensures AckHeld(info, irs, s, k)
  {
  }

  /** The only removal that is answered is the one by the peer's FIN. */
  lemma RemovalReplies(app: ServerApp, seg: TcpSegment, c: Conn, now: Time)
    ensures var r := HandleKnown(app, seg, c, now);
            r.reply.Ok? && r.reply.value.remove && r.reply.value.info.Some? ==> seg.flags == FinAck
  {
    hide DataOrAck, DrainTransmittable, CloseWaitOrLastAck, AckedConn, AckedWindow, CheckSeq, Drain, Precedes,
         PrecedesOrEq, DeliverBuffered, FinReached, BufferSegment;
  }

  lemma StepKeepsAcksHeld(cfg: Config, w: World, e: Event, s: seq<byte>)
    requires AcksHeld(w, s) && PendingEmitted(w) && ReceiveHistory(w, s) && SendHistory(cfg, w) && Sound(w, e)
    requires Faithful(w, e, s)
    ensures AcksHeld(Step(cfg, w, e), s)
  {
    hide HandleKnown, GivesUp, AfterResend, DueEmissions, Slip, FromStream, BufferInv, AheadInv, SendHistory, AckHeld,
         RcvPoint;
    if w.Live? {
      match e
      case Arrive(seg, now) => ArrivalKeepsAcksHeld(cfg, w.conn, w.hist, seg, now, s);
      case Timeout(now) => DueAreEmitted(w.conn.pending, PendingOffset(w.conn, w.hist), cfg.rto, now, w.hist);
      case ActiveClose(now) =>
        if w.conn.state.Established? {
          AckHeldNow(CloseActively(w.conn, now).info, w.hist.irs, s, |w.hist.accepted|, false);
        }
    }
  }

  lemma {:induction false} RunKeepsAcksHeld(cfg: Config, w: World, events: seq<Event>, s: seq<byte>)
    requires AcksHeld(w, s) && PendingEmitted(w) && ReceiveHistory(w, s) && SendHistory(cfg, w)
    requires AllSound(cfg, w, events) && AllFaithful(cfg, w, events, s)
    ensures AcksHeld(Run(cfg, w, events), s)
    decreases |events|
  {
    hide Step, SendHistory, ReceiveHistory, PendingEmitted, AcksHeld, Sound, Faithful;
    if events != [] {
      StepKeepsSendHistory(cfg, w, events[0]);
      StepKeepsReceiveHistory(cfg, w, events[0], s);
      StepKeepsPendingEmitted(cfg, w, events[0]);
      StepKeepsAcksHeld(cfg, w, events[0], s);
      RunKeepsAcksHeld(cfg, Step(cfg, w, events[0]), events[1..], s);
    }
  }

  lemma SynAckHeld(info: SendInfo, irs: SeqPoint, s: seq<byte>, k: nat)
    requires info.flags == SynAck
    ensures AckHeld(info, irs, s, k) <==> info.ackNum == Add(irs, 1)
  {
  }

  /**
   In every run: no emitted segment acknowledges anything that was not accepted (beyond the
   client's SYN, a byte, or the FIN before all bytes) if and only if no stray SYN has come in
   SYN-RECEIVED. Plain and FIN acknowledgments never do.
   */
  lemma EmittedAcksAreHeld(
    cfg: Config, iss: SeqPoint, syn: TcpSegment, now: Time, events: seq<Event>, w: World, s: seq<byte>)
    requires ReachableWith(cfg, iss, syn, now, events, w, s)
    ensures (forall e :: e in w.hist.emitted ==> AckHeld(e.info, syn.seqNum, s, |w.hist.accepted|)) <==>
            SynsRepeat(cfg, Opened(iss, syn, now), events)
    ensures forall e :: e in w.hist.emitted && e.info.flags != SynAck ==>
              AckHeld(e.info, syn.seqNum, s, |w.hist.accepted|)
  {
    hide AllSound, AllFaithful, Run, SendHistory, ReceiveHistory, At, Add, AckHeld, SynsRepeat;
    var w0 := Opened(iss, syn, now);
    OpenedSends(cfg, iss, syn, now);
    OpenedReceives(iss, syn, now, s);
    NewestIsEmitted(w0.hist);
    RunKeepsAcksHeld(cfg, w0, events, s);
    RunKeepsOrigin(cfg, w0, events);
    SynAcksExactly(cfg, iss, syn, now, events);
    forall e | e in w.hist.emitted && e.info.flags == SynAck
      ensures AckHeld(e.info, syn.seqNum, s, |w.hist.accepted|) <==> e.info.ackNum == Add(syn.seqNum, 1)
    {
      SynAckHeld(e.info, syn.seqNum, s, |w.hist.accepted|);
    }
  }

  // Everything taken is acknowledged

  /** Some emission acknowledges `rcvNxt`. */
  ghost predicate AcknowledgedUpTo(h: History, rcvNxt: SeqPoint) {
    exists e :: e in h.emitted && e.info.flags in {SynAck, Ack, FinAck} && e.info.ackNum == rcvNxt
  }

  lemma AcknowledgedLater(h: History, h': History, rcvNxt: SeqPoint)
    requires AcknowledgedUpTo(h, rcvNxt) && h.emitted <= h'.emitted
    ensures AcknowledgedUpTo(h', rcvNxt)
  {
    var e :| e in h.emitted && e.info.flags in {SynAck, Ack, FinAck} && e.info.ackNum == rcvNxt;
    assert e in h'.emitted;
  }

  lemma ArrivalAcknowledges(cfg: Config, c: Conn, h: History, seg: TcpSegment, now: Time)
    requires SendHistory(cfg, Live(c, h)) && !Slip(seg, c) && AcknowledgedUpTo(h, c.rcvNxt)
    ensures AcknowledgedUpTo(Step(cfg, Live(c, h), Arrive(seg, now)).hist,
                             HandleKnown(cfg.app, seg, c, now).conn.rcvNxt)
  {
    hide HandleKnown, SendInv, Slip, EmittedTruthful, Truthful, AcknowledgedUpTo;
    ArrivalSends(cfg.app, seg, c, now, h.iss, h.sent);
    TakenIsAcknowledged(cfg.app, seg, c, now);
    var r := HandleKnown(cfg.app, seg, c, now);
    var h' := Recorded(h, seg, c, r);
    if r.conn.rcvNxt == c.rcvNxt {
      AcknowledgedLater(h, h', c.rcvNxt);
    } else {
      LastAcknowledges(h, h', r.reply.value.info.value);
    }
  }

  lemma LastAcknowledges(h: History, h': History, info: SendInfo)
    requires h'.emitted == h.emitted + [Emission(|h.sent|, info)] && info.flags in {SynAck, Ack, FinAck}
    ensures AcknowledgedUpTo(h', info.ackNum)
  {
    assert h'.emitted[|h.emitted|] == Emission(|h.sent|, info) && h'.emitted[|h.emitted|] in h'.emitted;
  }

  ghost predicate AllAcknowledged(w: World) {
    w.Live? ==> AcknowledgedUpTo(w.hist, w.conn.rcvNxt)
  }

  lemma StepAcknowledges(cfg: Config, w: World, e: Event)
    requires SendHistory(cfg, w) && Sound(w, e) && AllAcknowledged(w)
    ensures AllAcknowledged(Step(cfg, w, e))
  {
    hide HandleKnown, SendHistory, Slip, GivesUp, AfterResend, DueEmissions, AcknowledgedUpTo;
    if w.Live? {
      if e.Arrive? {
        ArrivalAcknowledges(cfg, w.conn, w.hist, e.seg, e.now);
      } else if Step(cfg, w, e).Live? {
        AcknowledgedLater(w.hist, Step(cfg, w, e).hist, w.conn.rcvNxt);
      }
    }
  }

  lemma {:induction false} RunAcknowledges(cfg: Config, w: World, events: seq<Event>)
    requires SendHistory(cfg, w) && AllSound(cfg, w, events) && AllAcknowledged(w)
    ensures AllAcknowledged(Run(cfg, w, events))
    decreases |events|
  {
    hide Step, SendHistory, AllAcknowledged, Sound;
    if events != [] {
      StepKeepsSendHistory(cfg, w, events[0]);
      StepAcknowledges(cfg, w, events[0]);
      RunAcknowledges(cfg, Step(cfg, w, events[0]), events[1..]);
    }
  }

  lemma OpenedAcknowledges(iss: SeqPoint, syn: TcpSegment, now: Time)
    ensures AllAcknowledged(Opened(iss, syn, now))
  {
    var w := Opened(iss, syn, now);
    assert w.hist.emitted[0] in w.hist.emitted;
  }

  /**
   In every run, all that has been taken from the client is acknowledged by some emitted segment: every
   accepted byte, and the FIN once it is consumed. That holds of the segment that ends the connection
   too.
   */
  lemma EverythingIsAcknowledged(
    cfg: Config, iss: SeqPoint, syn: TcpSegment, now: Time, events: seq<Event>, w: World, s: seq<byte>)
    requires ReachableWith(cfg, iss, syn, now, events, w, s) && w.Live?
    ensures var taken := |w.hist.accepted| + if w.conn.state.PeerFin() then 1 else 0;
            AcknowledgedUpTo(w.hist, At(syn.seqNum + 1 + taken))
    ensures forall seg, at ::
              !Slip(seg, w.conn) ==>
                AcknowledgedUpTo(Step(cfg, w, Arrive(seg, at)).hist, HandleKnown(cfg.app, seg, w.conn, at).conn.rcvNxt)
  {
    hide AllSound, AllFaithful, Run, SendHistory, AcknowledgedUpTo, Slip, HandleKnown, Step, At;
    OpenedSends(cfg, iss, syn, now);
    OpenedAcknowledges(iss, syn, now);
    RunAcknowledges(cfg, Opened(iss, syn, now), events);
    DeliveredIsPrefix(cfg, iss, syn, now, events, w, s);
    ReachableSends(cfg, iss, syn, now, events, w);
    forall seg, at | !Slip(seg, w.conn)
      ensures AcknowledgedUpTo(Step(cfg, w, Arrive(seg, at)).hist, HandleKnown(cfg.app, seg, w.conn, at).conn.rcvNxt)
    {
      ArrivalAcknowledges(cfg, w.conn, w.hist, seg, at);
    }
  }
}
