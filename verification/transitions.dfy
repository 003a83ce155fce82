/** What one arriving segment may do to the state, the frontiers and the window of a connection. */
module Transitions {
  import opened Base
  import opened SeqSpace
  import opened Segment
  import opened Pending
  import opened Reassembly
  import opened State
  import opened SendInfos
  import opened SendSide
  import InFlightStream

  lemma ClosingFrame(c: Conn, w: WindowState, now: Time)
    ensures var r := CloseWaitOrLastAck(c, w, now);
            && (r.info.Err? ==> r.conn == c)
            && (r.info.Ok? ==> r.conn.state in {CloseWait(w), LastAck(w)} && r.conn.rcvNxt == c.rcvNxt)
  {
  }

  lemma AckedStays(c: Conn, ack: SeqPoint)
    ensures AckedConn(c, ack) == c.(sndUna := AckedConn(c, ack).sndUna, pending := AckedConn(c, ack).pending)
  {
  }

  lemma DataFrame(c: Conn, w: WindowState, payload: Option<Payload>, now: Time)
    ensures DataOrAck(c, payload, now).conn.state == c.state
    ensures DrainTransmittable(c, w).Ok? ==> DrainTransmittable(c, w).value.conn.state == c.state
  {
  }

  /** The connections an open-state step may go through, all in ESTABLISHED or on their way to close. */
  lemma OpenFrame(app: ServerApp, seg: TcpSegment, c: Conn, w: WindowState, now: Time)
    ensures var c3 := DeliverBuffered(app, Deliver(app, c, Bytes(seg.payload)));
            && c3.state == c.state
            && (DrainTransmittable(c3, w).Ok? ==>
                  var t := DrainTransmittable(c3, w).value;
                  t.conn.state == c.state && DataOrAck(t.conn, t.payload, now).conn.state == c.state)
            && (var r := CloseWaitOrLastAck(ConsumeFin(c3), w, now);
                r.conn.state == c.state || r.conn.state in {CloseWait(w), LastAck(w)})
  {
    hide DataOrAck, DrainTransmittable, CloseWaitOrLastAck;
    var c3 := DeliverBuffered(app, Deliver(app, c, Bytes(seg.payload)));
    DataFrame(c3, w, None, now);
    if DrainTransmittable(c3, w).Ok? {
      var t := DrainTransmittable(c3, w).value;
      DataFrame(t.conn, w, t.payload, now);
    }
    ClosingFrame(ConsumeFin(c3), w, now);
  }

  /** The states ESTABLISHED can lead to. */
  lemma EstablishedNext(app: ServerApp, seg: TcpSegment, c: Conn, now: Time)
    requires c.state.Established?
    ensures var w1 := AckedWindow(c, c.state.window, seg);
            HandleEstablished(app, seg, c, now).conn.state in {c.state, Established(w1), CloseWait(w1), LastAck(w1)}
  {
    hide DataOrAck, DrainTransmittable, CloseWaitOrLastAck, AckedConn, AckedWindow, CheckSeq, Drain, Precedes,
         PrecedesOrEq, DeliverBuffered, Deliver, FinReached, CloseOnInOrderFin;
    var w := c.state.window;
    var w1 := AckedWindow(c, w, seg);
    var c1 := AckedConn(c, seg.ackNum).(state := Established(w1));
    AckedStays(c, seg.ackNum);
    OpenFrame(app, seg, c1, w1, now);
    DataFrame(c1, w1, None, now);
    FinFrame(app, seg, c, w, now);
    if DrainTransmittable(c1, w1).Ok? {
      DataFrame(DrainTransmittable(c1, w1).value.conn, w1, DrainTransmittable(c1, w1).value.payload, now);
    }
  }

  /** The states an in-order FIN leads to. */
  lemma FinFrame(app: ServerApp, seg: TcpSegment, c: Conn, w: WindowState, now: Time)
    ensures var w1 := AckedWindow(c, w, seg);
            CloseOnInOrderFin(app, seg, c, w, now).conn.state in {c.state, CloseWait(w1), LastAck(w1)}
  {
    hide Deliver, CloseWaitOrLastAck, AckedConn, Freshened, Acceptable;
    var c2 := ConsumeFin(Deliver(app, c, Bytes(seg.payload)));
    DeliverFrame(app, c, Bytes(seg.payload));
    AcceptableFrame(app, seg, c);
    AckedStays(c2, seg.ackNum);
    ClosingFrame(AckedConn(c2, seg.ackNum), AckedWindow(c2, w, seg), now);
  }

  /** The states SYN-RECEIVED can lead to. */
  lemma SynRcvNext(app: ServerApp, seg: TcpSegment, c: Conn, now: Time)
    requires c.state.SynReceived?
    ensures var w := Establish(seg);
            HandleSynRcv(app, seg, c, now).conn.state in {SynReceived, Established(w), CloseWait(w), LastAck(w)}
  {
    hide DataOrAck, DrainTransmittable, CloseWaitOrLastAck, AckedConn, CheckSeq, Drain, Precedes, PrecedesOrEq,
         DeliverBuffered, Deliver, FinReached, CloseOnInOrderFin;
    var c1 := CompleteHandshake(seg, c);
    OpenFrame(app, seg, c1, c1.state.window, now);
    FinFrame(app, seg, c1, c1.state.window, now);
  }

  /** A step keeps a connection in the state it is in or moves it on; it never moves it back. */
  lemma StateAdvances(app: ServerApp, seg: TcpSegment, c: Conn, now: Time)
    ensures var c' := HandleKnown(app, seg, c, now).conn;
            c'.state.SameKind(c.state) || c'.state.Rank() > c.state.Rank()
  {
    hide CloseWaitOrLastAck, AckedConn, AckedWindow, CheckSeq, HandleSynRcv, HandleEstablished;
    if c.state.SynReceived? {
      SynRcvNext(app, seg, c, now);
    } else if c.state.Established? {
      EstablishedNext(app, seg, c, now);
    } else {
      AckedStays(c, seg.ackNum);
      AckedStays(Discard(c, Bytes(seg.payload)), seg.ackNum);
      AckedStays(ConsumeFin(Discard(c, Bytes(seg.payload))), seg.ackNum);
      ClosingFrame(AckedConn(c, seg.ackNum), AckedWindow(c, c.state.window, seg), now);
    }
  }

  lemma DeliverFrame(app: ServerApp, c: Conn, data: seq<byte>)
    ensures Deliver(app, c, data).state == c.state
  {
  }

  /** Once our FIN is sent SND.NXT stands still; once the peer's FIN is consumed RCV.NXT does. */
  lemma FrontiersFreeze(app: ServerApp, seg: TcpSegment, c: Conn, now: Time)
    ensures var c' := HandleKnown(app, seg, c, now).conn;
            && (c.state.FinSent() ==>
                  && c'.state.FinSent() && c'.sndNxt == c.sndNxt && NewBytes(HandleKnown(app, seg, c, now)) == [])
            && (c.state.FinSent() && c'.state.LastAck? ==> c.state.LastAck?)
            && (c.state.PeerFin() ==> c'.state.PeerFin() && c'.rcvNxt == c.rcvNxt)
  {
    hide DataOrAck, DrainTransmittable, CloseWaitOrLastAck, AckedConn, AckedWindow, CheckSeq, HandleSynRcv,
         HandleEstablished;
    AckedStays(c, seg.ackNum);
    AckedStays(Discard(c, Bytes(seg.payload)), seg.ackNum);
    AckedStays(ConsumeFin(Discard(c, Bytes(seg.payload))), seg.ackNum);
    if c.state.CloseWait? {
      ClosingFrame(AckedConn(c, seg.ackNum), AckedWindow(c, c.state.window, seg), now);
    }
  }

  /**
   Outside the receive window a segment changes nothing, and is answered by an acknowledgment or, if a
   reset, not at all.
   */
  lemma OutsideWindowRejected(app: ServerApp, seg: TcpSegment, c: Conn, now: Time)
    requires !c.state.SynReceived? && !InWindow(seg.seqNum, c.rcvNxt, RCV_WND)
    ensures HandleKnown(app, seg, c, now) ==
            Replied(c,
                    if seg.flags in {Rst, RstAck} then None else Some(SendInfo(c.sndNxt, c.rcvNxt, Ack, None)),
                    false)
  {
    hide InWindow, DataOrAck, DrainTransmittable, CloseWaitOrLastAck, AckedConn, AckedWindow, Drain, Precedes;
    InWindowExact(seg.seqNum, c.rcvNxt, RCV_WND);
    assert Dist(c.rcvNxt, c.rcvNxt) == 0;
  }

  /** A segment carries the peer's FIN exactly at RCV.NXT, counting its own payload. */
  predicate InOrderFin(seg: TcpSegment, c: Conn) {
    seg.flags == FinAck && seg.seqNum == c.rcvNxt
  }

  /**
   A connection is removed by a segment in two ways only: an in-order reset, or the end of a close
   in which our FIN has been sent and acknowledged and the peer's FIN has been consumed.
   */
  lemma RemovedOnlyWhenDone(app: ServerApp, seg: TcpSegment, c: Conn, now: Time, iss: SeqPoint, sent: seq<byte>)
    requires SendInv(c, iss, sent)
    requires HandleKnown(app, seg, c, now).reply.Ok? && HandleKnown(app, seg, c, now).reply.value.remove
    ensures || (seg.flags in {Rst, RstAck} && seg.seqNum == c.rcvNxt)
            || (&& c.state.FinSent()
                && (c.state.PeerFin() || InOrderFin(seg, c))
                && (seg.ackNum == c.sndNxt || c.sndUna == c.sndNxt))
  {
    hide AckedConn, AckedWindow, InWindow, InFlightStream.InFlight, HandleSynRcv, HandleEstablished, CloseWaitOrLastAck;
    RemovedByReset(app, seg, c, now);
  }

  /** Before our FIN is sent only an in-order reset removes the connection. */
  lemma RemovedByReset(app: ServerApp, seg: TcpSegment, c: Conn, now: Time)
    ensures var r := HandleKnown(app, seg, c, now);
            && (c.state.SynReceived? || c.state.Established? || c.state.CloseWait?)
            && r.reply.Ok? && r.reply.value.remove ==>
              seg.flags in {Rst, RstAck} && seg.seqNum == c.rcvNxt && r == Replied(c, None, true)
  {
    hide Drain, InWindow, DrainTransmittable, CloseWaitOrLastAck, AckedConn, AckedWindow, PrecedesOrEq, Precedes,
         DataOrAck, DeliverBuffered, Deliver, BufferSegment, FinReached;
  }

  /** The window after a step: only an acknowledgment that is acted on and acceptable can change it. */
  lemma WindowStep(app: ServerApp, seg: TcpSegment, c: Conn, now: Time)
    requires HandleKnown(app, seg, c, now).reply.Ok? && !HandleKnown(app, seg, c, now).reply.value.remove
    requires !c.state.SynReceived?
    ensures var c' := HandleKnown(app, seg, c, now).conn;
            && !c'.state.SynReceived?
            && c'.state.window == if ReachesAckUpdate(seg, c) && Acceptable(c, seg.ackNum)
                                  then Freshened(c.state.window, seg) else c.state.window
  {
    hide CloseWaitOrLastAck, AckedConn, Acceptable, CheckSeq, Freshened, HandleEstablished;
    AckedStays(c, seg.ackNum);
    if c.state.Established? {
      EstablishedWindow(app, seg, c, now);
    } else {
      ClosingFrame(AckedConn(c, seg.ackNum), AckedWindow(c, c.state.window, seg), now);
    }
  }

  lemma EstablishedWindow(app: ServerApp, seg: TcpSegment, c: Conn, now: Time)
    requires c.state.Established? && HandleEstablished(app, seg, c, now).reply.Ok?
    ensures var c' := HandleEstablished(app, seg, c, now).conn;
            && !c'.state.SynReceived?
            && c'.state.window ==
               if ReachesAckUpdate(seg, c) then AckedWindow(c, c.state.window, seg) else c.state.window
  {
    hide DataOrAck, DrainTransmittable, CloseWaitOrLastAck, AckedConn, AckedWindow, CheckSeq, Drain, Precedes,
         PrecedesOrEq, DeliverBuffered, Deliver, FinReached, CloseOnInOrderFin;
    var w := c.state.window;
    var w1 := AckedWindow(c, w, seg);
    var c1 := AckedConn(c, seg.ackNum).(state := Established(w1));
    OpenFrame(app, seg, c1, w1, now);
    DataFrame(c1, w1, None, now);
    if DrainTransmittable(c1, w1).Ok? {
      DataFrame(DrainTransmittable(c1, w1).value.conn, w1, DrainTransmittable(c1, w1).value.payload, now);
    }
    ClosingFrame(ConsumeFin(DeliverBuffered(app, Deliver(app, c1, Bytes(seg.payload)))), w1, now);
    FinAnswered(app, seg, c, w, now);
  }

  /** An in-order FIN that is answered closes the connection with the new window. */
  lemma FinAnswered(app: ServerApp, seg: TcpSegment, c: Conn, w: WindowState, now: Time)
    ensures var w1 := AckedWindow(c, w, seg);
            var r := CloseOnInOrderFin(app, seg, c, w, now);
            r.reply.Ok? ==> r.conn.state in {CloseWait(w1), LastAck(w1)}
  {
    hide Deliver, CloseWaitOrLastAck, AckedConn, Freshened, Acceptable;
    var c2 := ConsumeFin(Deliver(app, c, Bytes(seg.payload)));
    AcceptableFrame(app, seg, c);
    ClosingFrame(AckedConn(c2, seg.ackNum), AckedWindow(c2, w, seg), now);
  }

  lemma AcceptableFrame(app: ServerApp, seg: TcpSegment, c: Conn)
    ensures Acceptable(ConsumeFin(Deliver(app, c, Bytes(seg.payload))), seg.ackNum) == Acceptable(c, seg.ackNum)
  {
  }

  /** Every pending segment of `c'` was pending in `c`, or is the reply `info` just sent for the first time. */
  ghost predicate PendingFrom(c: Conn, c': Conn, info: Option<SendInfo>) {
    forall p :: p in c'.pending ==> p in c.pending || (p.retries == 0 && info == Some(p.info))
  }

  function Answer<T>(r: Result<T>): Option<T> {
    if r.Ok? then Some(r.value) else None
  }

  function ReplyOf(r: Handled): Option<SendInfo> {
    if r.reply.Ok? then r.reply.value.info else None
  }

  lemma SendingPending(c: Conn, w: WindowState, payload: Option<Payload>, now: Time)
    ensures PendingFrom(c, DataOrAck(c, payload, now).conn, Some(DataOrAck(c, payload, now).info))
    ensures DrainTransmittable(c, w).Ok? ==> DrainTransmittable(c, w).value.conn.pending == c.pending
    ensures PendingFrom(c, CloseWaitOrLastAck(c, w, now).conn, Answer(CloseWaitOrLastAck(c, w, now).info))
  {
  }

  lemma OpenPending(app: ServerApp, seg: TcpSegment, c: Conn, w: WindowState, now: Time)
    ensures var c3 := DeliverBuffered(app, Deliver(app, c, Bytes(seg.payload)));
            var closed := CloseWaitOrLastAck(ConsumeFin(c3), w, now);
            && c3.pending == c.pending
            && PendingFrom(c, closed.conn, Answer(closed.info))
            && (DrainTransmittable(c3, w).Ok? ==>
                  var t := DrainTransmittable(c3, w).value;
                  var s := DataOrAck(t.conn, t.payload, now);
                  t.conn.pending == c.pending && PendingFrom(c, s.conn, Some(s.info)))
  {
    hide DataOrAck, DrainTransmittable, CloseWaitOrLastAck;
    var c3 := DeliverBuffered(app, Deliver(app, c, Bytes(seg.payload)));
    SendingPending(c3, w, None, now);
    SendingPending(ConsumeFin(c3), w, None, now);
    if DrainTransmittable(c3, w).Ok? {
      var t := DrainTransmittable(c3, w).value;
      SendingPending(t.conn, w, t.payload, now);
    }
  }

  lemma AckedPending(c: Conn, ack: SeqPoint)
    ensures forall p :: p in AckedConn(c, ack).pending ==> p in c.pending
  {
  }

  /** An arrival makes nothing pending but its own reply, and counts nothing as a retransmission. */
  lemma PendingIsReply(app: ServerApp, seg: TcpSegment, c: Conn, now: Time)
    ensures PendingFrom(c, HandleKnown(app, seg, c, now).conn, ReplyOf(HandleKnown(app, seg, c, now)))
  {
    hide DataOrAck, DrainTransmittable, CloseWaitOrLastAck, AckedConn, AckedWindow, CheckSeq, Drain, Precedes,
         PrecedesOrEq, DeliverBuffered, FinReached, BufferSegment, HandleEstablished;
    if c.state.SynReceived? {
      var c1 := CompleteHandshake(seg, c);
      OpenPending(app, seg, c1, c1.state.window, now);
      BufferPending(c1, seg);
      var c2 := ConsumeFin(Deliver(app, c1, Bytes(seg.payload)));
      AckedPending(c2, seg.ackNum);
      SendingPending(AckedConn(c2, seg.ackNum), AckedWindow(c2, c1.state.window, seg), None, now);
    } else if c.state.Established? {
      EstablishedPending(app, seg, c, now);
    } else {
      AckedPending(c, seg.ackNum);
      AckedPending(Discard(c, Bytes(seg.payload)), seg.ackNum);
      AckedPending(ConsumeFin(Discard(c, Bytes(seg.payload))), seg.ackNum);
      SendingPending(AckedConn(c, seg.ackNum), AckedWindow(c, c.state.window, seg), None, now);
    }
  }

  lemma EstablishedPending(app: ServerApp, seg: TcpSegment, c: Conn, now: Time)
    requires c.state.Established?
    ensures PendingFrom(c, HandleEstablished(app, seg, c, now).conn, ReplyOf(HandleEstablished(app, seg, c, now)))
  {
    hide DataOrAck, DrainTransmittable, CloseWaitOrLastAck, AckedConn, AckedWindow, CheckSeq, Drain, Precedes,
         PrecedesOrEq, DeliverBuffered, FinReached, BufferSegment;
    var w1 := AckedWindow(c, c.state.window, seg);
    AckedPending(c, seg.ackNum);
    var c1 := AckedConn(c, seg.ackNum).(state := Established(w1));
    OpenPending(app, seg, c1, w1, now);
    BufferPending(c1, seg);
    SendingPending(c1, w1, None, now);
    if DrainTransmittable(c1, w1).Ok? {
      var t := DrainTransmittable(c1, w1).value;
      SendingPending(t.conn, w1, t.payload, now);
    }
    var c2 := ConsumeFin(Deliver(app, c, Bytes(seg.payload)));
    AckedPending(c2, seg.ackNum);
    SendingPending(AckedConn(c2, seg.ackNum), AckedWindow(c2, c.state.window, seg), None, now);
  }

  lemma BufferPending(c: Conn, seg: TcpSegment)
    ensures BufferSegment(c, seg).pending == c.pending
  {
  }
}
