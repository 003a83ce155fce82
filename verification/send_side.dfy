/** What every step keeps about the outgoing stream of a connection. */
module SendSide {
  import opened Base
  import opened SeqSpace
  import opened Segment
  import opened Pending
  import opened Reassembly
  import opened State
  import opened SendInfos
  import opened InFlightStream

  /** The outgoing half of a connection, with `sent` the data bytes that have been given sequence numbers. */
  ghost predicate SendInv(c: Conn, iss: SeqPoint, sent: seq<byte>) {
    if c.state.SynReceived? then
      && sent == [] && c.sendBuffer == [] && c.sndUna == iss && c.sndNxt == Add(iss, 1)
      && c.pending != [] && forall p :: p in c.pending ==> IsSynAck(p, iss)
    else
      && InFlight(c.sndUna, c.sndNxt, c.pending, iss, sent, c.state.FinSent())
      && (c.state.FinWait2? ==> c.sndUna == c.sndNxt)
      && (c.state.LastAck? ==> c.sndUna != c.sndNxt && c.sendBuffer == [])
  }

  /** Pending in SYN-RECEIVED: a SYN-ACK, which occupies the one sequence number ISS. */
  ghost predicate IsSynAck(p: PendingSegment, iss: SeqPoint) {
    p.info.flags == SynAck && p.info.payload == None && p.info.seqNum == iss && p.endSeq == Add(iss, 1)
  }

  lemma AppendInFlight(c: Conn, flags: TcpFlags, payload: Option<Payload>, now: Time, iss: SeqPoint, sent: seq<byte>)
    requires InFlight(c.sndUna, c.sndNxt, c.pending, iss, sent, false)
    requires Dist(c.sndUna, c.sndNxt) + Len(payload) <= 0xFFFF && Len(payload) <= MAX_PAYLOAD_LEN
    requires flags == FinAck || (flags == Ack && payload != None)
    ensures var s := Transmitted(c, flags, payload, now);
            && InFlight(s.conn.sndUna, s.conn.sndNxt, s.conn.pending, iss, sent + Bytes(payload), flags == FinAck)
            && Carried(s.info, |sent|, iss, sent + Bytes(payload), flags == FinAck)
            && s.conn.sndUna != s.conn.sndNxt
  {
    hide At, Carried, Tiles, Dist, Add;
    var info := SendInfo(c.sndNxt, c.rcvNxt, flags, payload);
    var end := |sent|;
    CarriedAtEnd(info, iss, sent);
    TilesExtend(c.pending, end - TotalConsumed(c.pending), iss, sent, info, now);
    AddAt(iss + 1 + end, Consumed(info));
    DistGrows(c.sndUna, c.sndNxt, Consumed(info));
    assert (c.pending + [NewPending(info, now)])[0] == if c.pending == [] then NewPending(info, now) else c.pending[0];
  }

  /** A segment without data or FIN says nothing about the stream; any other one is part of it at `q`. */
  ghost predicate Truthful(info: SendInfo, q: int, iss: SeqPoint, sent: seq<byte>, fin: bool) {
    (info.payload == None && info.flags != FinAck) || Carried(info, q, iss, sent, fin)
  }

  /** New data sent on `c` begins at SND.NXT, fits a packet and stays inside the peer's window `w`. */
  ghost predicate WithinWindow(c: Conn, w: WindowState, info: SendInfo) {
    info.payload != None ==>
      && info.seqNum == c.sndNxt && Len(info.payload) <= MAX_PAYLOAD_LEN
      && Dist(c.sndUna, c.sndNxt) + Len(info.payload) <= w.sndWnd
  }

  /** `c'` and `info` are what sending from the front of the send buffer of `c` should lead to. */
  ghost predicate SentFrom(c: Conn, w: WindowState, c': Conn, info: SendInfo, iss: SeqPoint, sent: seq<byte>) {
    var data := Bytes(info.payload);
    && SendInv(c', iss, sent + data)
    && data + c'.sendBuffer == c.sendBuffer
    && Truthful(info, |sent|, iss, sent + data, c'.state.FinSent())
    && WithinWindow(c, w, info)
  }

  lemma SubIsDist(p: SeqPoint, q: SeqPoint)
    requires Dist(q, p) < HALF
    ensures Sub(p, q) == Dist(q, p)
  {
  }

  /** What `DrainSends` establishes: `t` holds the front of the send buffer of `c`, within the window. */
  ghost predicate Drained(c: Conn, w: WindowState, t: Transmit) {
    && t.conn == c.(sendBuffer := t.conn.sendBuffer)
    && Bytes(t.payload) + t.conn.sendBuffer == c.sendBuffer
    && Len(t.payload) <= MAX_PAYLOAD_LEN
    && Dist(c.sndUna, c.sndNxt) + Len(t.payload) <= 0xFFFF
    && (t.payload != None ==> Dist(c.sndUna, c.sndNxt) + Len(t.payload) <= w.sndWnd)
  }

  lemma DrainSends(c: Conn, w: WindowState, iss: SeqPoint, sent: seq<byte>)
    requires InFlight(c.sndUna, c.sndNxt, c.pending, iss, sent, false)
    ensures var r := DrainTransmittable(c, w);
            r.Ok? && Drained(c, w, r.value)
  {
    hide Dist, Sub;
    SubIsDist(c.sndNxt, c.sndUna);
  }

  /** As many bytes as possible: less than a full packet is taken only if nothing is left or the window is used up. */
  lemma DrainTakesAllItMay(c: Conn, w: WindowState)
    requires DrainTransmittable(c, w).Ok?
    ensures var t := DrainTransmittable(c, w).value;
            && Bytes(t.payload) + t.conn.sendBuffer == c.sendBuffer
            && (Len(t.payload) < 1460 ==>
                  t.conn.sendBuffer == [] || Sub(c.sndNxt, c.sndUna) + Len(t.payload) >= w.sndWnd)
  {
    hide Sub;
  }

  /** Sending what was drained as plain data, or a bare acknowledgment if that is nothing. */
  lemma DataOrAckSends(c: Conn, w: WindowState, t: Transmit, now: Time, iss: SeqPoint, sent: seq<byte>)
    requires Drained(c, w, t) && InFlight(c.sndUna, c.sndNxt, c.pending, iss, sent, false)
    requires c.state.Established? || c.state.CloseWait?
    ensures var s := DataOrAck(t.conn, t.payload, now);
            SentFrom(c, w, s.conn, s.info, iss, sent) && s.conn.state == c.state
  {
    hide InFlight, Carried, Dist;
    assert sent + [] == sent;
    if t.payload != None {
      AppendInFlight(t.conn, Ack, t.payload, now, iss, sent);
    }
  }

  lemma ClosingSends(c: Conn, w: WindowState, now: Time, iss: SeqPoint, sent: seq<byte>)
    requires InFlight(c.sndUna, c.sndNxt, c.pending, iss, sent, false)
    ensures var r := CloseWaitOrLastAck(c, w, now);
            && r.info.Ok? && SentFrom(c, w, r.conn, r.info.value, iss, sent)
            && (r.conn.state == CloseWait(w) || r.conn.state == LastAck(w))
            && r.conn == c.(state := r.conn.state, sndNxt := r.conn.sndNxt, pending := r.conn.pending,
                            sendBuffer := r.conn.sendBuffer)
  {
    hide InFlight, Carried, Dist, DrainTransmittable;
    DrainSends(c, w, iss, sent);
    var t := DrainTransmittable(c, w).value;
    if t.conn.sendBuffer == [] {
      AppendInFlight(t.conn.(state := LastAck(w)), FinAck, t.payload, now, iss, sent);
    } else {
      var c1 := c.(state := CloseWait(w));
      DataOrAckSends(c1, w, t.(conn := t.conn.(state := CloseWait(w))), now, iss, sent);
    }
  }

  /** The cases in which the acknowledgment of `seg` is acted on. */
  predicate ReachesAckUpdate(seg: TcpSegment, c: Conn) {
    var check := CheckSeq(seg, c.rcvNxt);
    match c.state
    case SynReceived => false
    case Established(_) =>
      check != Unacceptable && (seg.flags == FinAck || (seg.flags == Ack && !Precedes(c.sndNxt, seg.ackNum)))
    case FinWait1(_) =>
      || (seg.flags == Ack && (check == InOrder || (check == OutOfOrder && seg.payload == None)))
      || (seg.flags == FinAck && check == InOrder && seg.ackNum != c.sndNxt)
    case FinWait2(_) => seg.flags == Ack && (check == InOrder || (check == OutOfOrder && seg.payload == None))
    case CloseWait(_) => seg.flags == Ack && seg.payload == None && check != Unacceptable
    case Closing(_) | LastAck(_) =>
      seg.flags == Ack && seg.payload == None && check != Unacceptable && seg.ackNum != c.sndNxt
  }

  /**
   The one kind of segment that corrupts the send side: the antipode of SND.UNA, acted on with nothing
   outstanding.
   */
  predicate Slip(seg: TcpSegment, c: Conn) {
    ReachesAckUpdate(seg, c) && Antipode(c.sndUna, seg.ackNum, c.sndNxt)
  }

  /** The data bytes that a step puts into sequence space. */
  function NewBytes(r: Handled): seq<byte> {
    if r.reply.Ok? && r.reply.value.info.Some? then Bytes(r.reply.value.info.value.payload) else []
  }

  /** What a step owes the outgoing stream. */
  ghost predicate StepSends(app: ServerApp, c: Conn, r: Handled, iss: SeqPoint, sent: seq<byte>) {
    && r.reply.Ok?
    && var sent' := sent + NewBytes(r);
    && (!r.reply.value.remove ==> SendInv(r.conn, iss, sent'))
    && NewBytes(r) + r.conn.sendBuffer == c.sendBuffer + app.Respond(r.delivered)
    && (r.reply.value.info.Some? ==> Truthful(r.reply.value.info.value, |sent|, iss, sent', r.conn.state.FinSent()))
    && (NewBytes(r) != [] ==>
          && !r.conn.state.SynReceived? && r.reply.value.info.value.seqNum == c.sndNxt
          && |NewBytes(r)| <= MAX_PAYLOAD_LEN
          && Dist(r.conn.sndUna, c.sndNxt) + |NewBytes(r)| <= r.conn.state.window.sndWnd)
  }

  /** A step that sends nothing new and appends nothing to the send buffer. */
  lemma QuietSends(app: ServerApp, c: Conn, r: Handled, iss: SeqPoint, sent: seq<byte>)
    requires r.reply.Ok? && r.delivered == [] && r.conn.sendBuffer == c.sendBuffer
    requires r.reply.value.info.Some? ==>
              r.reply.value.info.value.payload == None && r.reply.value.info.value.flags != FinAck
    requires !r.reply.value.remove ==> SendInv(r.conn, iss, sent)
    ensures StepSends(app, c, r, iss, sent)
  {
    hide SendInv, Carried;
    assert sent + [] == sent;
    assert app.Respond([]) == [];
  }

  lemma AckKeeps(c: Conn, ack: SeqPoint, iss: SeqPoint, sent: seq<byte>)
    requires SendInv(c, iss, sent) && !c.state.SynReceived? && !Antipode(c.sndUna, ack, c.sndNxt)
    ensures var c' := AckedConn(c, ack);
            && c' == c.(sndUna := c'.sndUna, pending := c'.pending)
            && InFlight(c'.sndUna, c'.sndNxt, c'.pending, iss, sent, c.state.FinSent())
            && (c'.sndUna == c'.sndNxt <==> c.sndUna == c.sndNxt || ack == c.sndNxt)
  {
    hide InFlight, Antipode, Acceptable, Uncovered;
    AckKeepsInFlight(c, ack, iss, sent, c.state.FinSent());
  }

  lemma ClosingStep(app: ServerApp, seg: TcpSegment, c: Conn, w: WindowState, now: Time, iss: SeqPoint, sent: seq<byte>)
    requires c.state.Established? && SendInv(c, iss, sent) && !Antipode(c.sndUna, seg.ackNum, c.sndNxt)
    ensures StepSends(app, c, CloseOnInOrderFin(app, seg, c, w, now), iss, sent)
  {
    hide InFlight, Antipode, Acceptable, Uncovered, Carried, Fresh, AckedWindow, CloseWaitOrLastAck,
         DrainTransmittable, Dist;
    var c1 := ConsumeFin(Deliver(app, c, Bytes(seg.payload)));
    AckKeeps(c1, seg.ackNum, iss, sent);
    ClosingSends(AckedConn(c1, seg.ackNum), AckedWindow(c1, w, seg), now, iss, sent);
  }

  /** An acknowledgment in ESTABLISHED, with or without data. */
  lemma AckStep(app: ServerApp, seg: TcpSegment, c: Conn, now: Time, iss: SeqPoint, sent: seq<byte>)
    requires c.state.Established? && SendInv(c, iss, sent) && !Antipode(c.sndUna, seg.ackNum, c.sndNxt)
    requires seg.flags == Ack && !Precedes(c.sndNxt, seg.ackNum)
    requires CheckSeq(seg, c.rcvNxt) == InOrder || (CheckSeq(seg, c.rcvNxt) == OutOfOrder && seg.payload == None)
    ensures StepSends(app, c, HandleEstablished(app, seg, c, now), iss, sent)
  {
    hide InFlight, Antipode, Acceptable, Uncovered, Carried, Fresh, AckedWindow, CloseWaitOrLastAck,
         DrainTransmittable, Dist, Precedes, CheckSeq, Drain, PrecedesOrEq;
    var w1 := AckedWindow(c, c.state.window, seg);
    AckKeeps(c, seg.ackNum, iss, sent);
    var c1 := AckedConn(c, seg.ackNum).(state := Established(w1));
    if seg.payload == None {
      DrainSends(c1, w1, iss, sent);
      DataOrAckSends(c1, w1, DrainTransmittable(c1, w1).value, now, iss, sent);
    } else {
      var c3 := DeliverBuffered(app, Deliver(app, c1, Bytes(seg.payload)));
      DeliveredTwice(app, c1, Bytes(seg.payload));
      if FinReached(c3) {
        ClosingSends(ConsumeFin(c3), w1, now, iss, sent);
      } else {
        DrainSends(c3, w1, iss, sent);
        DataOrAckSends(c3, w1, DrainTransmittable(c3, w1).value, now, iss, sent);
      }
    }
  }

  lemma EstablishedStep(app: ServerApp, seg: TcpSegment, c: Conn, now: Time, iss: SeqPoint, sent: seq<byte>)
    requires c.state.Established? && SendInv(c, iss, sent) && !Slip(seg, c)
    ensures StepSends(app, c, HandleEstablished(app, seg, c, now), iss, sent)
  {
    hide InFlight, Antipode, Acceptable, Uncovered, Carried, Fresh, AckedWindow, CloseWaitOrLastAck,
         DrainTransmittable, Dist, Precedes, CheckSeq, Drain, PrecedesOrEq, StepSends, DeliverBuffered;
    var check := CheckSeq(seg, c.rcvNxt);
    AntipodeIsAhead(c.sndUna, seg.ackNum, c.sndNxt);
    if && seg.flags == Ack && !Precedes(c.sndNxt, seg.ackNum)
       && (check == InOrder || (check == OutOfOrder && seg.payload == None)) {
      AckStep(app, seg, c, now, iss, sent);
    } else if seg.flags == FinAck && check == InOrder {
      ClosingStep(app, seg, c, c.state.window, now, iss, sent);
    } else {
      if seg.flags in {Ack, FinAck} && check == OutOfOrder && !(seg.flags == Ack && Precedes(c.sndNxt, seg.ackNum)) {
        AckKeeps(c, seg.ackNum, iss, sent);
      }
      QuietSends(app, c, HandleEstablished(app, seg, c, now), iss, sent);
    }
  }

  lemma AntipodeIsAhead(una: SeqPoint, ack: SeqPoint, nxt: SeqPoint)
    ensures Antipode(una, ack, nxt) ==> una == nxt && ack != nxt && Precedes(nxt, ack)
  {
  }

  lemma DeliveredTwice(app: ServerApp, c: Conn, data: seq<byte>)
    ensures var c2 := Deliver(app, c, data);
            var c3 := DeliverBuffered(app, c2);
            && c3 == c.(rcvNxt := c3.rcvNxt, segments := c3.segments, sendBuffer := c3.sendBuffer)
            && c3.sendBuffer == c.sendBuffer + app.Respond(data + Drain(c2.segments, c2.rcvNxt).bytes)
  {
    app.RespondConcat(data, Drain(c.segments, Add(c.rcvNxt, |data|)).bytes);
  }

  /** The only acknowledgment that completes the handshake is the one of our SYN, exactly. */
  lemma HandshakeAck(c: Conn, ack: SeqPoint)
    requires c.sndNxt == Add(c.sndUna, 1)
    ensures Precedes(c.sndUna, ack) && PrecedesOrEq(ack, c.sndNxt) <==> ack == c.sndNxt
  {
    DistAdd(c.sndUna, 1);
    AckTestExact(c.sndUna, ack, c.sndNxt);
  }

  lemma HandshakeKeeps(seg: TcpSegment, c: Conn, iss: SeqPoint, sent: seq<byte>)
    requires c.state.SynReceived? && SendInv(c, iss, sent) && seg.ackNum == c.sndNxt
    ensures SendInv(CompleteHandshake(seg, c), iss, sent)
  {
  }

  /** The acknowledgment that completes the handshake, with the data it carries. */
  lemma HandshakeStep(app: ServerApp, seg: TcpSegment, c: Conn, now: Time, iss: SeqPoint, sent: seq<byte>)
    requires c.state.SynReceived? && SendInv(c, iss, sent)
    requires seg.flags == Ack && seg.ackNum == c.sndNxt && CheckSeq(seg, c.rcvNxt) == InOrder
    ensures StepSends(app, c, HandleSynRcv(app, seg, c, now), iss, sent)
  {
    hide InFlight, Antipode, Acceptable, Uncovered, Carried, Fresh, AckedWindow, AckedConn, CloseWaitOrLastAck,
         DrainTransmittable, Dist, Precedes, CheckSeq, Drain, PrecedesOrEq;
    HandshakeAck(c, seg.ackNum);
    HandshakeKeeps(seg, c, iss, sent);
    var c1 := CompleteHandshake(seg, c);
    var c3 := DeliverBuffered(app, Deliver(app, c1, Bytes(seg.payload)));
    DeliveredTwice(app, c1, Bytes(seg.payload));
    if FinReached(c3) {
      ClosingSends(ConsumeFin(c3), c1.state.window, now, iss, sent);
    } else {
      DrainSends(c3, c1.state.window, iss, sent);
      DataOrAckSends(c3, c1.state.window, DrainTransmittable(c3, c1.state.window).value, now, iss, sent);
      assert sent + [] == sent;
    }
  }

  lemma SynRcvStep(app: ServerApp, seg: TcpSegment, c: Conn, now: Time, iss: SeqPoint, sent: seq<byte>)
    requires c.state.SynReceived? && SendInv(c, iss, sent)
    ensures StepSends(app, c, HandleSynRcv(app, seg, c, now), iss, sent)
  {
    hide InFlight, Antipode, Acceptable, Uncovered, Carried, Fresh, AckedWindow, AckedConn, CloseWaitOrLastAck,
         DrainTransmittable, Dist, Precedes, CheckSeq, Drain, PrecedesOrEq, StepSends, DeliverBuffered;
    var check := CheckSeq(seg, c.rcvNxt);
    HandshakeAck(c, seg.ackNum);
    var completes := seg.flags in {Ack, FinAck} && check != Unacceptable && seg.ackNum == c.sndNxt;
    if completes && check == InOrder && seg.flags == Ack {
      HandshakeStep(app, seg, c, now, iss, sent);
    } else if completes && check == InOrder {
      HandshakeKeeps(seg, c, iss, sent);
      var c1 := CompleteHandshake(seg, c);
      NotAntipode(c1.sndUna, c1.sndNxt);
      ClosingStep(app, seg, c1, c1.state.window, now, iss, sent);
      SameSending(app, c, c1, CloseOnInOrderFin(app, seg, c1, c1.state.window, now), iss, sent);
    } else {
      if completes {
        HandshakeKeeps(seg, c, iss, sent);
      }
      QuietSends(app, c, HandleSynRcv(app, seg, c, now), iss, sent);
    }
  }

  /** What a step owes depends only on where sending stood. */
  lemma SameSending(app: ServerApp, c: Conn, c1: Conn, r: Handled, iss: SeqPoint, sent: seq<byte>)
    requires StepSends(app, c1, r, iss, sent) && c1.sendBuffer == c.sendBuffer && c1.sndNxt == c.sndNxt
    ensures StepSends(app, c, r, iss, sent)
  {
    hide SendInv, Truthful, Dist;
  }

  lemma FinWaitStep(app: ServerApp, seg: TcpSegment, c: Conn, iss: SeqPoint, sent: seq<byte>)
    requires c.state.FinWait1? || c.state.FinWait2?
    requires SendInv(c, iss, sent) && !Slip(seg, c)
    ensures StepSends(app, c, if c.state.FinWait1? then HandleFinWait1(seg, c) else HandleFinWait2(seg, c), iss, sent)
  {
    hide InFlight, Antipode, Acceptable, Uncovered, Carried, Fresh, AckedWindow, CheckSeq;
    if ReachesAckUpdate(seg, c) {
      AckKeeps(c, seg.ackNum, iss, sent);
      AckedDiscard(c, Bytes(seg.payload), seg.ackNum);
    }
    QuietSends(app, c, if c.state.FinWait1? then HandleFinWait1(seg, c) else HandleFinWait2(seg, c), iss, sent);
  }

  /** The acknowledgment update does not look at the receive side. */
  lemma AckedDiscard(c: Conn, data: seq<byte>, ack: SeqPoint)
    ensures AckedConn(Discard(c, data), ack) == Discard(AckedConn(c, ack), data)
    ensures AckedConn(ConsumeFin(Discard(c, data)), ack) == ConsumeFin(Discard(AckedConn(c, ack), data))
  {
    hide Precedes, PrecedesOrEq, Add;
  }

  lemma CloseWaitStep(app: ServerApp, seg: TcpSegment, c: Conn, now: Time, iss: SeqPoint, sent: seq<byte>)
    requires c.state.CloseWait? && SendInv(c, iss, sent) && !Slip(seg, c)
    ensures StepSends(app, c, HandleCloseWait(seg, c, now), iss, sent)
  {
    hide InFlight, Antipode, Acceptable, Uncovered, Carried, Fresh, AckedWindow, CloseWaitOrLastAck,
         DrainTransmittable, Dist, CheckSeq;
    if ReachesAckUpdate(seg, c) {
      AckKeeps(c, seg.ackNum, iss, sent);
      ClosingSends(AckedConn(c, seg.ackNum), AckedWindow(c, c.state.window, seg), now, iss, sent);
    } else {
      QuietSends(app, c, HandleCloseWait(seg, c, now), iss, sent);
    }
  }

  lemma AwaitingStep(app: ServerApp, seg: TcpSegment, c: Conn, iss: SeqPoint, sent: seq<byte>)
    requires c.state.Closing? || c.state.LastAck?
    requires SendInv(c, iss, sent) && !Slip(seg, c)
    ensures StepSends(app, c, HandleAwaitingFinAck(seg, c), iss, sent)
  {
    hide InFlight, Antipode, Acceptable, Uncovered, Carried, Fresh, AckedWindow, CheckSeq;
    if ReachesAckUpdate(seg, c) {
      AckKeeps(c, seg.ackNum, iss, sent);
    }
    QuietSends(app, c, HandleAwaitingFinAck(seg, c), iss, sent);
  }

  /**
   One arriving segment, in any state: it is handled without error, conserves the bytes of the
   outgoing stream, stays inside the peer's window and keeps the invariant, unless it slips.
   */
  lemma ArrivalSends(app: ServerApp, seg: TcpSegment, c: Conn, now: Time, iss: SeqPoint, sent: seq<byte>)
    requires SendInv(c, iss, sent) && !Slip(seg, c)
    ensures StepSends(app, c, HandleKnown(app, seg, c, now), iss, sent)
  {
    hide SendInv, Slip, StepSends, HandleSynRcv, HandleEstablished, HandleFinWait1, HandleFinWait2, HandleCloseWait,
         HandleAwaitingFinAck;
    match c.state
    case SynReceived => SynRcvStep(app, seg, c, now, iss, sent);
    case Established(_) => EstablishedStep(app, seg, c, now, iss, sent);
    case FinWait1(_) | FinWait2(_) => FinWaitStep(app, seg, c, iss, sent);
    case CloseWait(_) => CloseWaitStep(app, seg, c, now, iss, sent);
    case Closing(_) | LastAck(_) => AwaitingStep(app, seg, c, iss, sent);
  }

  /** With the antipode acted on, nothing can be drained: SND.NXT appears to lie behind SND.UNA. */
  lemma SlipStalls(c: Conn, ack: SeqPoint, w: WindowState, now: Time, iss: SeqPoint, sent: seq<byte>)
    requires Antipode(c.sndUna, ack, c.sndNxt)
    ensures var c' := AckedConn(c, ack);
            && c'.sndUna == ack && c'.sndNxt == c.sndNxt && c'.state == c.state
            && DrainTransmittable(c', w).Err? && CloseWaitOrLastAck(c', w, now) == Closed(c', Err)
    ensures forall c': Conn :: c'.sndUna == ack && c'.sndNxt == c.sndNxt && !c'.state.SynReceived? ==>
              !SendInv(c', iss, sent)
  {
    AntipodeBreaks(c, ack);
  }

  /**
   Exactly when a step keeps the outgoing stream, and exactly when it fails: a failure is a slip
   that the code goes on to send after.
   */
  lemma ArrivalSendsExactly(app: ServerApp, seg: TcpSegment, c: Conn, now: Time, iss: SeqPoint, sent: seq<byte>)
    requires SendInv(c, iss, sent)
    ensures StepSends(app, c, HandleKnown(app, seg, c, now), iss, sent) <==> !Slip(seg, c)
    ensures HandleKnown(app, seg, c, now).reply.Err? <==>
            Slip(seg, c) && (c.state.CloseWait? || (c.state.Established? && seg.seqNum == c.rcvNxt))
  {
    if Slip(seg, c) {
      SlipBreaks(app, seg, c, now, iss, sent);
    } else {
      ArrivalSends(app, seg, c, now, iss, sent);
    }
  }

  lemma SlipBreaks(app: ServerApp, seg: TcpSegment, c: Conn, now: Time, iss: SeqPoint, sent: seq<byte>)
    requires SendInv(c, iss, sent) && Slip(seg, c)
    ensures !StepSends(app, c, HandleKnown(app, seg, c, now), iss, sent)
    ensures HandleKnown(app, seg, c, now).reply.Err? <==>
            (c.state.CloseWait? || (c.state.Established? && seg.seqNum == c.rcvNxt))
  {
    hide InFlight, Antipode, Uncovered, Carried, Fresh, AckedWindow, AckedConn, CloseWaitOrLastAck, DrainTransmittable,
         Dist, Drain, PrecedesOrEq, Truthful, InWindow;
    AntipodeIsAhead(c.sndUna, seg.ackNum, c.sndNxt);
    var r := HandleKnown(app, seg, c, now);
    var w1 := AckedWindow(c, c.state.window, seg);
    SlipStalls(c, seg.ackNum, w1, now, iss, sent + NewBytes(r));
    AckedDiscard(c, Bytes(seg.payload), seg.ackNum);
    if c.state.Established? {
      SlipStalls(ConsumeFin(Deliver(app, c, Bytes(seg.payload))), seg.ackNum,
                 AckedWindow(ConsumeFin(Deliver(app, c, Bytes(seg.payload))), c.state.window, seg), now, iss, sent);
    }
  }
}
