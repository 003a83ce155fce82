/** Which segments of a client are answered by a reset. */
module Resets {
  import opened Base
  import opened SeqSpace
  import opened Segment
  import opened Pending
  import opened Reassembly
  import opened State
  import opened SendInfos
  import opened SendSide
  import opened ReceiveSide
  import opened Transitions
  import opened Runs
  import opened Theorems
  import opened StateDiagram
  import opened ActiveCloses

  predicate SendsReset(r: Handled) {
    ReplyOf(r).Some? && ReplyOf(r).value.flags == Rst
  }

  /** In the window and not a reset itself, but of no use in this state. */
  predicate Refused(seg: TcpSegment, c: Conn) {
    && seg.flags !in {Rst, RstAck} && InReceiveWindow(seg, c)
    && match c.state
       case SynReceived => seg.flags == SynAck || (seg.flags in {Ack, FinAck} && seg.ackNum != c.sndNxt)
       case Established(_) => false
       case FinWait1(_) | FinWait2(_) =>
         seg.seqNum != c.rcvNxt && ((seg.flags == Ack && seg.payload != None) || seg.flags == FinAck)
       case CloseWait(_) | Closing(_) | LastAck(_) => (seg.flags == Ack && seg.payload != None) || seg.flags == FinAck
  }

  lemma NoResetFlags(c: Conn, w: WindowState, payload: Option<Payload>, now: Time)
    ensures DataOrAck(c, payload, now).info.flags == Ack
    ensures CloseWaitOrLastAck(c, w, now).info.Ok? ==> CloseWaitOrLastAck(c, w, now).info.value.flags in {Ack, FinAck}
  {
  }

  /** The data cases of an open connection never reset. */
  lemma OpenNeverResets(app: ServerApp, seg: TcpSegment, c: Conn, w: WindowState, now: Time)
    ensures var c3 := DeliverBuffered(app, Deliver(app, c, Bytes(seg.payload)));
            && (DrainTransmittable(c3, w).Ok? ==>
                  var t := DrainTransmittable(c3, w).value; DataOrAck(t.conn, t.payload, now).info.flags == Ack)
            && (var r := CloseWaitOrLastAck(ConsumeFin(c3), w, now); r.info.Ok? ==> r.info.value.flags in {Ack, FinAck})
    ensures var c2 := ConsumeFin(Deliver(app, c, Bytes(seg.payload)));
            var r := CloseWaitOrLastAck(AckedConn(c2, seg.ackNum), AckedWindow(c2, w, seg), now);
            r.info.Ok? ==> r.info.value.flags in {Ack, FinAck}
  {
    hide DataOrAck, DrainTransmittable, CloseWaitOrLastAck, AckedConn, AckedWindow;
    var c3 := DeliverBuffered(app, Deliver(app, c, Bytes(seg.payload)));
    NoResetFlags(ConsumeFin(c3), w, None, now);
    if DrainTransmittable(c3, w).Ok? {
      NoResetFlags(DrainTransmittable(c3, w).value.conn, w, DrainTransmittable(c3, w).value.payload, now);
    }
    var c2 := ConsumeFin(Deliver(app, c, Bytes(seg.payload)));
    NoResetFlags(AckedConn(c2, seg.ackNum), AckedWindow(c2, w, seg), None, now);
  }

  /** Exactly which segments are answered by a reset, in every state. */
  lemma ResetSentExactly(app: ServerApp, seg: TcpSegment, c: Conn, now: Time, iss: SeqPoint, sent: seq<byte>)
    requires SendInv(c, iss, sent)
    ensures SendsReset(HandleKnown(app, seg, c, now)) <==> Refused(seg, c)
  {
    hide InWindow, DataOrAck, DrainTransmittable, CloseWaitOrLastAck, AckedConn, AckedWindow, CheckSeq, Drain,
         Precedes, PrecedesOrEq, DeliverBuffered, Deliver, FinReached, BufferSegment, InReceiveWindow, HandleSynRcv,
         HandleEstablished, SendInv;
    CheckIsWindow(seg, c);
    if c.state.SynReceived? {
      SynRcvResets(app, seg, c, now, iss, sent);
    } else if c.state.Established? {
      EstablishedNeverResets(app, seg, c, now);
    } else {
      NoResetFlags(AckedConn(c, seg.ackNum), AckedWindow(c, c.state.window, seg), None, now);
    }
  }

  lemma EstablishedNeverResets(app: ServerApp, seg: TcpSegment, c: Conn, now: Time)
    requires c.state.Established?
    ensures !SendsReset(HandleEstablished(app, seg, c, now))
  {
    hide InWindow, DataOrAck, DrainTransmittable, CloseWaitOrLastAck, AckedConn, AckedWindow, CheckSeq, Drain,
         Precedes, PrecedesOrEq, DeliverBuffered, Deliver, FinReached, BufferSegment;
    var w1 := AckedWindow(c, c.state.window, seg);
    OpenNeverResets(app, seg, AckedConn(c, seg.ackNum).(state := Established(w1)), w1, now);
    OpenNeverResets(app, seg, c, c.state.window, now);
  }

  lemma SynRcvResets(app: ServerApp, seg: TcpSegment, c: Conn, now: Time, iss: SeqPoint, sent: seq<byte>)
    requires c.state.SynReceived? && SendInv(c, iss, sent)
    ensures SendsReset(HandleSynRcv(app, seg, c, now)) <==> Refused(seg, c)
  {
    hide InWindow, DataOrAck, DrainTransmittable, CloseWaitOrLastAck, AckedConn, AckedWindow, CheckSeq, Drain,
         Precedes, PrecedesOrEq, DeliverBuffered, Deliver, FinReached, BufferSegment, InReceiveWindow;
    CheckIsWindow(seg, c);
    HandshakeAck(c, seg.ackNum);
    var c1 := CompleteHandshake(seg, c);
    OpenNeverResets(app, seg, c1, c1.state.window, now);
  }

  /** Behind the peer's FIN nothing that follows the stream lies in the window. */
  lemma NothingBehindFin(seg: TcpSegment, irs: SeqPoint, s: seq<byte>, rcvNxt: SeqPoint)
    requires rcvNxt == RcvPoint(irs, |s|, true) && FromStream(seg, irs, s, |s| + 1)
    requires (seg.flags == Ack && seg.payload != None) || seg.flags == FinAck
    ensures !InWindow(seg.seqNum, rcvNxt, RCV_WND)
  {
    hide InWindow, Dist, At;
    var pos :| CarriesAt(seg, irs, s, pos) && NotStale(pos, |s| + 1);
    InWindowExact(seg.seqNum, rcvNxt, RCV_WND);
    DistAt(irs + 1 + |s| + 1, irs + 1 + pos);
  }

  /**
   A client that follows its stream, in any run: once synchronized, one of its acknowledgments, data
   or FIN segments is answered by a reset if and only if the connection is in FIN-WAIT-1 or
   FIN-WAIT-2 and the segment carries data or FIN in the window but ahead of RCV.NXT, that is, has
   overtaken another one.
   */
  lemma ClientResetExactly(
    cfg: Config, iss: SeqPoint, syn: TcpSegment, now: Time, events: seq<Event>, w: World, s: seq<byte>, seg: TcpSegment,
    at: Time)
    requires ReachableWith(cfg, iss, syn, now, events, w, s) && w.Live? && !w.conn.state.SynReceived?
    requires seg.flags in {Ack, FinAck}
    requires FromStream(seg, syn.seqNum, s, |w.hist.accepted| + if w.conn.state.PeerFin() then 1 else 0)
    ensures SendsReset(HandleKnown(cfg.app, seg, w.conn, at)) <==>
            && (w.conn.state.FinWait1? || w.conn.state.FinWait2?)
            && InReceiveWindow(seg, w.conn) && seg.seqNum != w.conn.rcvNxt
            && (seg.payload != None || seg.flags == FinAck)
  {
    hide AllSound, AllFaithful, Run, SendInv, BufferInv, AheadInv, HandleKnown, FromStream, InWindow, EmittedTruthful,
         SendsReset, RcvPoint;
    ReachableSends(cfg, iss, syn, now, events, w);
    ReachableReceives(cfg, iss, syn, now, events, w, s);
    ResetSentExactly(cfg.app, seg, w.conn, at, w.hist.iss, w.hist.sent);
    if w.conn.state.PeerFin() && (seg.payload != None || seg.flags == FinAck) {
      NothingBehindFin(seg, syn.seqNum, s, w.conn.rcvNxt);
    }
  }

  /** The second of two data segments, arriving first after an active close. */
  const SECOND_DATA := ACK_SEGMENT.(seqNum := 2, payload := Some([66]))

  /** It belongs to a faithful client's stream, and is answered by a reset. */
  lemma ReorderedDataIsReset(cfg: Config, now: Time)
    ensures var w := Run(cfg, Opened(0, SYN_SEGMENT, now), [Arrive(ACK_SEGMENT, now), ActiveClose(now)]);
            && w.Live? && w.conn.state.FinWait1?
            && FromStream(SECOND_DATA, w.hist.irs, [65, 66], |w.hist.accepted|)
            && ReplyOf(HandleKnown(cfg.app, SECOND_DATA, w.conn, now)) == Some(SendInfo(1, 0, Rst, None))
  {
    hide FromStream;
    var w0 := FreshlyEstablished(cfg, now);
    RunTwo(cfg, Opened(0, SYN_SEGMENT, now), Arrive(ACK_SEGMENT, now), ActiveClose(now));
    var w := Step(cfg, w0, ActiveClose(now));
    CheckIsWindow(SECOND_DATA, w.conn);
    InWindowExact(2, 1, RCV_WND);
    SecondDataFollows();
    RunKeepsOrigin(cfg, Opened(0, SYN_SEGMENT, now), [Arrive(ACK_SEGMENT, now), ActiveClose(now)]);
  }

  lemma SecondDataFollows()
    ensures FromStream(SECOND_DATA, 0, [65, 66], 0)
  {
    assert [65, 66][1..2] == [66];
    assert CarriesAt(SECOND_DATA, 0, [65, 66], 1) && NotStale(1, 0);
  }
}
