/** Exactly when a connection moves from one state to another, is removed, or keeps data for later. */
module StateDiagram {
  import opened Base
  import opened SeqSpace
  import opened Segment
  import opened Pending
  import opened Reassembly
  import opened State
  import opened SendInfos
  import opened SendSide
  import InFlightStream
  import opened Timers
  import opened ReceiveSide
  import opened Transitions
  import opened Runs
  import opened Theorems

  predicate InReceiveWindow(seg: TcpSegment, c: Conn) {
    InWindow(seg.seqNum, c.rcvNxt, RCV_WND)
  }

  lemma CheckIsWindow(seg: TcpSegment, c: Conn)
    ensures CheckSeq(seg, c.rcvNxt) == Unacceptable <==> !InReceiveWindow(seg, c)
    ensures CheckSeq(seg, c.rcvNxt) == InOrder <==> seg.seqNum == c.rcvNxt
  {
    InWindowExact(seg.seqNum, c.rcvNxt, RCV_WND);
    DistBetween(c.rcvNxt, c.rcvNxt, c.rcvNxt);
  }

  /**
   The three cases of a reset, in every state: exactly at RCV.NXT it removes the connection,
   elsewhere in the window it is challenged, outside it is dropped; it never changes anything else.
   */
  lemma ResetHandled(app: ServerApp, seg: TcpSegment, c: Conn, now: Time)
    requires seg.flags in {Rst, RstAck}
    ensures HandleKnown(app, seg, c, now) ==
            Replied(c,
                    if InReceiveWindow(seg, c) && seg.seqNum != c.rcvNxt
                    then Some(SendInfo(c.sndNxt, c.rcvNxt, Ack, None))
                    else None,
                    seg.seqNum == c.rcvNxt)
  {
    hide InWindow, DataOrAck, DrainTransmittable, CloseWaitOrLastAck, AckedConn, AckedWindow, Drain, Precedes;
    CheckIsWindow(seg, c);
  }

  /** The segment that ends a close. */
  predicate Finishes(seg: TcpSegment, c: Conn) {
    match c.state
    case FinWait1(_) => InOrderFin(seg, c) && seg.ackNum == c.sndNxt
    case FinWait2(_) => InOrderFin(seg, c)
    case Closing(_) | LastAck(_) =>
      seg.flags == Ack && seg.payload == None && InReceiveWindow(seg, c) && seg.ackNum == c.sndNxt
    case SynReceived | Established(_) | CloseWait(_) => false
  }

  lemma RemovedExactly(app: ServerApp, seg: TcpSegment, c: Conn, now: Time)
    requires HandleKnown(app, seg, c, now).reply.Ok?
    ensures HandleKnown(app, seg, c, now).reply.value.remove <==>
            (seg.flags in {Rst, RstAck} && seg.seqNum == c.rcvNxt) || Finishes(seg, c)
  {
    hide AckedConn, AckedWindow, CheckSeq, InReceiveWindow, HandleSynRcv, HandleEstablished, CloseWaitOrLastAck;
    CheckIsWindow(seg, c);
    RemovedByReset(app, seg, c, now);
    if seg.flags in {Rst, RstAck} {
      ResetHandled(app, seg, c, now);
    }
  }

  /** The segment that completes the handshake. */
  predicate Completes(seg: TcpSegment, c: Conn) {
    seg.flags in {Ack, FinAck} && InReceiveWindow(seg, c) && seg.ackNum == c.sndNxt
  }

  /** The handshake is left exactly by an acknowledgment of our SYN that lies in the window. */
  lemma HandshakeExactly(app: ServerApp, seg: TcpSegment, c: Conn, now: Time, iss: SeqPoint, sent: seq<byte>)
    requires c.state.SynReceived? && SendInv(c, iss, sent)
    ensures HandleKnown(app, seg, c, now).conn.state.SynReceived? <==> !Completes(seg, c)
  {
    hide InWindow, DataOrAck, DrainTransmittable, CloseWaitOrLastAck, AckedConn, AckedWindow, Drain, Precedes,
         PrecedesOrEq, CheckSeq, InReceiveWindow, DeliverBuffered, Deliver, FinReached;
    CheckIsWindow(seg, c);
    HandshakeAck(c, seg.ackNum);
    var c1 := CompleteHandshake(seg, c);
    OpenFrame(app, seg, c1, c1.state.window, now);
    var c2 := ConsumeFin(Deliver(app, c1, Bytes(seg.payload)));
    DeliverFrame(app, c1, Bytes(seg.payload));
    AckedStays(c2, seg.ackNum);
    ClosingFrame(AckedConn(c2, seg.ackNum), AckedWindow(c2, c1.state.window, seg), now);
  }

  /** The moves after an active close, each with the segment that causes it and no other. */
  lemma ActiveCloseMoves(app: ServerApp, seg: TcpSegment, c: Conn, now: Time)
    requires c.state.FinWait1? || c.state.FinWait2? || c.state.Closing?
    ensures var r := HandleKnown(app, seg, c, now);
            r.reply.Ok? && (!r.reply.value.remove ==>
              && (r.conn.state.FinWait2? <==>
                    c.state.FinWait2? ||
                    (&& c.state.FinWait1? && seg.flags == Ack && seg.payload == None && InReceiveWindow(seg, c)
                     && seg.ackNum == c.sndNxt))
              && (r.conn.state.Closing? <==>
                    c.state.Closing? || (c.state.FinWait1? && InOrderFin(seg, c) && seg.ackNum != c.sndNxt))
              && (r.conn.state.FinWait1? || r.conn.state.FinWait2? || r.conn.state.Closing?))
  {
    hide InWindow, AckedConn, AckedWindow, Precedes, PrecedesOrEq, CheckSeq, InReceiveWindow;
    CheckIsWindow(seg, c);
    AckedStays(c, seg.ackNum);
    AckedStays(Discard(c, Bytes(seg.payload)), seg.ackNum);
    AckedStays(ConsumeFin(Discard(c, Bytes(seg.payload))), seg.ackNum);
  }

  /**
   Data that arrives ahead of a gap is kept, the longer of two payloads with one start, and answered by
   a duplicate acknowledgment.
   */
  lemma OutOfOrderIsKept(app: ServerApp, seg: TcpSegment, c: Conn, now: Time)
    requires c.state.Established? && BufferInv(c)
    requires seg.flags == FinAck || (seg.flags == Ack && seg.payload != None && !Precedes(c.sndNxt, seg.ackNum))
    requires InReceiveWindow(seg, c) && seg.seqNum != c.rcvNxt
    ensures var r := HandleKnown(app, seg, c, now);
            && Distinct(r.conn.segments) && r.conn.rcvNxt == c.rcvNxt && r.delivered == []
            && (seg.payload == None ==> ToMap(r.conn.segments) == ToMap(c.segments))
            && (seg.payload != None ==>
                  ToMap(r.conn.segments) == Inserted(ToMap(c.segments), seg.seqNum, seg.payload.value))
            && (seg.flags == FinAck && c.finSeq == None ==> r.conn.finSeq == Some(Add(seg.seqNum, Len(seg.payload))))
            && r.reply == Ok(Reply(Some(SendInfo(c.sndNxt, c.rcvNxt, Ack, None)), false))
  {
    hide InWindow, AckedWindow, AckedConn, Precedes, PrecedesOrEq, CheckSeq, InReceiveWindow, InsertedInto, ToMap,
         Distinct, Add, CloseWaitOrLastAck, DrainTransmittable, DeliverBuffered;
    CheckIsWindow(seg, c);
    AckedStays(c, seg.ackNum);
    if seg.payload != None {
      InsertedIntoMap(c.segments, seg.seqNum, seg.payload.value);
    }
  }

  /**
   Data that closes a gap is delivered together with exactly what had been waiting right behind it: the
   buffered payloads that each start where the one before ends, as far as that goes. A FIN that had been
   waiting is consumed if and only if RCV.NXT has reached it.
   */
  lemma GapIsClosed(app: ServerApp, seg: TcpSegment, c: Conn, now: Time) returns (starts: seq<SeqPoint>)
    requires c.state.Established? && BufferInv(c) && HandleKnown(app, seg, c, now).reply.Ok?
    requires seg.flags == Ack && seg.payload != None && !Precedes(c.sndNxt, seg.ackNum) && seg.seqNum == c.rcvNxt
    ensures HandleKnown(app, seg, c, now).delivered ==
            seg.payload.value + ChainFrom(ToMap(c.segments), Add(c.rcvNxt, |seg.payload.value|))
    ensures var m := ToMap(c.segments);
            && (forall s :: s in starts ==> s in m) && Linked(m, starts, Add(c.rcvNxt, |seg.payload.value|))
            && HandleKnown(app, seg, c, now).delivered == seg.payload.value + Joined(m, starts)
            && Add(c.rcvNxt, |HandleKnown(app, seg, c, now).delivered|) !in m
    ensures var r := HandleKnown(app, seg, c, now);
            var n := |r.delivered|;
            if c.finSeq.Some? && Dist(c.rcvNxt, c.finSeq.value) <= n
            then (r.conn.state.CloseWait? || r.conn.state.LastAck?) && r.conn.rcvNxt == Add(c.rcvNxt, n + 1)
            else r.conn.state.Established? && r.conn.rcvNxt == Add(c.rcvNxt, n) && r.conn.finSeq == c.finSeq
  {
    hide InWindow, Dist, Precedes, PrecedesOrEq, CheckSeq, InReceiveWindow, ToMap, Distinct, Add, Drain, ChainFrom,
         HandleEstablished, FinReached, Sub, Near, Linked, Joined;
    CheckIsWindow(seg, c);
    InOrderShapes(app, seg, c, now);
    EstablishedNext(app, seg, c, now);
    var n := Len(seg.payload);
    DrainKeepsBuffer(c.segments, c.rcvNxt, n);
    DrainKeepsFin(c, n);
    var chain := ChainFrom(ToMap(c.segments), Add(c.rcvNxt, n));
    AddAdd(c.rcvNxt, n + |chain|, 1);
    starts := WaitingChain(c, n);
  }

  lemma WaitingChain(c: Conn, n: nat) returns (starts: seq<SeqPoint>)
    requires c.state.Established? && BufferInv(c) && n <= MAX_PAYLOAD
    ensures var m := ToMap(c.segments);
            var chain := ChainFrom(m, Add(c.rcvNxt, n));
            && (forall s :: s in starts ==> s in m) && Linked(m, starts, Add(c.rcvNxt, n)) && chain == Joined(m, starts)
            && Add(c.rcvNxt, n + |chain|) !in m
  {
    hide Dist, ToMap, Distinct, Add, ChainFrom, Sub, Near, Linked, Joined;
    var m, rcv' := ToMap(c.segments), Add(c.rcvNxt, n);
    StartsStayNear(c.segments, c.rcvNxt, n);
    AddZeroPoint(rcv');
    starts := ChainLinks(m, rcv', 0, 0xFFFF);
    ChainLength(m, rcv', 0, 0xFFFF);
    AddAdd(c.rcvNxt, n, |ChainFrom(m, rcv')|);
    SubAdd(rcv', |ChainFrom(m, rcv')|);
  }

  /** CLOSE-WAIT means there is still something to send; otherwise our FIN has gone out. */
  ghost predicate WaitsToSend(w: World) {
    w.Live? && w.conn.state.CloseWait? ==> w.conn.sendBuffer != []
  }

  lemma ClosingSendsFin(c: Conn, w: WindowState, now: Time)
    ensures var r := CloseWaitOrLastAck(c, w, now);
            r.info.Ok? ==>
              && (r.conn.state.LastAck? <==> r.conn.sendBuffer == [])
              && (r.conn.state.CloseWait? || r.conn.state.LastAck?)
  {
  }

  lemma ArrivalSendsFin(app: ServerApp, seg: TcpSegment, c: Conn, now: Time)
    requires HandleKnown(app, seg, c, now).reply.Ok?
    ensures var c' := HandleKnown(app, seg, c, now).conn;
            c'.state.CloseWait? ==> c'.sendBuffer != [] || c' == c
  {
    hide DataOrAck, DrainTransmittable, CloseWaitOrLastAck, AckedConn, AckedWindow, CheckSeq, Drain, Precedes,
         PrecedesOrEq, DeliverBuffered, Deliver, FinReached, BufferSegment;
    AckedStays(c, seg.ackNum);
    if c.state.SynReceived? {
      var c1 := CompleteHandshake(seg, c);
      var w := c1.state.window;
      OpenFrame(app, seg, c1, w, now);
      ClosingSendsFin(ConsumeFin(DeliverBuffered(app, Deliver(app, c1, Bytes(seg.payload)))), w, now);
      var c2 := ConsumeFin(Deliver(app, c1, Bytes(seg.payload)));
      ClosingSendsFin(AckedConn(c2, seg.ackNum), AckedWindow(c2, w, seg), now);
      BufferStays(c1, seg);
    } else if c.state.Established? {
      var w1 := AckedWindow(c, c.state.window, seg);
      var c1 := AckedConn(c, seg.ackNum).(state := Established(w1));
      OpenFrame(app, seg, c1, w1, now);
      DataFrame(c1, w1, None, now);
      ClosingSendsFin(ConsumeFin(DeliverBuffered(app, Deliver(app, c1, Bytes(seg.payload)))), w1, now);
      var c2 := ConsumeFin(Deliver(app, c, Bytes(seg.payload)));
      ClosingSendsFin(AckedConn(c2, seg.ackNum), AckedWindow(c2, c.state.window, seg), now);
      BufferStays(c1, seg);
    } else if c.state.CloseWait? {
      ClosingSendsFin(AckedConn(c, seg.ackNum), AckedWindow(c, c.state.window, seg), now);
    }
  }

  lemma BufferStays(c: Conn, seg: TcpSegment)
    ensures BufferSegment(c, seg).state == c.state
  {
  }

  lemma StepWaitsToSend(cfg: Config, w: World, e: Event)
    requires WaitsToSend(w) && SendHistory(cfg, w) && Sound(w, e)
    ensures WaitsToSend(Step(cfg, w, e))
  {
    hide HandleKnown, SendInv, Slip, Truthful, EmittedTruthful, AfterResend, GivesUp, DueEmissions;
    if w.Live? && e.Arrive? {
      ArrivalSends(cfg.app, e.seg, w.conn, e.now, w.hist.iss, w.hist.sent);
      ArrivalSendsFin(cfg.app, e.seg, w.conn, e.now);
    }
  }

  lemma {:induction false} RunWaitsToSend(cfg: Config, w: World, events: seq<Event>)
    requires WaitsToSend(w) && SendHistory(cfg, w) && AllSound(cfg, w, events)
    ensures WaitsToSend(Run(cfg, w, events))
    decreases |events|
  {
    hide Step, SendHistory, WaitsToSend, Sound;
    if events != [] {
      StepKeepsSendHistory(cfg, w, events[0]);
      StepWaitsToSend(cfg, w, events[0]);
      RunWaitsToSend(cfg, Step(cfg, w, events[0]), events[1..]);
    }
  }

  /** In every run, once the peer's FIN is consumed our own follows exactly when the send buffer has run empty. */
  lemma FinFollowsLastByte(cfg: Config, iss: SeqPoint, syn: TcpSegment, now: Time, events: seq<Event>, w: World)
    requires Reachable(cfg, iss, syn, now, events, w) && w.Live?
    requires w.conn.state.CloseWait? || w.conn.state.LastAck?
    ensures w.conn.state.LastAck? <==> w.conn.sendBuffer == []
  {
    hide AllSound, Run, InFlightStream.InFlight, EmittedTruthful;
    OpenedSends(cfg, iss, syn, now);
    ReachableSends(cfg, iss, syn, now, events, w);
    RunWaitsToSend(cfg, Opened(iss, syn, now), events);
  }
}
