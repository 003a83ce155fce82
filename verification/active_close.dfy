/** What an active close leaves unsent, and how it can come to wait for the peer without a timer. */
module ActiveCloses {
  import opened Base
  import opened SeqSpace
  import opened Segment
  import opened Pending
  import opened Reassembly
  import opened State
  import opened SendInfos
  import InFlightStream
  import opened SendSide
  import opened Transitions
  import opened Timers
  import opened Runs
  import opened Coverage
  import opened Theorems
  import opened StateDiagram

  // What is left unsent

  /** Behind our FIN nothing more is ever sequenced, however the run goes on. */
  lemma {:induction false} FinIsFinal(cfg: Config, w: World, events: seq<Event>)
    requires SendHistory(cfg, w) && AllSound(cfg, w, events) && w.hist.finSent
    ensures Run(cfg, w, events).hist.sent == w.hist.sent && Run(cfg, w, events).hist.finSent
    decreases |events|
  {
    hide HandleKnown, SendInv, Slip, EmittedTruthful, GivesUp, AfterResend, DueEmissions;
    if events != [] {
      StepKeepsSendHistory(cfg, w, events[0]);
      if w.Live? && events[0].Arrive? {
        FrontiersFreeze(cfg.app, events[0].seg, w.conn, events[0].now);
        assert w.hist.sent + [] == w.hist.sent;
      }
      FinIsFinal(cfg, Step(cfg, w, events[0]), events[1..]);
    }
  }

  /**
   An active close sends its FIN and, from then on, none of the bytes still queued: whatever
   happens later, all of the application's data goes out if and only if nothing was queued.
   */
  lemma ActiveCloseExactly(
    cfg: Config, iss: SeqPoint, syn: TcpSegment, now: Time, events: seq<Event>, w: World, at: Time, later: seq<Event>)
    requires Reachable(cfg, iss, syn, now, events, w) && w.Live? && w.conn.state.Established?
    requires AllSound(cfg, Step(cfg, w, ActiveClose(at)), later)
    ensures var w' := Run(cfg, Step(cfg, w, ActiveClose(at)), later);
            && FinEmitted(w'.hist)
            && w'.hist.sent + w.conn.sendBuffer == cfg.app.Respond(w.hist.delivered)
            && (w'.hist.sent == cfg.app.Respond(w.hist.delivered) <==> w.conn.sendBuffer == [])
  {
    hide AllSound, Run, SendInv, EmittedTruthful, SentIsEmitted;
    ReachableSends(cfg, iss, syn, now, events, w);
    ReachableCovers(cfg, iss, syn, now, events, w);
    var closed := Step(cfg, w, ActiveClose(at));
    StepKeepsSendHistory(cfg, w, ActiveClose(at));
    StepKeepsCover(cfg, w, ActiveClose(at));
    FinIsFinal(cfg, closed, later);
    RunKeepsCover(cfg, closed, later);
    CoveredFin(Run(cfg, closed, later).hist);
    assert w.hist.sent + [] == w.hist.sent;
  }

  /** A handshake acknowledgment that carries a byte but offers no window. */
  const CLOSED_WINDOW_DATA := ACK_SEGMENT.(payload := Some([65]), window := 0)

  /** With an active close right after it, the response to that byte is never sent. */
  lemma ActiveCloseLoses(cfg: Config, now: Time)
    ensures var w := Run(cfg, Opened(0, SYN_SEGMENT, now), [Arrive(CLOSED_WINDOW_DATA, now)]);
            && Reachable(cfg, 0, SYN_SEGMENT, now, [Arrive(CLOSED_WINDOW_DATA, now)], w)
            && w.Live? && w.conn.state.Established? && w.hist.delivered == [65]
            && w.conn.sendBuffer == cfg.app.Respond([65]) == [65]
            && var w' := Step(cfg, w, ActiveClose(now));
               w'.hist.finSent && w'.hist.sent == []
  {
    var start := Opened(0, SYN_SEGMENT, now);
    var c := start.conn;
    var seg := CLOSED_WINDOW_DATA;
    HandshakeAck(c, 1);
    assert CheckSeq(seg, c.rcvNxt) == InOrder;
    var c2 := Deliver(cfg.app, CompleteHandshake(seg, c), [65]);
    assert cfg.app.Respond([65]) == [65] && cfg.app.Respond([]) == [];
    assert Drain(c2.segments, c2.rcvNxt) == Drained([], c2.rcvNxt, []);
    var c3 := DeliverBuffered(cfg.app, c2);
    assert c3 == c2 && c3.sendBuffer == [65];
    assert DrainTransmittable(c3, Establish(seg)) == Ok(Transmit(None, c3));
    var h := HandleKnown(cfg.app, seg, c, now);
    assert h.conn == c3 && h.delivered == [65];
    assert [Arrive(seg, now)][1..] == [];
  }

  // Waiting for the peer

  /** In-order data in FIN-WAIT-1 that also acknowledges our FIN: it is taken as data, and the state stays. */
  predicate AcksFinWithData(seg: TcpSegment, c: Conn) {
    c.state.FinWait1? && seg.flags == Ack && seg.payload != None && seg.seqNum == c.rcvNxt && seg.ackNum == c.sndNxt
  }

  /** The states in which only our own FIN can still be outstanding. */
  predicate FinOut(c: Conn) {
    c.state.FinWait1? || c.state.Closing?
  }

  /** Nothing is outstanding after a step in these states only if nothing was, or data has acknowledged our FIN. */
  lemma StallStep(app: ServerApp, seg: TcpSegment, c: Conn, now: Time, iss: SeqPoint, sent: seq<byte>)
    requires FinOut(c) && SendInv(c, iss, sent) && !Slip(seg, c)
    requires var r := HandleKnown(app, seg, c, now); r.reply.Ok? && !r.reply.value.remove && FinOut(r.conn)
    ensures var c' := HandleKnown(app, seg, c, now).conn;
            c'.sndUna == c'.sndNxt <==> c.sndUna == c.sndNxt || AcksFinWithData(seg, c)
  {
    hide InFlightStream.InFlight, InFlightStream.Antipode, Acceptable, Uncovered, AckedWindow, CheckSeq, InWindow;
    CheckIsWindow(seg, c);
    if ReachesAckUpdate(seg, c) {
      AckKeeps(c, seg.ackNum, iss, sent);
      AckedDiscard(c, Bytes(seg.payload), seg.ackNum);
    }
  }

  /** No arriving segment starts an active close. */
  lemma ArrivalOpensNoClose(app: ServerApp, seg: TcpSegment, c: Conn, now: Time)
    requires !c.state.FinWait1? && !c.state.FinWait2? && !c.state.Closing?
    ensures var c' := HandleKnown(app, seg, c, now).conn;
            !c'.state.FinWait1? && !c'.state.FinWait2? && !c'.state.Closing?
  {
    hide CloseWaitOrLastAck, AckedConn, AckedWindow, CheckSeq, HandleSynRcv, HandleEstablished;
    if c.state.SynReceived? {
      SynRcvNext(app, seg, c, now);
    } else if c.state.Established? {
      EstablishedNext(app, seg, c, now);
    } else {
      AckedStays(c, seg.ackNum);
      ClosingFrame(AckedConn(c, seg.ackNum), AckedWindow(c, c.state.window, seg), now);
    }
  }

  ghost predicate Stalled(w: World) {
    w.Live? && FinOut(w.conn) && w.conn.sndUna == w.conn.sndNxt
  }

  predicate DataEvent(w: World, e: Event) {
    w.Live? && e.Arrive? && AcksFinWithData(e.seg, w.conn)
  }

  /** Somewhere in the run in-order data acknowledges our FIN in FIN-WAIT-1. */
  ghost predicate FinAckedByData(cfg: Config, w: World, events: seq<Event>)
    decreases |events|
  {
    events != [] && (DataEvent(w, events[0]) || FinAckedByData(cfg, Step(cfg, w, events[0]), events[1..]))
  }

  lemma StallEvent(cfg: Config, w: World, e: Event)
    requires SendHistory(cfg, w) && Sound(w, e)
    requires Step(cfg, w, e).Live? && FinOut(Step(cfg, w, e).conn)
    ensures Stalled(Step(cfg, w, e)) <==> Stalled(w) || DataEvent(w, e)
  {
    hide HandleKnown, Slip, EmittedTruthful, GivesUp, AfterResend, DueEmissions, InFlightStream.InFlight, Truthful;
    var c, h := w.conn, w.hist;
    match e
    case Arrive(seg, now) =>
      ArrivalSends(cfg.app, seg, c, now, h.iss, h.sent);
      if FinOut(c) {
        StallStep(cfg.app, seg, c, now, h.iss, h.sent);
      } else if c.state.FinWait2? {
        ActiveCloseMoves(cfg.app, seg, c, now);
      } else {
        ArrivalOpensNoClose(cfg.app, seg, c, now);
      }
    case Timeout(now) =>
    case ActiveClose(now) =>
      if c.state.Established? {
        CloseLeavesOutstanding(c, now, h.iss, h.sent);
      }
  }

  lemma CloseLeavesOutstanding(c: Conn, now: Time, iss: SeqPoint, sent: seq<byte>)
    requires c.state.Established? && SendInv(c, iss, sent)
    ensures CloseActively(c, now).conn.sndUna != CloseActively(c, now).conn.sndNxt
  {
    AppendInFlight(c.(state := FinWait1(c.state.window)), FinAck, None, now, iss, sent);
  }

  lemma {:induction false} FinWait2Stays(cfg: Config, w: World, events: seq<Event>)
    requires w.Live? ==> w.conn.state.FinWait2?
    ensures Run(cfg, w, events).Live? ==> Run(cfg, w, events).conn.state.FinWait2?
    decreases |events|
  {
    hide HandleKnown, GivesUp, AfterResend, DueEmissions;
    if events != [] {
      if w.Live? && events[0].Arrive? {
        ActiveCloseMoves(cfg.app, events[0].seg, w.conn, events[0].now);
      }
      FinWait2Stays(cfg, Step(cfg, w, events[0]), events[1..]);
    }
  }

  /** The states after a close: FIN-WAIT-1 can only have been left for FIN-WAIT-2 or CLOSING. */
  lemma FinOutMoves(cfg: Config, w: World, e: Event)
    requires w.Live? && FinOut(w.conn) && Step(cfg, w, e).Live?
    ensures var c' := Step(cfg, w, e).conn; FinOut(c') || c'.state.FinWait2?
  {
    hide HandleKnown, GivesUp, AfterResend, DueEmissions;
    if e.Arrive? {
      ActiveCloseMoves(cfg.app, e.seg, w.conn, e.now);
    }
  }

  lemma {:induction false} RunStalls(cfg: Config, w: World, events: seq<Event>)
    requires SendHistory(cfg, w) && AllSound(cfg, w, events)
    requires Run(cfg, w, events).Live? && FinOut(Run(cfg, w, events).conn)
    ensures Stalled(Run(cfg, w, events)) <==> Stalled(w) || FinAckedByData(cfg, w, events)
    decreases |events|
  {
    hide Step, SendHistory, Stalled, DataEvent, Sound, FinOut;
    if events != [] {
      var e, w1 := events[0], Step(cfg, w, events[0]);
      StepKeepsSendHistory(cfg, w, e);
      RunStalls(cfg, w1, events[1..]);
      StallBefore(cfg, w, e, events[1..]);
    }
  }

  /** A stall, or what causes it, is still there in the end if the states it belongs to are. */
  lemma StallBefore(cfg: Config, w: World, e: Event, rest: seq<Event>)
    requires SendHistory(cfg, w) && Sound(w, e)
    requires Run(cfg, Step(cfg, w, e), rest).Live? && FinOut(Run(cfg, Step(cfg, w, e), rest).conn)
    ensures Stalled(Step(cfg, w, e)) <==> Stalled(w) || DataEvent(w, e)
  {
    hide HandleKnown, SendHistory, Slip, GivesUp, AfterResend, DueEmissions;
    var w1 := Step(cfg, w, e);
    if w1.Live? && FinOut(w1.conn) {
      StallEvent(cfg, w, e);
    } else {
      if Stalled(w) || DataEvent(w, e) {
        if w1.Live? {
          FinOutMoves(cfg, w, e);
        }
        FinWait2Stays(cfg, w1, rest);
        assert false;
      }
    }
  }

  /**
   FIN-WAIT-1 and CLOSING with nothing left to retransmit: that happens if and only if, in
   FIN-WAIT-1, in-order data has come with an acknowledgment of our FIN.
   */
  lemma NothingPendingExactly(cfg: Config, iss: SeqPoint, syn: TcpSegment, now: Time, events: seq<Event>, w: World)
    requires Reachable(cfg, iss, syn, now, events, w) && w.Live? && FinOut(w.conn)
    ensures w.conn.pending == [] <==> FinAckedByData(cfg, Opened(iss, syn, now), events)
  {
    hide AllSound, Run, SendHistory, FinAckedByData, InFlightStream.Tiles;
    OpenedSends(cfg, iss, syn, now);
    RunStalls(cfg, Opened(iss, syn, now), events);
    PendingTilesFlight(cfg, iss, syn, now, events, w);
  }

  /** With nothing to retransmit no number of timeouts changes anything: only the peer can. */
  lemma {:induction false} NothingPendingWaits(cfg: Config, w: World, times: seq<Time>)
    requires w.Live? && w.conn.pending == []
    ensures Run(cfg, w, Timeouts(times)) == w
    decreases |times|
  {
    if times != [] {
      assert Timeouts(times)[1..] == Timeouts(times[1..]);
      var w1 := Step(cfg, w, Timeout(times[0]));
      assert AfterResend([], cfg.rto, times[0]) == [];
      assert w.hist.emitted + [] == w.hist.emitted;
      assert w1 == w;
      NothingPendingWaits(cfg, w, times[1..]);
    }
  }

  /** Data that acknowledges our FIN, and an older FIN of the peer that does not. */
  const DATA_AND_ACK := ACK_SEGMENT.(ackNum := 2, payload := Some([65]))
  const OLD_FIN := ACK_SEGMENT.(seqNum := 2, ackNum := 1, flags := FinAck)

  /**
   The data leaves a closed connection in FIN-WAIT-1 with its FIN acknowledged, and the FIN then in
   CLOSING likewise.
   */
  lemma DataAcknowledgesFin(cfg: Config, now: Time)
    ensures var closed := Run(cfg, Opened(0, SYN_SEGMENT, now), [Arrive(ACK_SEGMENT, now), ActiveClose(now)]);
            && closed.Live? && closed.conn.state.FinWait1? && !Slip(DATA_AND_ACK, closed.conn)
            && var w := Step(cfg, closed, Arrive(DATA_AND_ACK, now));
               && w.Live? && w.conn.state.FinWait1? && w.conn.sndUna == w.conn.sndNxt == 2 && w.conn.pending == []
               && !Slip(OLD_FIN, w.conn)
               && var w' := Step(cfg, w, Arrive(OLD_FIN, now));
                  w'.Live? && w'.conn.state.Closing? && w'.conn.pending == []
  {
    var w0 := FreshlyEstablished(cfg, now);
    RunTwo(cfg, Opened(0, SYN_SEGMENT, now), Arrive(ACK_SEGMENT, now), ActiveClose(now));
    var window := Establish(ACK_SEGMENT);
    var fin := NewPending(SendInfo(1, 1, FinAck, None), now);
    var c := Conn(FinWait1(window), 2, 1, 1, [fin], [], [], None);
    assert [] + [fin] == [fin];
    assert Step(cfg, w0, ActiveClose(now)).conn == c;
    var c1 := DataThenFin(c, fin, cfg.app, now);
  }

  lemma DataThenFin(c: Conn, fin: PendingSegment, app: ServerApp, now: Time) returns (c1: Conn)
    requires fin == NewPending(SendInfo(1, 1, FinAck, None), now)
    requires c == Conn(FinWait1(Establish(ACK_SEGMENT)), 2, 1, 1, [fin], [], [], None)
    ensures !Slip(DATA_AND_ACK, c) && !Slip(OLD_FIN, c1)
    ensures var r := HandleKnown(app, DATA_AND_ACK, c, now);
            && r.reply.Ok? && !r.reply.value.remove && r.conn == c1
            && c1.state.FinWait1? && c1.sndUna == c1.sndNxt == 2 && c1.pending == []
    ensures var r := HandleKnown(app, OLD_FIN, c1, now);
            r.reply.Ok? && !r.reply.value.remove && r.conn.state.Closing? && r.conn.pending == []
  {
    assert fin.endSeq == 2 && [fin][1..] == [];
    assert Uncovered([fin], 2) == [];
    c1 := HandleFinWait1(DATA_AND_ACK, c).conn;
    assert c1 == Conn(c1.state, 2, 2, 2, [], [], [], None);
    assert !Acceptable(c1, 1);
  }

  lemma RunTwo(cfg: Config, w: World, e: Event, f: Event)
    ensures Run(cfg, w, [e, f]) == Step(cfg, Run(cfg, w, [e]), f)
  {
    hide Step, Run;
    assert [e] + [f] == [e, f];
    RunConcat(cfg, w, [e], [f]);
    RunOne(cfg, Run(cfg, w, [e]), f);
  }
}
