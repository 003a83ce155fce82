/** Queued data with nothing outstanding: exactly when that happens, since no timer will ever move it. */
module Stalls {
  import opened Base
  import opened SeqSpace
  import opened Segment
  import opened Pending
  import opened Reassembly
  import opened State
  import opened SendInfos
  import opened InFlightStream
  import opened SendSide
  import opened Transitions
  import opened Timers
  import opened Runs
  import opened Theorems
  import opened StateDiagram
  import ActiveCloses

  /** Data is queued, nothing is outstanding, and yet the peer's window is open. */
  predicate Stranded(c: Conn) {
    c.state.Established? && c.sendBuffer != [] && c.sndUna == c.sndNxt && c.state.window.sndWnd > 0
  }

  /** A segment ahead of a gap whose acknowledgment is acted on; it never lets the send buffer drain. */
  predicate ActsAhead(seg: TcpSegment, c: Conn) {
    && c.state.Established? && InReceiveWindow(seg, c) && seg.seqNum != c.rcvNxt
    && (seg.flags == FinAck || (seg.flags == Ack && seg.payload != None && !Precedes(c.sndNxt, seg.ackNum)))
  }

  /** A segment whose acknowledgment is acted on and that then lets the send buffer drain. */
  predicate ActsAndDrains(seg: TcpSegment, c: Conn) {
    && c.state.Established? && InReceiveWindow(seg, c)
    && ((seg.flags == FinAck && seg.seqNum == c.rcvNxt)
        || (seg.flags == Ack && !Precedes(c.sndNxt, seg.ackNum) && (seg.payload == None || seg.seqNum == c.rcvNxt)))
  }

  /** A segment ahead of a gap that leaves nothing outstanding, data queued and the window open. */
  predicate Strands(seg: TcpSegment, c: Conn) {
    && ActsAhead(seg, c) && c.sendBuffer != [] && (c.sndUna == c.sndNxt || seg.ackNum == c.sndNxt)
    && AckedWindow(c, c.state.window, seg).sndWnd > 0
  }

  /** After sending what the window allows, an open window and an unsent rest mean that something is outstanding. */
  lemma DrainedOrOutstanding(c: Conn, w: WindowState, t: Transmit, now: Time)
    requires DrainTransmittable(c, w) == Ok(t) && Dist(c.sndUna, c.sndNxt) < HALF && w.sndWnd > 0
    ensures var s := DataOrAck(t.conn, t.payload, now);
            s.conn.sendBuffer == t.conn.sendBuffer && (t.conn.sendBuffer == [] || s.conn.sndUna != s.conn.sndNxt)
  {
    hide Dist, Sub, Add;
    SubIsDist(c.sndNxt, c.sndUna);
    DistBetween(c.sndUna, c.sndNxt, c.sndNxt);
    if t.payload != None {
      DistGrows(c.sndUna, c.sndNxt, Len(t.payload));
    }
  }

  /** So draining never strands anything, whatever the window. */
  lemma DrainNeverStrands(c: Conn, w: WindowState, now: Time, iss: SeqPoint, sent: seq<byte>)
    requires InFlight(c.sndUna, c.sndNxt, c.pending, iss, sent, false)
    ensures var r := DrainTransmittable(c, w);
            && r.Ok?
            && var s := DataOrAck(r.value.conn, r.value.payload, now);
               s.conn.sendBuffer == [] || w.sndWnd == 0 || s.conn.sndUna != s.conn.sndNxt
  {
    hide Dist, DrainTransmittable, DataOrAck, Tiles;
    DrainSends(c, w, iss, sent);
    if w.sndWnd > 0 {
      DrainedOrOutstanding(c, w, DrainTransmittable(c, w).value, now);
    }
  }

  lemma ClosingNeverStrands(c: Conn, w: WindowState, now: Time, iss: SeqPoint, sent: seq<byte>)
    requires InFlight(c.sndUna, c.sndNxt, c.pending, iss, sent, false)
    ensures var r := CloseWaitOrLastAck(c, w, now);
            && r.info.Ok? && r.conn.state in {CloseWait(w), LastAck(w)}
            && (r.conn.state.CloseWait? ==> w.sndWnd == 0 || r.conn.sndUna != r.conn.sndNxt)
  {
    hide Dist, DrainTransmittable, DataOrAck, Tiles;
    DrainSends(c, w, iss, sent);
    var t := DrainTransmittable(c, w).value;
    DataFrame(t.conn.(state := CloseWait(w)), w, t.payload, now);
    DataFrame(t.conn, w, t.payload, now);
    if w.sndWnd > 0 {
      DrainedOrOutstanding(c, w, t, now);
      SendingIgnoresState(t.conn, CloseWait(w), t.payload, now);
    }
  }

  lemma SendingIgnoresState(c: Conn, state: TcpState, payload: Option<Payload>, now: Time)
    ensures DataOrAck(c.(state := state), payload, now).conn == DataOrAck(c, payload, now).conn.(state := state)
  {
  }

  /** Neither stranded in ESTABLISHED nor waiting in CLOSE-WAIT with an open window and nothing outstanding. */
  predicate Moving(c: Conn) {
    && !Stranded(c)
    && (c.state.CloseWait? ==> c.sndUna != c.sndNxt || c.state.window.sndWnd == 0)
  }

  /** A segment ahead of a gap, when it is acted on. */
  lemma AheadStep(app: ServerApp, seg: TcpSegment, c: Conn, now: Time, iss: SeqPoint, sent: seq<byte>)
    requires ActsAhead(seg, c) && SendInv(c, iss, sent) && !Slip(seg, c)
    ensures var c' := HandleKnown(app, seg, c, now).conn;
            c'.state.Established? && (Stranded(c') <==> Strands(seg, c))
  {
    hide InFlight, Antipode, Acceptable, Uncovered, AckedWindow, CheckSeq, Precedes, PrecedesOrEq, InReceiveWindow,
         InsertedInto;
    CheckIsWindow(seg, c);
    AckKeeps(c, seg.ackNum, iss, sent);
  }

  /** In-order data, when its acknowledgment is acted on. */
  lemma InOrderStep(app: ServerApp, seg: TcpSegment, c: Conn, now: Time, iss: SeqPoint, sent: seq<byte>)
    requires c.state.Established? && SendInv(c, iss, sent) && !Slip(seg, c)
    requires seg.flags == Ack && seg.payload != None && seg.seqNum == c.rcvNxt && !Precedes(c.sndNxt, seg.ackNum)
    ensures Moving(HandleKnown(app, seg, c, now).conn)
  {
    hide InFlight, Antipode, Acceptable, Uncovered, AckedWindow, CheckSeq, Precedes, PrecedesOrEq, DrainTransmittable,
         DataOrAck, CloseWaitOrLastAck, Drain, InReceiveWindow, InWindow;
    CheckIsWindow(seg, c);
    AckKeeps(c, seg.ackNum, iss, sent);
    var w1 := AckedWindow(c, c.state.window, seg);
    var c1 := AckedConn(c, seg.ackNum).(state := Established(w1));
    DeliveredTwice(app, c1, Bytes(seg.payload));
    var c3 := DeliverBuffered(app, Deliver(app, c1, Bytes(seg.payload)));
    ClosingNeverStrands(ConsumeFin(c3), w1, now, iss, sent);
    DrainNeverStrands(c3, w1, now, iss, sent);
    var t := DrainTransmittable(c3, w1).value;
    DataFrame(c3, w1, None, now);
    DataFrame(t.conn, w1, t.payload, now);
  }

  /** A bare acknowledgment, when it is acted on. */
  lemma BareAckStep(app: ServerApp, seg: TcpSegment, c: Conn, now: Time, iss: SeqPoint, sent: seq<byte>)
    requires c.state.Established? && SendInv(c, iss, sent) && !Slip(seg, c)
    requires seg.flags == Ack && seg.payload == None && InReceiveWindow(seg, c) && !Precedes(c.sndNxt, seg.ackNum)
    ensures Moving(HandleKnown(app, seg, c, now).conn)
  {
    hide InFlight, Antipode, Acceptable, Uncovered, AckedWindow, CheckSeq, Precedes, PrecedesOrEq, DrainTransmittable,
         InReceiveWindow, InWindow;
    CheckIsWindow(seg, c);
    AckKeeps(c, seg.ackNum, iss, sent);
    var w1 := AckedWindow(c, c.state.window, seg);
    var c1 := AckedConn(c, seg.ackNum).(state := Established(w1));
    DrainNeverStrands(c1, w1, now, iss, sent);
    DataFrame(c1, w1, None, now);
  }

  /** An in-order FIN. */
  lemma InOrderFinStep(app: ServerApp, seg: TcpSegment, c: Conn, now: Time, iss: SeqPoint, sent: seq<byte>)
    requires c.state.Established? && SendInv(c, iss, sent) && !Antipode(c.sndUna, seg.ackNum, c.sndNxt)
    ensures var r := CloseOnInOrderFin(app, seg, c, c.state.window, now);
            r.conn.state.CloseWait? || r.conn.state.LastAck?
    ensures Moving(CloseOnInOrderFin(app, seg, c, c.state.window, now).conn)
  {
    hide InFlight, Antipode, Acceptable, Uncovered, AckedWindow, CloseWaitOrLastAck, Precedes, PrecedesOrEq;
    var c1 := ConsumeFin(Deliver(app, c, Bytes(seg.payload)));
    AckKeeps(c1, seg.ackNum, iss, sent);
    ClosingNeverStrands(AckedConn(c1, seg.ackNum), AckedWindow(c1, c.state.window, seg), now, iss, sent);
  }

  /** What is acted on neither way changes nothing. */
  lemma IdleStep(app: ServerApp, seg: TcpSegment, c: Conn, now: Time)
    requires c.state.Established? && !ActsAhead(seg, c) && !ActsAndDrains(seg, c)
    ensures HandleKnown(app, seg, c, now).conn == c
  {
    hide InWindow, AckedConn, AckedWindow, CheckSeq, Precedes, PrecedesOrEq, DrainTransmittable, CloseWaitOrLastAck,
         Drain, InReceiveWindow;
    CheckIsWindow(seg, c);
  }

  /** The acknowledgment that completes the handshake, with the data it carries. */
  lemma HandshakeDataMoves(app: ServerApp, seg: TcpSegment, c: Conn, now: Time, iss: SeqPoint, sent: seq<byte>)
    requires c.state.SynReceived? && SendInv(c, iss, sent)
    requires seg.flags == Ack && seg.ackNum == c.sndNxt && CheckSeq(seg, c.rcvNxt) == InOrder
    ensures Moving(HandleSynRcv(app, seg, c, now).conn)
  {
    hide InFlight, Acceptable, Uncovered, AckedWindow, AckedConn, CheckSeq, Precedes, PrecedesOrEq, DrainTransmittable,
         DataOrAck, CloseWaitOrLastAck, Drain, InWindow;
    HandshakeAck(c, seg.ackNum);
    HandshakeKeeps(seg, c, iss, sent);
    var c1 := CompleteHandshake(seg, c);
    var w := c1.state.window;
    var c3 := DeliverBuffered(app, Deliver(app, c1, Bytes(seg.payload)));
    DeliveredTwice(app, c1, Bytes(seg.payload));
    ClosingNeverStrands(ConsumeFin(c3), w, now, iss, sent);
    DrainNeverStrands(c3, w, now, iss, sent);
    var t := DrainTransmittable(c3, w).value;
    DataFrame(c3, w, None, now);
    DataFrame(t.conn, w, t.payload, now);
  }

  lemma HandshakeMoves(app: ServerApp, seg: TcpSegment, c: Conn, now: Time, iss: SeqPoint, sent: seq<byte>)
    requires c.state.SynReceived? && SendInv(c, iss, sent)
    ensures Moving(HandleKnown(app, seg, c, now).conn)
  {
    hide InFlight, Antipode, Precedes, PrecedesOrEq, CloseOnInOrderFin, InWindow, BufferSegment, Deliver,
         DeliverBuffered, Moving, DrainTransmittable, CloseWaitOrLastAck, DataOrAck, ConsumeFin, FinReached;
    HandshakeAck(c, seg.ackNum);
    StillMoving(c);
    var c1 := CompleteHandshake(seg, c);
    var completes := seg.flags in {Ack, FinAck} && CheckSeq(seg, c.rcvNxt) != Unacceptable && seg.ackNum == c.sndNxt;
    if completes && CheckSeq(seg, c.rcvNxt) == InOrder {
      if seg.flags == Ack {
        HandshakeDataMoves(app, seg, c, now, iss, sent);
      } else {
        HandshakeKeeps(seg, c, iss, sent);
        NotAntipode(c1.sndUna, c1.sndNxt);
        InOrderFinStep(app, seg, c1, now, iss, sent);
      }
    } else if completes {
      NothingToStrand(c1, seg);
    } else if seg.flags == Syn {
      StillMoving(HandleSynRcv(app, seg, c, now).conn);
    }
  }

  lemma StillMoving(c: Conn)
    requires c.state.SynReceived?
    ensures Moving(c)
  {
  }

  lemma NothingToStrand(c: Conn, seg: TcpSegment)
    requires c.sendBuffer == [] && c.state.Established?
    ensures Moving(BufferSegment(c, seg))
  {
  }

  lemma CloseWaitMoves(app: ServerApp, seg: TcpSegment, c: Conn, now: Time, iss: SeqPoint, sent: seq<byte>)
    requires c.state.CloseWait? && Moving(c) && SendInv(c, iss, sent) && !Slip(seg, c)
    ensures Moving(HandleKnown(app, seg, c, now).conn)
  {
    hide InFlight, Antipode, Acceptable, Uncovered, AckedWindow, CloseWaitOrLastAck, CheckSeq;
    if ReachesAckUpdate(seg, c) {
      AckKeeps(c, seg.ackNum, iss, sent);
      ClosingNeverStrands(AckedConn(c, seg.ackNum), AckedWindow(c, c.state.window, seg), now, iss, sent);
    }
  }

  // Runs

  /** The event is acted on in ESTABLISHED: a segment, whichever way, a reset, or a close. */
  predicate ActedOn(w: World, e: Event) {
    && w.Live? && w.conn.state.Established?
    && match e
       case Arrive(seg, _) =>
         || ActsAhead(seg, w.conn) || ActsAndDrains(seg, w.conn)
         || (seg.flags in {Rst, RstAck} && seg.seqNum == w.conn.rcvNxt)
       case Timeout(_) => false
       case ActiveClose(_) => true
  }

  ghost predicate NothingActedOn(cfg: Config, w: World, events: seq<Event>)
    decreases |events|
  {
    events != [] ==> !ActedOn(w, events[0]) && NothingActedOn(cfg, Step(cfg, w, events[0]), events[1..])
  }

  predicate StrandsIn(w: World, e: Event) {
    w.Live? && e.Arrive? && Strands(e.seg, w.conn)
  }

  /** The last thing acted on in the run was a segment that strands the queued data. */
  ghost predicate LastStrands(cfg: Config, w: World, events: seq<Event>)
    decreases |events|
  {
    events != [] &&
      var w1 := Step(cfg, w, events[0]);
      || (StrandsIn(w, events[0]) && NothingActedOn(cfg, w1, events[1..]))
      || LastStrands(cfg, w1, events[1..])
  }

  ghost predicate StrandedWorld(w: World) {
    w.Live? && Stranded(w.conn)
  }

  lemma StepStrands(cfg: Config, w: World, e: Event)
    requires SendHistory(cfg, w) && Sound(w, e)
    ensures StrandedWorld(Step(cfg, w, e)) <==> StrandsIn(w, e) || (StrandedWorld(w) && !ActedOn(w, e))
  {
    hide HandleKnown, Slip, EmittedTruthful, GivesUp, AfterResend, DueEmissions, SendInv, Truthful, ActsAhead,
         ActsAndDrains, InReceiveWindow;
    if w.Live? {
      match e
      case Arrive(seg, now) => ArrivalStrands(cfg, w.conn, w.hist, seg, now);
      case Timeout(now) => TimeoutStrands(cfg, w.conn, w.hist, now);
      case ActiveClose(now) =>
    }
  }

  /** With nothing outstanding a timeout finds nothing to give up. */
  lemma TimeoutStrands(cfg: Config, c: Conn, h: History, now: Time)
    requires SendHistory(cfg, Live(c, h))
    ensures StrandedWorld(Step(cfg, Live(c, h), Timeout(now))) <==> Stranded(c)
  {
    hide Tiles, Dist, EmittedTruthful, AfterResend, DueEmissions, At;
    if Stranded(c) {
      assert c.pending == [];
    }
  }

  lemma ArrivalStrands(cfg: Config, c: Conn, h: History, seg: TcpSegment, now: Time)
    requires SendHistory(cfg, Live(c, h)) && !Slip(seg, c)
    ensures var e := Arrive(seg, now);
            StrandedWorld(Step(cfg, Live(c, h), e)) <==>
            StrandsIn(Live(c, h), e) || (Stranded(c) && !ActedOn(Live(c, h), e))
  {
    hide HandleKnown, Slip, EmittedTruthful, SendInv, Truthful, ActsAhead, ActsAndDrains;
    var r := HandleKnown(cfg.app, seg, c, now);
    ArrivalSends(cfg.app, seg, c, now, h.iss, h.sent);
    if c.state.Established? {
      RemovedExactly(cfg.app, seg, c, now);
      EstablishedStrands(cfg.app, seg, c, now, h.iss, h.sent);
    } else if c.state.SynReceived? {
      HandshakeMoves(cfg.app, seg, c, now, h.iss, h.sent);
      AheadIsEstablished(seg, c);
    } else {
      StateAdvances(cfg.app, seg, c, now);
      AheadIsEstablished(seg, c);
    }
  }

  lemma AheadIsEstablished(seg: TcpSegment, c: Conn)
    ensures ActsAhead(seg, c) || ActsAndDrains(seg, c) ==> c.state.Established?
  {
  }

  /** In ESTABLISHED, for all three kinds of segments. */
  lemma EstablishedStrands(app: ServerApp, seg: TcpSegment, c: Conn, now: Time, iss: SeqPoint, sent: seq<byte>)
    requires c.state.Established? && SendInv(c, iss, sent) && !Slip(seg, c)
    ensures var c' := HandleKnown(app, seg, c, now).conn;
            Stranded(c') <==> Strands(seg, c) || (Stranded(c) && !ActsAhead(seg, c) && !ActsAndDrains(seg, c))
    ensures ActsAhead(seg, c) || ActsAndDrains(seg, c) ==> seg.flags in {Ack, FinAck}
    ensures !(ActsAhead(seg, c) && ActsAndDrains(seg, c))
    ensures Moving(c) && !ActsAhead(seg, c) ==> Moving(HandleKnown(app, seg, c, now).conn)
    ensures HandleKnown(app, seg, c, now).conn.state.CloseWait? ==> Moving(HandleKnown(app, seg, c, now).conn)
  {
    hide HandleKnown, Antipode, InFlight, InReceiveWindow, Precedes, AckedWindow;
    CheckIsWindow(seg, c);
    AntipodeIsAhead(c.sndUna, seg.ackNum, c.sndNxt);
    if ActsAhead(seg, c) {
      AheadStep(app, seg, c, now, iss, sent);
    } else if ActsAndDrains(seg, c) {
      if seg.flags == FinAck {
        ActedFin(app, seg, c, now, iss, sent);
      } else if seg.payload == None {
        BareAckStep(app, seg, c, now, iss, sent);
      } else {
        InOrderStep(app, seg, c, now, iss, sent);
      }
    } else {
      IdleStep(app, seg, c, now);
    }
  }

  lemma ActedFin(app: ServerApp, seg: TcpSegment, c: Conn, now: Time, iss: SeqPoint, sent: seq<byte>)
    requires c.state.Established? && SendInv(c, iss, sent) && !Slip(seg, c)
    requires seg.flags == FinAck && seg.seqNum == c.rcvNxt
    ensures Moving(HandleKnown(app, seg, c, now).conn)
  {
    hide InFlight, Antipode, CloseOnInOrderFin, InWindow, PrecedesOrEq;
    CheckIsWindow(seg, c);
    InOrderFinStep(app, seg, c, now, iss, sent);
  }

  lemma {:induction false} RunStrands(cfg: Config, w: World, events: seq<Event>)
    requires SendHistory(cfg, w) && AllSound(cfg, w, events)
    ensures StrandedWorld(Run(cfg, w, events)) <==>
            (StrandedWorld(w) && NothingActedOn(cfg, w, events)) || LastStrands(cfg, w, events)
    decreases |events|
  {
    hide Step, SendHistory, StrandedWorld, StrandsIn, ActedOn, Sound;
    if events != [] {
      StepKeepsSendHistory(cfg, w, events[0]);
      StepStrands(cfg, w, events[0]);
      RunStrands(cfg, Step(cfg, w, events[0]), events[1..]);
    }
  }

  /** In CLOSE-WAIT either something is outstanding or the window is closed, in every run. */
  ghost predicate CloseWaitWaits(w: World) {
    w.Live? && w.conn.state.CloseWait? ==> w.conn.sndUna != w.conn.sndNxt || w.conn.state.window.sndWnd == 0
  }

  lemma StepCloseWaitWaits(cfg: Config, w: World, e: Event)
    requires SendHistory(cfg, w) && Sound(w, e) && CloseWaitWaits(w)
    ensures CloseWaitWaits(Step(cfg, w, e))
  {
    hide HandleKnown, Slip, EmittedTruthful, GivesUp, AfterResend, DueEmissions, SendInv, Truthful, ActsAhead,
         ActsAndDrains, Strands;
    if w.Live? && e.Arrive? {
      var c, h := w.conn, w.hist;
      ArrivalSends(cfg.app, e.seg, c, e.now, h.iss, h.sent);
      if c.state.CloseWait? {
        CloseWaitMoves(cfg.app, e.seg, c, e.now, h.iss, h.sent);
      } else if c.state.Established? {
        EstablishedStrands(cfg.app, e.seg, c, e.now, h.iss, h.sent);
      } else if c.state.SynReceived? {
        HandshakeMoves(cfg.app, e.seg, c, e.now, h.iss, h.sent);
      } else {
        NoCloseWaitBehindFin(cfg.app, e.seg, c, e.now);
      }
    }
  }

  lemma NoCloseWaitBehindFin(app: ServerApp, seg: TcpSegment, c: Conn, now: Time)
    requires c.state.FinSent()
    ensures !HandleKnown(app, seg, c, now).conn.state.CloseWait?
  {
    FrontiersFreeze(app, seg, c, now);
  }

  lemma {:induction false} RunCloseWaitWaits(cfg: Config, w: World, events: seq<Event>)
    requires SendHistory(cfg, w) && AllSound(cfg, w, events) && CloseWaitWaits(w)
    ensures CloseWaitWaits(Run(cfg, w, events))
    decreases |events|
  {
    hide Step, SendHistory, CloseWaitWaits, Sound;
    if events != [] {
      StepKeepsSendHistory(cfg, w, events[0]);
      StepCloseWaitWaits(cfg, w, events[0]);
      RunCloseWaitWaits(cfg, Step(cfg, w, events[0]), events[1..]);
    }
  }

  /**
   In every run, data queued with nothing pending, which no timer will ever move: in CLOSE-WAIT the
   peer's window is then closed; in ESTABLISHED it is closed too, unless the last segment acted on
   was one ahead of a gap that left nothing outstanding and the window open. That is the exact
   condition, both ways.
   */
  lemma QueuedAndIdleExactly(cfg: Config, iss: SeqPoint, syn: TcpSegment, now: Time, events: seq<Event>, w: World)
    requires Reachable(cfg, iss, syn, now, events, w) && w.Live?
    requires (w.conn.state.Established? || w.conn.state.CloseWait?)
    ensures w.conn.sendBuffer != [] && w.conn.pending == [] && w.conn.state.window.sndWnd > 0 <==>
            LastStrands(cfg, Opened(iss, syn, now), events)
    ensures LastStrands(cfg, Opened(iss, syn, now), events) ==> w.conn.state.Established?
  {
    hide AllSound, Run, SendHistory, LastStrands, NothingActedOn, Tiles;
    OpenedSends(cfg, iss, syn, now);
    RunStrands(cfg, Opened(iss, syn, now), events);
    RunCloseWaitWaits(cfg, Opened(iss, syn, now), events);
    PendingTilesFlight(cfg, iss, syn, now, events, w);
  }

  /** Two bytes with a window of one, then data ahead of a gap that acknowledges the first and opens the window. */
  const NARROW := ACK_SEGMENT.(payload := Some([65, 66]), window := 1)
  const AHEAD := ACK_SEGMENT.(seqNum := 5, ackNum := 2, window := 1000, payload := Some([70]))

  /** The rest of the data then stays where it is, however often a timer fires. */
  lemma AheadStrandsByte(cfg: Config, now: Time, times: seq<Time>)
    ensures var w := Run(cfg, Opened(0, SYN_SEGMENT, now), [Arrive(NARROW, now)]);
            && Reachable(cfg, 0, SYN_SEGMENT, now, [Arrive(NARROW, now)], w)
            && w.Live? && w.conn.state.Established? && w.conn.sendBuffer == [66] && !Slip(AHEAD, w.conn)
            && var w' := Step(cfg, w, Arrive(AHEAD, now));
               && w'.Live? && w'.conn.state.Established? && w'.conn.pending == []
               && w'.conn.sendBuffer == [66] && w'.conn.state.window.sndWnd == 1000
               && Run(cfg, w', Timeouts(times)) == w'
  {
    hide HandleKnown, Slip, AfterResend, GivesUp;
    var start := Opened(0, SYN_SEGMENT, now);
    var c := NarrowOpens(cfg.app, start.conn, now);
    AheadActs(cfg.app, c, c.pending[0], now);
    var w := Step(cfg, start, Arrive(NARROW, now));
    assert w.Live? && w.conn == c;
    RunOne(cfg, start, Arrive(NARROW, now));
    ActiveCloses.NothingPendingWaits(cfg, Step(cfg, w, Arrive(AHEAD, now)), times);
  }

  /** The handshake with two bytes sends the first of them. */
  lemma NarrowOpens(app: ServerApp, c: Conn, now: Time) returns (c': Conn)
    requires c == Opened(0, SYN_SEGMENT, now).conn
    ensures !Slip(NARROW, c)
    ensures var h := HandleKnown(app, NARROW, c, now);
            h.reply.Ok? && !h.reply.value.remove && h.conn == c'
    ensures c' == Conn(Established(Establish(NARROW)), 2, 3, 1,
                       [NewPending(SendInfo(1, 3, Ack, Some([65])), now)], [66], [], None)
  {
    HandshakeAck(c, 1);
    assert CheckSeq(NARROW, c.rcvNxt) == InOrder;
    var c2 := Deliver(app, CompleteHandshake(NARROW, c), [65, 66]);
    assert app.Respond([65, 66]) == [65, 66] && app.Respond([]) == [];
    assert Drain(c2.segments, c2.rcvNxt) == Reassembly.Drained([], c2.rcvNxt, []);
    assert DeliverBuffered(app, c2) == c2;
    assert c2.sendBuffer == [65, 66] && c2.sendBuffer[..1] == [65] && c2.sendBuffer[1..] == [66];
    assert c2.sndNxt == c2.sndUna == 1 && Sendable(Establish(NARROW), 0, 2) == 1;
    var t := Transmit(Some([65]), c2.(sendBuffer := [66]));
    assert DrainTransmittable(c2, Establish(NARROW)) == Ok(t);
    var p := NewPending(SendInfo(1, 3, Ack, Some([65])), now);
    assert [] + [p] == [p];
    c' := DataOrAck(t.conn, t.payload, now).conn;
  }

  lemma AheadActs(app: ServerApp, c: Conn, p: PendingSegment, now: Time)
    requires p == NewPending(SendInfo(1, 3, Ack, Some([65])), now)
    requires c == Conn(Established(Establish(NARROW)), 2, 3, 1, [p], [66], [], None)
    ensures !Slip(AHEAD, c)
    ensures var r := HandleKnown(app, AHEAD, c, now);
            && r.reply.Ok? && !r.reply.value.remove && r.conn.state.Established? && r.conn.pending == []
            && r.conn.sendBuffer == [66] && r.conn.state.window.sndWnd == 1000
  {
    assert p.endSeq == 2 && [p][1..] == [];
    assert Uncovered([p], 2) == [];
    assert CheckSeq(AHEAD, 3) == OutOfOrder;
    assert Fresh(Establish(NARROW), AHEAD);
  }
}
