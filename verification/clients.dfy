/**
 A client that keeps to the protocol: acknowledging only what it was sent is enough for every run
 theorem, sending on and acknowledging is enough to bring a passive close to its end, and data a
 whole wrap of sequence space old is what a client must never send again.
 */
module Clients {
  import opened Base
  import opened SeqSpace
  import opened Segment
  import opened Pending
  import opened Reassembly
  import opened State
  import opened SendInfos
  import opened InFlightStream
  import opened SendSide
  import opened ReceiveSide
  import opened Transitions
  import opened Runs
  import opened Theorems
  import opened StateDiagram
  import Stalls
  import ActiveCloses
  import Windows

  // Acknowledging what was sent

  /** How far the outgoing stream has been put into sequence space, our FIN included. */
  function SentEnd(h: History): nat {
    |h.sent| + FinLen(h.finSent)
  }

  /** SEG.ACK stands for the first `n` of what was sent. */
  predicate AcksAt(seg: TcpSegment, iss: SeqPoint, n: int) {
    seg.ackNum == At(iss + 1 + n)
  }

  /**
   An acknowledgment of something that has been sent, less than half of sequence space back. It says
   nothing about the server that its client could not know.
   */
  ghost predicate AcksSent(w: World, e: Event) {
    w.Live? && e.Arrive? && e.seg.flags in {Ack, FinAck} ==>
      exists n: int :: AcksAt(e.seg, w.hist.iss, n) && SentEnd(w.hist) - HALF < n <= SentEnd(w.hist)
  }

  lemma NotHalfAWrapAhead(iss: SeqPoint, end: nat, n: int)
    requires end - HALF < n <= end
    ensures !Antipode(At(iss + 1 + end), At(iss + 1 + n), At(iss + 1 + end))
  {
    hide Dist, At, Add;
    DistAdd(At(iss + 1 + end), HALF);
    DistAt(iss + 1 + end, iss + 1 + n);
    BackwardDist(end, n);
  }

  lemma BackwardDist(end: nat, n: int)
    requires end - HALF < n <= end
    ensures (n - end) % MODULUS == if n == end then 0 else n - end + MODULUS
  {
  }

  /** Such an acknowledgment never slips. */
  lemma AckOfSentIsSound(cfg: Config, w: World, e: Event)
    requires SendHistory(cfg, w) && AcksSent(w, e)
    ensures Sound(w, e)
  {
    hide Tiles, EmittedTruthful, CheckSeq, Antipode, At, Precedes;
    if w.Live? && e.Arrive? && Slip(e.seg, w.conn) {
      var n :| AcksAt(e.seg, w.hist.iss, n) && SentEnd(w.hist) - HALF < n <= SentEnd(w.hist);
      NotHalfAWrapAhead(w.hist.iss, SentEnd(w.hist), n);
      AntipodeIsAhead(w.conn.sndUna, e.seg.ackNum, w.conn.sndNxt);
    }
  }

  ghost predicate AllAcksSent(cfg: Config, w: World, events: seq<Event>)
    decreases |events|
  {
    events != [] ==> AcksSent(w, events[0]) && AllAcksSent(cfg, Step(cfg, w, events[0]), events[1..])
  }

  /** So a run with a client that acknowledges only what it was sent is a run without slips. */
  lemma {:induction false} AcksOfSentAreSound(cfg: Config, w: World, events: seq<Event>)
    requires SendHistory(cfg, w) && AllAcksSent(cfg, w, events)
    ensures AllSound(cfg, w, events)
    decreases |events|
  {
    hide Step, SendHistory, AcksSent, Sound;
    if events != [] {
      AckOfSentIsSound(cfg, w, events[0]);
      StepKeepsSendHistory(cfg, w, events[0]);
      AcksOfSentAreSound(cfg, Step(cfg, w, events[0]), events[1..]);
    }
  }

  /**
   The echo for a client that sends its stream `s` and acknowledges only what it was sent, in terms of
   what that client does alone: once LAST-ACK is reached, and however the run goes on, what has been
   emitted is the response to `s` and our FIN.
   */
  lemma ClientEcho(
    cfg: Config, iss: SeqPoint, syn: TcpSegment, now: Time, events: seq<Event>, w: World, later: seq<Event>,
    s: seq<byte>)
    requires AllAcksSent(cfg, Opened(iss, syn, now), events) && AllFaithful(cfg, Opened(iss, syn, now), events, s)
    requires w == Run(cfg, Opened(iss, syn, now), events) && w.Live? && w.conn.state.LastAck?
    requires AllAcksSent(cfg, w, later)
    ensures Answered(cfg.app, Run(cfg, w, later).hist, s) && w.hist.delivered == s
  {
    hide AllSound, AllAcksSent, AllFaithful, Run, SendHistory, Answered;
    OpenedSends(cfg, iss, syn, now);
    AcksOfSentAreSound(cfg, Opened(iss, syn, now), events);
    ReachableSends(cfg, iss, syn, now, events, w);
    AcksOfSentAreSound(cfg, w, later);
    PassiveEcho(cfg, iss, syn, now, events, w, later, s);
  }

  // Bringing a passive close to its end

  /**
   The next segment of a client that has received all that was sent: the next byte of its stream `s`,
   its FIN behind the last one, then bare acknowledgments. Addresses and window are those of `from`.
   */
  function NextSegment(w: World, s: seq<byte>, from: TcpSegment): TcpSegment
    requires w.Live?
  {
    var n := |w.hist.accepted|;
    from.(seqNum := w.conn.rcvNxt, ackNum := w.conn.sndNxt,
          flags := if w.conn.state.PeerFin() || n < |s| then Ack else FinAck,
          payload := if w.conn.state.PeerFin() || n >= |s| then None else Some([s[n]]))
  }

  /** What this client sends at the given times until the connection is in LAST-ACK or gone. */
  function Conversation(cfg: Config, w: World, s: seq<byte>, from: TcpSegment, times: seq<Time>): seq<Event>
    decreases |times|
  {
    if times == [] || w.Gone? || w.conn.state.LastAck? then []
    else
      var e := Arrive(NextSegment(w, s, from), times[0]);
      [e] + Conversation(cfg, Step(cfg, w, e), s, from, times[1..])
  }

  /** On the way of a passive close, with the window open where it is needed. */
  predicate OnTheWay(c: Conn) {
    || c.state.SynReceived? || c.state.LastAck?
    || ((c.state.Established? || c.state.CloseWait?) && c.state.window.sndWnd > 0)
  }

  /** How many more segments of the client bring the connection to LAST-ACK at most. */
  function SegmentsLeft(c: Conn, accepted: nat, s: seq<byte>): int {
    match c.state
    case SynReceived | Established(_) => 2 * |s| - accepted + 2
    case CloseWait(_) => |c.sendBuffer| + 1
    case LastAck(_) | FinWait1(_) | FinWait2(_) | Closing(_) => 0
  }

  /** What one segment of the client does, for the outcome `r`. */
  ghost predicate Advances(c: Conn, r: Handled) {
    && r.reply.Ok? && !r.reply.value.remove && OnTheWay(r.conn) && !r.conn.state.SynReceived?
    && (!c.state.PeerFin() && r.conn.state.Established? ==> |r.accepted| > 0)
    && (c.state.CloseWait? && r.conn.state.CloseWait? ==> |r.conn.sendBuffer| < |c.sendBuffer|)
    && (c.state.CloseWait? ==> !r.conn.state.Established?)
  }

  lemma CurrentAck(c: Conn, seg: TcpSegment, iss: SeqPoint, sent: seq<byte>)
    requires SendInv(c, iss, sent) && !c.state.SynReceived? && seg.ackNum == c.sndNxt
    ensures !Antipode(c.sndUna, seg.ackNum, c.sndNxt) && !Slip(seg, c) && !Precedes(c.sndNxt, seg.ackNum)
    ensures OnTheWay(c) && c.state.window.sndWnd > 0 && seg.window > 0 ==>
              AckedWindow(c, c.state.window, seg).sndWnd > 0
  {
    hide InFlight;
    NotAntipode(c.sndUna, c.sndNxt);
  }

  /** The next byte in ESTABLISHED. */
  lemma DataAdvances(app: ServerApp, seg: TcpSegment, c: Conn, now: Time, iss: SeqPoint, sent: seq<byte>)
    requires c.state.Established? && OnTheWay(c) && SendInv(c, iss, sent)
    requires seg.flags == Ack && seg.payload != None && seg.seqNum == c.rcvNxt && seg.ackNum == c.sndNxt
    requires seg.window > 0
    ensures Advances(c, HandleKnown(app, seg, c, now))
  {
    hide InFlight, Slip, HandleEstablished, Antipode, Precedes, AckedWindow, Drain;
    CurrentAck(c, seg, iss, sent);
    ArrivalSends(app, seg, c, now, iss, sent);
    RemovedByReset(app, seg, c, now);
    ActiveCloses.ArrivalOpensNoClose(app, seg, c, now);
    StateAdvances(app, seg, c, now);
    WindowStep(app, seg, c, now);
    InOrderShapes(app, seg, c, now);
  }

  /** The FIN in ESTABLISHED, or right after the handshake. */
  lemma FinAdvances(app: ServerApp, seg: TcpSegment, c: Conn, now: Time, iss: SeqPoint, sent: seq<byte>)
    requires c.state.Established? && OnTheWay(c) && SendInv(c, iss, sent)
    requires seg.flags == FinAck && seg.seqNum == c.rcvNxt && seg.ackNum == c.sndNxt && seg.window > 0
    ensures Advances(c, HandleKnown(app, seg, c, now))
  {
    hide InFlight, Slip, HandleEstablished, Antipode, Precedes, AckedWindow;
    CurrentAck(c, seg, iss, sent);
    ArrivalSends(app, seg, c, now, iss, sent);
    RemovedByReset(app, seg, c, now);
    Stalls.ActedFin(app, seg, c, now, iss, sent);
    StateAdvances(app, seg, c, now);
    ActiveCloses.ArrivalOpensNoClose(app, seg, c, now);
    EstablishedShapes(app, seg, c, now);
    WindowStep(app, seg, c, now);
  }

  /** The bare acknowledgment in CLOSE-WAIT: with everything acknowledged the window has room for more. */
  lemma AckAdvances(app: ServerApp, seg: TcpSegment, c: Conn, now: Time, iss: SeqPoint, sent: seq<byte>)
    requires c.state.CloseWait? && OnTheWay(c) && SendInv(c, iss, sent)
    requires seg.flags == Ack && seg.payload == None && seg.seqNum == c.rcvNxt && seg.ackNum == c.sndNxt
    requires seg.window > 0
    ensures Advances(c, HandleKnown(app, seg, c, now))
  {
    hide InFlight, Slip, Antipode, Precedes, AckedWindow, AckedConn, Sendable, Sub;
    CurrentAck(c, seg, iss, sent);
    AckKeeps(c, seg.ackNum, iss, sent);
    var c1 := AckedConn(c, seg.ackNum);
    var w1 := AckedWindow(c, c.state.window, seg);
    SubOfSame(c1.sndUna);
    SendableGrows(w1, |c1.sendBuffer|);
    ClosingFrame(c1, w1, now);
  }

  lemma SubOfSame(p: SeqPoint)
    ensures Sub(p, p) == 0
  {
  }

  lemma SendableGrows(w: WindowState, queued: nat)
    ensures w.sndWnd > 0 && queued > 0 ==> Sendable(w, 0, queued) > 0
  {
  }

  /** The segment that completes the handshake. */
  lemma HandshakeAdvances(app: ServerApp, seg: TcpSegment, c: Conn, now: Time, iss: SeqPoint, sent: seq<byte>)
    requires c.state.SynReceived? && BufferInv(c) && SendInv(c, iss, sent)
    requires seg.flags in {Ack, FinAck} && (seg.payload != None || seg.flags == FinAck)
    requires seg.seqNum == c.rcvNxt && seg.ackNum == c.sndNxt && seg.window > 0
    ensures Advances(c, HandleKnown(app, seg, c, now))
  {
    hide InFlight, Slip, Antipode, Precedes, AckedWindow, HandleSynRcv, Drain, InReceiveWindow, Add;
    CheckIsWindow(seg, c);
    NoSlipBeforeHandshake(seg, c);
    ArrivalSends(app, seg, c, now, iss, sent);
    RemovedByReset(app, seg, c, now);
    SynRcvShapes(app, seg, c, now);
    HandshakeExactly(app, seg, c, now, iss, sent);
    ActiveCloses.ArrivalOpensNoClose(app, seg, c, now);
    Windows.HandshakeWindow(app, seg, c, now);
  }

  lemma NoSlipBeforeHandshake(seg: TcpSegment, c: Conn)
    requires c.state.SynReceived?
    ensures !Slip(seg, c)
  {
  }

  /** All that is known of the connection, and that it is on its way. */
  ghost predicate Ready(cfg: Config, w: World, s: seq<byte>) {
    SendHistory(cfg, w) && ReceiveHistory(w, s) && w.Live? && OnTheWay(w.conn)
  }

  /** The client's next segment fits what the theorems ask of a client. */
  lemma NextIsGenuine(cfg: Config, w: World, s: seq<byte>, from: TcpSegment, at: Time)
    requires Ready(cfg, w, s)
    ensures var e := Arrive(NextSegment(w, s, from), at);
            AcksSent(w, e) && Sound(w, e) && Faithful(w, e, s)
  {
    hide Tiles, EmittedTruthful, BufferInv, AheadInv, Sound, InFlight, At, OnTheWay;
    var e := Arrive(NextSegment(w, s, from), at);
    var n := SentEnd(w.hist);
    SentUpTo(w, cfg);
    assert AcksAt(e.seg, w.hist.iss, n);
    AckOfSentIsSound(cfg, w, e);
    if !w.conn.state.PeerFin() {
      assert CarriesAt(e.seg, w.hist.irs, s, |w.hist.accepted|);
    }
  }

  lemma SentUpTo(w: World, cfg: Config)
    requires SendHistory(cfg, w) && w.Live?
    ensures w.conn.sndNxt == At(w.hist.iss + 1 + SentEnd(w.hist))
  {
    hide Tiles, EmittedTruthful;
  }

  lemma NextAdvances(cfg: Config, w: World, s: seq<byte>, from: TcpSegment, at: Time)
    requires Ready(cfg, w, s) && !w.conn.state.LastAck? && from.window > 0
    ensures Advances(w.conn, HandleKnown(cfg.app, NextSegment(w, s, from), w.conn, at))
  {
    hide HandleKnown, Advances, EmittedTruthful, AheadInv, SendInv;
    var seg, c := NextSegment(w, s, from), w.conn;
    if c.state.SynReceived? {
      HandshakeAdvances(cfg.app, seg, c, at, w.hist.iss, w.hist.sent);
    } else if c.state.CloseWait? {
      AckAdvances(cfg.app, seg, c, at, w.hist.iss, w.hist.sent);
    } else if seg.flags == Ack {
      DataAdvances(cfg.app, seg, c, at, w.hist.iss, w.hist.sent);
    } else {
      FinAdvances(cfg.app, seg, c, at, w.hist.iss, w.hist.sent);
    }
  }

  /** Each segment of the client leaves fewer for it to send. */
  lemma NextStep(cfg: Config, w: World, s: seq<byte>, from: TcpSegment, at: Time)
    requires Ready(cfg, w, s) && !w.conn.state.LastAck? && from.window > 0
    ensures var w' := Step(cfg, w, Arrive(NextSegment(w, s, from), at));
            && Ready(cfg, w', s)
            && 0 <= SegmentsLeft(w'.conn, |w'.hist.accepted|, s) < SegmentsLeft(w.conn, |w.hist.accepted|, s)
  {
    hide HandleKnown, SendHistory, ReceiveHistory, OnTheWay, NextSegment, Sound, Faithful, AcksSent;
    var e := Arrive(NextSegment(w, s, from), at);
    NextIsGenuine(cfg, w, s, from, at);
    NextAdvances(cfg, w, s, from, at);
    StepKeepsSendHistory(cfg, w, e);
    StepKeepsReceiveHistory(cfg, w, e, s);
    var w' := Step(cfg, w, e);
    QueuedBound(cfg, w, s);
    QueuedBound(cfg, w', s);
    OnePassiveState(w.conn);
    OnePassiveState(w'.conn);
  }

  lemma OnePassiveState(c: Conn)
    requires OnTheWay(c)
    ensures c.state.SynReceived? || c.state.Established? || c.state.CloseWait? || c.state.LastAck?
  {
  }

  /** No more is queued than the client has sent. */
  lemma QueuedBound(cfg: Config, w: World, s: seq<byte>)
    requires SendHistory(cfg, w) && ReceiveHistory(w, s) && w.Live?
    ensures |w.conn.sendBuffer| <= |s| && |w.hist.accepted| <= |s|
  {
    hide SendInv, EmittedTruthful, BufferInv, ReceiveInv;
  }

  lemma {:induction false} ConversationReachesLastAck(
    cfg: Config, w: World, s: seq<byte>, from: TcpSegment, times: seq<Time>)
    requires Ready(cfg, w, s) && from.window > 0 && |times| >= SegmentsLeft(w.conn, |w.hist.accepted|, s)
    ensures var events := Conversation(cfg, w, s, from, times);
            var w' := Run(cfg, w, events);
            && AllAcksSent(cfg, w, events) && AllSound(cfg, w, events) && AllFaithful(cfg, w, events, s)
            && Ready(cfg, w', s) && w'.conn.state.LastAck?
            && |events| <= Max(SegmentsLeft(w.conn, |w.hist.accepted|, s), 0)
    decreases |times|
  {
    hide Step, SendHistory, ReceiveHistory, Sound, Faithful, AcksSent, NextSegment, OnTheWay;
    if !w.conn.state.LastAck? {
      OnePassiveState(w.conn);
      QueuedBound(cfg, w, s);
      NextIsGenuine(cfg, w, s, from, times[0]);
      NextStep(cfg, w, s, from, times[0]);
      var e := Arrive(NextSegment(w, s, from), times[0]);
      var w1 := Step(cfg, w, e);
      ConversationReachesLastAck(cfg, w1, s, from, times[1..]);
      var rest := Conversation(cfg, w1, s, from, times[1..]);
      assert ([e] + rest)[1..] == rest;
    }
  }

  /** In LAST-ACK the acknowledgment of our FIN removes the connection. */
  lemma LastAckRemoves(cfg: Config, w: World, s: seq<byte>, from: TcpSegment, at: Time)
    requires w.Live? && w.conn.state.LastAck?
    ensures Step(cfg, w, Arrive(NextSegment(w, s, from), at)).Gone?
  {
  }

  /**
   Progress: whatever has happened before, with the window open a client that sends the rest of its
   stream `s` byte by byte, then its FIN, and then acknowledges, sees the connection in LAST-ACK after
   at most 2|s| + 2 segments, all of `s` answered, and one more acknowledgment removes the connection.
   Right after the SYN the condition on the window is void, so this holds for every stream.
   */
  lemma EchoCompletes(
    cfg: Config, iss: SeqPoint, syn: TcpSegment, now: Time, events: seq<Event>, w: World, s: seq<byte>,
    from: TcpSegment, times: seq<Time>, at: Time)
    requires ReachableWith(cfg, iss, syn, now, events, w, s) && w.Live? && OnTheWay(w.conn)
    requires from.window > 0 && |times| >= 2 * |s| + 2
    ensures var talk := Conversation(cfg, w, s, from, times);
            var w1 := Run(cfg, w, talk);
            && |talk| <= 2 * |s| + 2 && AllAcksSent(cfg, w, talk) && AllFaithful(cfg, w, talk, s)
            && w1.Live? && w1.conn.state.LastAck? && w1.hist.delivered == s && Answered(cfg.app, w1.hist, s)
            && var w2 := Step(cfg, w1, Arrive(NextSegment(w1, s, from), at));
               w2.Gone? && Answered(cfg.app, w2.hist, s)
  {
    hide AllSound, AllFaithful, AllAcksSent, Run, Conversation, SendHistory, ReceiveHistory, OnTheWay, Answered, Step,
         NextSegment, Sound, Faithful;
    ReachableSends(cfg, iss, syn, now, events, w);
    ReachableReceives(cfg, iss, syn, now, events, w, s);
    QueuedBound(cfg, w, s);
    ConversationReachesLastAck(cfg, w, s, from, times);
    var talk := Conversation(cfg, w, s, from, times);
    var w1 := Run(cfg, w, talk);
    var last := Arrive(NextSegment(w1, s, from), at);
    NextIsGenuine(cfg, w1, s, from, at);
    LastAckRemoves(cfg, w1, s, from, at);
    RunOne(cfg, w1, last);
    RunConcat(cfg, Opened(iss, syn, now), events, talk);
    RunNone(cfg, w1);
    PassiveEcho(cfg, iss, syn, now, events + talk, w1, [], s);
    PassiveEcho(cfg, iss, syn, now, events + talk, w1, [last], s);
  }

  lemma RunNone(cfg: Config, w: World)
    ensures Run(cfg, w, []) == w && AllSound(cfg, w, [])
  {
  }

  // A whole wrap of sequence space

  /** While nothing is buffered, each byte of the conversation is accepted alone. */
  ghost predicate InOrderSoFar(w: World, s: seq<byte>, n: nat) {
    && w.Live? && (w.conn.state.SynReceived? || w.conn.state.Established?)
    && w.conn.segments == [] && w.conn.finSeq == None
    && n <= |s| && w.hist.accepted == s[..n]
  }

  lemma ByteAccepted(cfg: Config, w: World, s: seq<byte>, from: TcpSegment, at: Time, n: nat)
    requires Ready(cfg, w, s) && InOrderSoFar(w, s, n) && n < |s| && from.window > 0
    ensures var w' := Step(cfg, w, Arrive(NextSegment(w, s, from), at));
            InOrderSoFar(w', s, n + 1) && w'.conn.state.Established?
  {
    hide SendInv, EmittedTruthful, Slip, HandleKnown, AheadInv, Precedes, Add, ReceiveInv;
    var seg, c := NextSegment(w, s, from), w.conn;
    NextIsGenuine(cfg, w, s, from, at);
    NextAdvances(cfg, w, s, from, at);
    NextShape(cfg.app, seg, c, at, w.hist.iss, w.hist.sent);
    assert s[..n] + [s[n]] == s[..n + 1];
  }

  lemma NextShape(app: ServerApp, seg: TcpSegment, c: Conn, at: Time, iss: SeqPoint, sent: seq<byte>)
    requires (c.state.SynReceived? || c.state.Established?) && SendInv(c, iss, sent) && c.segments == []
    requires c.finSeq == None
    requires seg.flags == Ack && seg.payload != None && seg.seqNum == c.rcvNxt && seg.ackNum == c.sndNxt
    requires HandleKnown(app, seg, c, at).reply.Ok? && !HandleKnown(app, seg, c, at).reply.value.remove
    ensures var r := HandleKnown(app, seg, c, at);
            && r.accepted == seg.payload.value
            && r.conn.state.Established? && r.conn.segments == [] && r.conn.finSeq == None
  {
    hide InFlight, HandleSynRcv, HandleEstablished, Precedes, InReceiveWindow, Antipode, AckedWindow;
    CheckIsWindow(seg, c);
    assert seg.payload.value + [] == seg.payload.value;
    if c.state.SynReceived? {
      SynRcvShapes(app, seg, c, at);
      HandshakeExactly(app, seg, c, at, iss, sent);
    } else {
      CurrentAck(c, seg, iss, sent);
      InOrderShapes(app, seg, c, at);
    }
  }

  lemma {:induction false} BytesAccepted(
    cfg: Config, w: World, s: seq<byte>, from: TcpSegment, times: seq<Time>, n: nat)
    requires Ready(cfg, w, s) && InOrderSoFar(w, s, n) && n + |times| <= |s| && from.window > 0
    ensures var events := Conversation(cfg, w, s, from, times);
            var w' := Run(cfg, w, events);
            && AllSound(cfg, w, events) && AllFaithful(cfg, w, events, s) && Ready(cfg, w', s)
            && InOrderSoFar(w', s, n + |times|) && (times != [] ==> w'.conn.state.Established?)
    decreases |times|
  {
    hide Step, SendHistory, ReceiveHistory, Sound, Faithful, NextSegment, OnTheWay;
    if times != [] {
      NextIsGenuine(cfg, w, s, from, times[0]);
      NextStep(cfg, w, s, from, times[0]);
      ByteAccepted(cfg, w, s, from, times[0], n);
      var e := Arrive(NextSegment(w, s, from), times[0]);
      var w1 := Step(cfg, w, e);
      BytesAccepted(cfg, w1, s, from, times[1..], n + 1);
      var rest := Conversation(cfg, w1, s, from, times[1..]);
      assert ([e] + rest)[1..] == rest;
    }
  }

  /** The first byte of a stream, sent again. */
  function FirstByteAgain(w: World, s: seq<byte>, from: TcpSegment): TcpSegment
    requires w.Live? && s != []
  {
    from.(seqNum := Add(w.hist.irs, 1), ackNum := w.conn.sndNxt, flags := Ack, payload := Some([s[0]]))
  }

  lemma StalePoint(irs: SeqPoint)
    ensures RcvPoint(irs, MODULUS, false) == Add(irs, 1) == At(irs + 1)
  {
  }

  /**
   That nothing arrives from a whole wrap of sequence space away is needed: once as many bytes as there
   are sequence numbers have been accepted, the first byte of the stream, sent again, is taken for the
   one that comes next, and what has been accepted is no longer part of the stream.
   */
  lemma StaleIsAccepted(
    cfg: Config, iss: SeqPoint, syn: TcpSegment, now: Time, s: seq<byte>, from: TcpSegment, times: seq<Time>, at: Time)
    requires from.window > 0 && |times| == MODULUS < |s| && s[0] != s[MODULUS]
    ensures var events := Conversation(cfg, Opened(iss, syn, now), s, from, times);
            var w := Run(cfg, Opened(iss, syn, now), events);
            && ReachableWith(cfg, iss, syn, now, events, w, s) && w.Live? && w.hist.accepted == s[..MODULUS]
            && var stale := FirstByteAgain(w, s, from);
               && CarriesAt(stale, w.hist.irs, s, 0) && !Slip(stale, w.conn)
               && var w' := Step(cfg, w, Arrive(stale, at));
                  w'.hist.accepted == s[..MODULUS] + [s[0]] && !(w'.hist.accepted <= s)
  {
    hide AllSound, AllFaithful, Run, Conversation, SendHistory, HandleKnown, Slip, FirstByteAgain;
    var start := Opened(iss, syn, now);
    OpenedSends(cfg, iss, syn, now);
    OpenedReceives(iss, syn, now, s);
    assert s[..0] == [];
    BytesAccepted(cfg, start, s, from, times, 0);
    var w := Run(cfg, start, Conversation(cfg, start, s, from, times));
    StaleStep(cfg, w, s, from, at);
  }

  lemma StaleStep(cfg: Config, w: World, s: seq<byte>, from: TcpSegment, at: Time)
    requires SendHistory(cfg, w) && ReceiveHistory(w, s) && MODULUS < |s| && s[0] != s[MODULUS]
    requires InOrderSoFar(w, s, MODULUS) && w.conn.state.Established?
    ensures var stale := FirstByteAgain(w, s, from);
            && CarriesAt(stale, w.hist.irs, s, 0) && !Slip(stale, w.conn)
            && var w' := Step(cfg, w, Arrive(stale, at));
               w'.hist.accepted == s[..MODULUS] + [s[0]] && !(w'.hist.accepted <= s)
  {
    hide HandleKnown, InFlight, Slip, EmittedTruthful, AheadInv, RcvPoint, At, Add;
    var stale, c := FirstByteAgain(w, s, from), w.conn;
    StalePoint(w.hist.irs);
    CurrentAck(c, stale, w.hist.iss, w.hist.sent);
    ArrivalSends(cfg.app, stale, c, at, w.hist.iss, w.hist.sent);
    RemovedByReset(cfg.app, stale, c, at);
    NextShape(cfg.app, stale, c, at, w.hist.iss, w.hist.sent);
    assert (s[..MODULUS] + [s[0]])[MODULUS] == s[0];
  }
}
