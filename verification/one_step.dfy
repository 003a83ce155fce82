/**
 What one segment does to a connection, written the other way around: not state by state, but field by
 field, in one pass through acknowledgment, receiving, sending and the reply, and in terms of distances
 in sequence space alone. The handlers of all seven states are proved to do exactly this.
 */
module OneStep {
  import opened Base
  import opened SeqSpace
  import opened Segment
  import opened Pending
  import opened Reassembly
  import opened State
  import opened SendInfos
  import opened InFlightStream
  import opened SendSide
  import opened ReceiveSide

  // Where a segment lies

  predicate IsReset(seg: TcpSegment) {
    seg.flags == Rst || seg.flags == RstAck
  }

  /** Plain data, an acknowledgment or a FIN: all that anything is taken from. */
  predicate IsAck(seg: TcpSegment) {
    seg.flags == Ack || seg.flags == FinAck
  }

  predicate Next(seg: TcpSegment, c: Conn) {
    seg.seqNum == c.rcvNxt
  }

  predicate InWin(seg: TcpSegment, c: Conn) {
    Dist(c.rcvNxt, seg.seqNum) < 65535
  }

  /** With nothing outstanding, SEG.ACK lies exactly half of sequence space ahead. */
  predicate HalfAhead(seg: TcpSegment, c: Conn) {
    c.sndUna == c.sndNxt && Dist(c.sndUna, seg.ackNum) == 0x8000_0000
  }

  /** SEG.ACK lies between SND.UNA and SND.NXT, or passes for it. */
  predicate Covers(seg: TcpSegment, c: Conn) {
    Dist(c.sndUna, seg.ackNum) <= Dist(c.sndUna, c.sndNxt) || HalfAhead(seg, c)
  }

  /** SEG.ACK lies behind SND.NXT, by at most half of sequence space. */
  predicate Beyond(seg: TcpSegment, c: Conn) {
    1 <= Dist(c.sndNxt, seg.ackNum) <= 0x8000_0000
  }

  // What is acted on

  /** Completes the handshake. */
  predicate Opens(seg: TcpSegment, c: Conn) {
    c.state.SynReceived? && IsAck(seg) && InWin(seg, c) && seg.ackNum == c.sndNxt
  }

  /** The acknowledgment and window of a segment count, once the connection is synchronized. */
  predicate Heeded(seg: TcpSegment, c: Conn) {
    match c.state
    case SynReceived => false
    case Established(_) => InWin(seg, c) && (seg.flags == FinAck || (seg.flags == Ack && !Beyond(seg, c)))
    case FinWait1(_) =>
      || (seg.flags == Ack && (Next(seg, c) || (InWin(seg, c) && seg.payload == None)))
      || (seg.flags == FinAck && Next(seg, c) && seg.ackNum != c.sndNxt)
    case FinWait2(_) => seg.flags == Ack && (Next(seg, c) || (InWin(seg, c) && seg.payload == None))
    case CloseWait(_) => seg.flags == Ack && seg.payload == None && InWin(seg, c)
    case Closing(_) | LastAck(_) =>
      seg.flags == Ack && seg.payload == None && InWin(seg, c) && seg.ackNum != c.sndNxt
  }

  /** What the segment carries comes next and is taken. */
  predicate Takes(seg: TcpSegment, c: Conn) {
    && Next(seg, c) && IsAck(seg)
    && match c.state
       case SynReceived => Opens(seg, c)
       case Established(_) => Heeded(seg, c)
       case FinWait1(_) | FinWait2(_) => true
       case CloseWait(_) | Closing(_) | LastAck(_) => false
  }

  /** What the segment carries lies ahead of a gap and is kept. */
  predicate Keeps(seg: TcpSegment, c: Conn) {
    && InWin(seg, c) && !Next(seg, c)
    && (Opens(seg, c) || (c.state.Established? && Heeded(seg, c) && (seg.payload != None || seg.flags == FinAck)))
  }

  /** The segment ends the connection. */
  predicate Ends(seg: TcpSegment, c: Conn) {
    match c.state
    case FinWait1(_) => seg.flags == FinAck && Next(seg, c) && seg.ackNum == c.sndNxt
    case FinWait2(_) => seg.flags == FinAck && Next(seg, c)
    case Closing(_) | LastAck(_) =>
      seg.flags == Ack && seg.payload == None && InWin(seg, c) && seg.ackNum == c.sndNxt
    case SynReceived | Established(_) | CloseWait(_) => false
  }

  // Acknowledgment

  function UnaAfter(seg: TcpSegment, c: Conn): SeqPoint {
    if Opens(seg, c) || (Heeded(seg, c) && Covers(seg, c)) then seg.ackNum else c.sndUna
  }

  /** The pending segments that do not end at or before `ack`. */
  function EndingAfter(pending: seq<PendingSegment>, ack: SeqPoint): seq<PendingSegment> {
    if pending == [] then []
    else
      (if Dist(pending[0].endSeq, ack) <= 0x8000_0000 then [] else [pending[0]]) + EndingAfter(pending[1..], ack)
  }

  function PendingAfter(seg: TcpSegment, c: Conn): seq<PendingSegment> {
    if Opens(seg, c) then []
    else if Heeded(seg, c) && Covers(seg, c) && seg.ackNum != c.sndUna then EndingAfter(c.pending, seg.ackNum)
    else c.pending
  }

  /** At least as new as the segment the window was taken from, by SEG.SEQ and then SEG.ACK. */
  predicate AtLeastAsNew(seg: TcpSegment, w: WindowState) {
    || 1 <= Dist(w.sndWl1, seg.seqNum) <= 0x8000_0000
    || (w.sndWl1 == seg.seqNum && Dist(w.sndWl2, seg.ackNum) <= 0x8000_0000)
  }

  function WindowAfter(seg: TcpSegment, c: Conn): WindowState
    requires !c.state.SynReceived? || Opens(seg, c)
  {
    if Opens(seg, c) || (Heeded(seg, c) && Covers(seg, c) && AtLeastAsNew(seg, c.state.window))
    then WindowState(seg.window, seg.seqNum, seg.ackNum)
    else c.state.window
  }

  // Receiving

  /** In ESTABLISHED, in-order data brings with it what had been waiting behind it. */
  ghost function AcceptedBytes(seg: TcpSegment, c: Conn): seq<byte>
    requires BufferInv(c)
  {
    if !Takes(seg, c) then []
    else if c.state.Established? && seg.flags == Ack && seg.payload != None then
      seg.payload.value + ChainFrom(ToMap(c.segments), Add(c.rcvNxt, |seg.payload.value|))
    else Bytes(seg.payload)
  }

  /** The peer's FIN is consumed: the segment's own, or one that had been waiting and is reached. */
  ghost predicate TakesFin(seg: TcpSegment, c: Conn)
    requires BufferInv(c)
  {
    && Takes(seg, c)
    && (|| seg.flags == FinAck
        || (c.state.Established? && c.finSeq.Some?
            && Dist(c.rcvNxt, c.finSeq.value) <= |AcceptedBytes(seg, c)|))
  }

  /** After our own close the application is not handed anything any more. */
  ghost function DeliveredBytes(seg: TcpSegment, c: Conn): seq<byte>
    requires BufferInv(c)
  {
    if c.state.SynReceived? || c.state.Established? then AcceptedBytes(seg, c) else []
  }

  /** The connection once the acknowledgment has been heeded and the contents taken. */
  ghost function Received(app: ServerApp, seg: TcpSegment, c: Conn): Conn
    requires BufferInv(c)
  {
    c.(sndUna := UnaAfter(seg, c), pending := PendingAfter(seg, c),
       rcvNxt := Add(c.rcvNxt, |AcceptedBytes(seg, c)| + if TakesFin(seg, c) then 1 else 0),
       sendBuffer := c.sendBuffer + app.Respond(DeliveredBytes(seg, c)),
       finSeq := if Keeps(seg, c) && seg.flags == FinAck && c.finSeq == None
                 then Some(Add(seg.seqNum, Len(seg.payload))) else c.finSeq)
  }

  /** What is buffered afterwards. */
  ghost predicate BuffersRight(seg: TcpSegment, c: Conn, segments: seq<Buffered>)
    requires BufferInv(c)
  {
    if c.state.Established? && Takes(seg, c) && seg.flags == Ack && seg.payload != None then
      && Distinct(segments)
      && ToMap(segments) ==
         map t | t in ToMap(c.segments) && Dist(c.rcvNxt, t) > |AcceptedBytes(seg, c)| :: ToMap(c.segments)[t]
    else if Keeps(seg, c) && seg.payload != None then
      && Distinct(c.segments) && Distinct(segments)
      && var m := ToMap(c.segments);
         var longest := if seg.seqNum in m && |m[seg.seqNum]| >= |seg.payload.value| then m[seg.seqNum]
                        else seg.payload.value;
         ToMap(segments) == m[seg.seqNum := longest]
    else segments == c.segments
  }

  // Sending

  /** As many of the queued bytes as window, packet and queue allow. */
  function Allowed(c: Conn, wnd: nat): nat {
    Min(Min(Max(wnd - Dist(c.sndUna, c.sndNxt), 0), |c.sendBuffer|), 1460)
  }

  predicate Sends(seg: TcpSegment, c: Conn) {
    || (Takes(seg, c) && (c.state.SynReceived? || c.state.Established?))
    || (Heeded(seg, c) && c.state.Established? && seg.flags == Ack && seg.payload == None)
    || (Heeded(seg, c) && c.state.CloseWait?)
  }

  /** Nothing can be sent, since SND.UNA has just moved past SND.NXT. */
  predicate Fails(seg: TcpSegment, c: Conn) {
    Sends(seg, c) && Heeded(seg, c) && HalfAhead(seg, c)
  }

  /**
   Sends from the front of the queue; with `closing`, and the queue empty after that, our FIN goes with
   it. Nothing to send leaves `c` alone.
   */
  function SendFrom(c: Conn, wnd: nat, closing: bool, now: Time): (Conn, Option<SendInfo>) {
    var n := Allowed(c, wnd);
    var fin := closing && n == |c.sendBuffer|;
    if n == 0 && !fin then (c, None)
    else
      var info := SendInfo(c.sndNxt, c.rcvNxt, if fin then FinAck else Ack,
                           if n == 0 then None else Some(c.sendBuffer[..n]));
      var end := Add(c.sndNxt, n + if fin then 1 else 0);
      (c.(sndNxt := end, pending := c.pending + [PendingSegment(info, end, now, 0)], sendBuffer := c.sendBuffer[n..]),
       Some(info))
  }

  // All of it

  /** The state afterwards, `fin` telling whether the peer's FIN is consumed and `sent` whether ours goes out. */
  function StateAfter(seg: TcpSegment, c: Conn, fin: bool, sent: bool): TcpState {
    match c.state
    case SynReceived => if Opens(seg, c) then OpenState(WindowAfter(seg, c), fin, sent) else SynReceived
    case Established(_) => OpenState(WindowAfter(seg, c), fin, sent)
    case CloseWait(_) => OpenState(WindowAfter(seg, c), true, sent)
    case FinWait1(_) =>
      var w := WindowAfter(seg, c);
      if Ends(seg, c) then c.state
      else if fin then Closing(w)
      else if seg.flags == Ack && seg.payload == None && InWin(seg, c) && seg.ackNum == c.sndNxt then FinWait2(w)
      else FinWait1(w)
    case FinWait2(_) => FinWait2(WindowAfter(seg, c))
    case Closing(_) => Closing(WindowAfter(seg, c))
    case LastAck(_) => LastAck(WindowAfter(seg, c))
  }

  function OpenState(w: WindowState, fin: bool, sent: bool): TcpState {
    if !fin then Established(w) else if sent then LastAck(w) else CloseWait(w)
  }

  function BareAck(c: Conn): SendInfo {
    SendInfo(c.sndNxt, c.rcvNxt, Ack, None)
  }

  /** Not acted on, and told so by an acknowledgment: <SND.NXT, RCV.NXT, ACK>. */
  predicate Challenged(seg: TcpSegment, c: Conn) {
    if IsReset(seg) then InWin(seg, c) && !Next(seg, c)
    else
      || (!InWin(seg, c) && !(c.state.SynReceived? && seg.flags == Syn))
      || (!c.state.SynReceived? && !IsAck(seg))
      || (c.state.Established? && seg.flags == Ack && Beyond(seg, c))
  }

  /** In the window but of no use, and told so by a reset. */
  predicate Refuses(seg: TcpSegment, c: Conn) {
    && !IsReset(seg) && !Challenged(seg, c) && !(c.state.SynReceived? && seg.flags == Syn)
    && !Opens(seg, c) && !Heeded(seg, c) && !Takes(seg, c) && !Ends(seg, c)
  }

  /** The reply, `sent` being what has been sent from the queue and `c'` the connection after that. */
  ghost function ReplyTo(seg: TcpSegment, c: Conn, c': Conn, sent: Option<SendInfo>): Option<SendInfo>
    requires BufferInv(c)
  {
    if c.state.SynReceived? && seg.flags == Syn then Some(SendInfo(c.sndUna, Add(seg.seqNum, 1), SynAck, None))
    else if Challenged(seg, c) then Some(BareAck(c))
    else if Refuses(seg, c) then Some(SendInfo(seg.ackNum, 0, Rst, None))
    else if sent != None then sent
    else if AcceptedBytes(seg, c) != [] || TakesFin(seg, c) || Keeps(seg, c) || (Heeded(seg, c) && c.state.CloseWait?)
    then Some(BareAck(c'))
    else None
  }

  ghost predicate StepIs(app: ServerApp, seg: TcpSegment, c: Conn, now: Time, r: Handled)
    requires BufferInv(c)
  {
    var c1 := Received(app, seg, c);
    var fin := TakesFin(seg, c);
    var (c2, sent) :=
      if Sends(seg, c) then SendFrom(c1, WindowAfter(seg, c).sndWnd, fin || c.state.CloseWait?, now) else (c1, None);
    var again := SendInfo(c.sndUna, Add(seg.seqNum, 1), SynAck, None);
    var c3 := if c.state.SynReceived? && seg.flags == Syn
              then c2.(pending := c2.pending + [PendingSegment(again, Add(c.sndUna, 1), now, 0)]) else c2;
    && r.accepted == AcceptedBytes(seg, c) && r.delivered == DeliveredBytes(seg, c)
    && BuffersRight(seg, c, r.conn.segments)
    && if Fails(seg, c) then r.reply == Err && r.conn == c1.(segments := r.conn.segments)
       else
         && r.reply == Ok(Reply(ReplyTo(seg, c, c2, sent), (IsReset(seg) && Next(seg, c)) || Ends(seg, c)))
         && r.conn == c3.(state := StateAfter(seg, c, fin, sent.Some? && sent.value.flags == FinAck),
                          segments := r.conn.segments)
  }

  // The parts, one by one

  lemma WhereIs(seg: TcpSegment, c: Conn)
    ensures CheckSeq(seg, c.rcvNxt) == InOrder <==> Next(seg, c)
    ensures CheckSeq(seg, c.rcvNxt) == Unacceptable <==> !InWin(seg, c)
    ensures Next(seg, c) ==> InWin(seg, c)
    ensures Precedes(c.sndNxt, seg.ackNum) <==> Beyond(seg, c)
  {
    hide Dist, Precedes, InWindow;
    InWindowExact(seg.seqNum, c.rcvNxt, RCV_WND);
    DistBetween(c.rcvNxt, c.rcvNxt, c.rcvNxt);
    PrecedesByDist(c.sndNxt, seg.ackNum);
    DistZero(c.rcvNxt, seg.seqNum);
  }

  lemma {:induction false} EndingIs(pending: seq<PendingSegment>, ack: SeqPoint)
    ensures Uncovered(pending, ack) == EndingAfter(pending, ack)
  {
    hide Dist, PrecedesOrEq;
    if pending != [] {
      PrecedesByDist(pending[0].endSeq, ack);
      EndingIs(pending[1..], ack);
    }
  }

  /** The connection and window after an acknowledgment that is heeded. */
  lemma AckIs(seg: TcpSegment, c: Conn, w: WindowState)
    requires Dist(c.sndUna, c.sndNxt) < HALF
    ensures AckedConn(c, seg.ackNum) ==
            c.(sndUna := if Covers(seg, c) then seg.ackNum else c.sndUna,
               pending := if Covers(seg, c) && seg.ackNum != c.sndUna then EndingAfter(c.pending, seg.ackNum)
                          else c.pending)
    ensures AckedWindow(c, w, seg) ==
            if Covers(seg, c) && AtLeastAsNew(seg, w) then WindowState(seg.window, seg.seqNum, seg.ackNum) else w
  {
    hide Dist, Precedes, PrecedesOrEq, AckInRange, EndingAfter, Uncovered;
    AckTestExact(c.sndUna, seg.ackNum, c.sndNxt);
    PrecedesByDist(c.sndUna, seg.ackNum);
    DistZero(c.sndUna, seg.ackNum);
    DistZero(c.sndUna, c.sndNxt);
    EndingIs(c.pending, seg.ackNum);
    PrecedesByDist(w.sndWl1, seg.seqNum);
    PrecedesByDist(w.sndWl2, seg.ackNum);
  }

  /** What may be sent is taken off the front of the queue, and it is all that may be. */
  lemma DrainIs(c: Conn, w: WindowState)
    requires Dist(c.sndUna, c.sndNxt) < HALF
    ensures var n := Allowed(c, w.sndWnd);
            DrainTransmittable(c, w) ==
            Ok(Transmit(if n == 0 then None else Some(c.sendBuffer[..n]), c.(sendBuffer := c.sendBuffer[n..])))
  {
    hide Dist, Sub;
    SubIsDist(c.sndNxt, c.sndUna);
  }

  lemma SendingIs(c: Conn, w: WindowState, now: Time)
    requires Dist(c.sndUna, c.sndNxt) < HALF
    ensures var r := DrainTransmittable(c, w);
            var (c', sent) := SendFrom(c, w.sndWnd, false, now);
            && r.Ok? && (r.value.payload == None <==> sent == None) && (sent == None ==> r.value.conn == c)
            && (sent.Some? ==> Transmitted(r.value.conn, Ack, r.value.payload, now) == Sent(c', sent.value))
            && DataOrAck(r.value.conn, r.value.payload, now) ==
               Sent(c', if sent.Some? then sent.value else BareAck(c'))
  {
    hide Dist, Add, DrainTransmittable;
    DrainIs(c, w);
    assert c.sendBuffer[0..] == c.sendBuffer;
  }

  lemma ClosingIs(c: Conn, w: WindowState, now: Time)
    requires Dist(c.sndUna, c.sndNxt) < HALF
    ensures var (c', sent) := SendFrom(c, w.sndWnd, true, now);
            CloseWaitOrLastAck(c, w, now) ==
            Closed(c'.(state := if sent.Some? && sent.value.flags == FinAck then LastAck(w) else CloseWait(w)),
                   Ok(if sent.Some? then sent.value else BareAck(c')))
  {
    hide Dist, Add, DrainTransmittable;
    DrainIs(c, w);
    assert c.sendBuffer[0..] == c.sendBuffer;
  }

  /** The drain of the buffer, by distances from RCV.NXT. */
  lemma DrainedIs(c: Conn, n: nat)
    requires c.state.Established? && BufferInv(c) && n <= MAX_PAYLOAD
    ensures var d := Drain(c.segments, Add(c.rcvNxt, n));
            && d.bytes == ChainFrom(ToMap(c.segments), Add(c.rcvNxt, n)) && d.rcvNxt == Add(c.rcvNxt, n + |d.bytes|)
            && Distinct(d.rest)
            && ToMap(d.rest) ==
               map t | t in ToMap(c.segments) && Dist(c.rcvNxt, t) > n + |d.bytes| :: ToMap(c.segments)[t]
  {
    hide Dist, Sub, Add, Distinct, ToMap, Near, PrecedesOrEq, Drain, ChainFrom;
    var rcv' := Add(c.rcvNxt, n);
    var m := ToMap(c.segments);
    DrainKeepsBuffer(c.segments, c.rcvNxt, n);
    StartsStayNear(c.segments, c.rcvNxt, n);
    AddZeroPoint(rcv');
    DrainIsChain(c.segments, rcv', 0, m);
    var d := Drain(c.segments, rcv');
    ToMapMembers(c.segments);
    forall t | t in m
      ensures PrecedesOrEq(t, Add(c.rcvNxt, n + |d.bytes|)) <==> Dist(c.rcvNxt, t) <= n + |d.bytes|
    {
      assert Buffered(t, m[t]) in c.segments;
      FinPassed(c.rcvNxt, t, n + |d.bytes|);
    }
  }

  // The states, one by one

  lemma NothingSent(app: ServerApp, sendBuffer: seq<byte>)
    ensures sendBuffer + app.Respond([]) == sendBuffer
  {
  }

  /** Segments that are not acted on, in any state. */
  lemma FallbackIs(app: ServerApp, seg: TcpSegment, c: Conn, now: Time)
    requires BufferInv(c) && !(c.state.SynReceived? && seg.flags == Syn)
    requires !Opens(seg, c) && !Heeded(seg, c) && !Takes(seg, c) && !Ends(seg, c)
    requires !(c.state.Established? && seg.flags == Ack && Beyond(seg, c) && InWin(seg, c))
    ensures StepIs(app, seg, c, now, Fallback(seg, c))
  {
    hide Dist, Precedes, CheckSeq, ChainFrom, SendFrom, Add, InWin, Beyond;
    WhereIs(seg, c);
    NothingSent(app, c.sendBuffer);
    AddZeroPoint(c.rcvNxt);
  }

  /** Where nothing is sent from the queue the pass ends early. */
  lemma UnsentIs(app: ServerApp, seg: TcpSegment, c: Conn, now: Time, r: Handled)
    requires BufferInv(c) && !Sends(seg, c) && !(c.state.SynReceived? && seg.flags == Syn)
    requires r.accepted == AcceptedBytes(seg, c) && r.delivered == DeliveredBytes(seg, c)
    requires r.reply == Ok(Reply(ReplyTo(seg, c, Received(app, seg, c), None),
                                 (IsReset(seg) && Next(seg, c)) || Ends(seg, c)))
    requires r.conn == Received(app, seg, c).(state := StateAfter(seg, c, TakesFin(seg, c), false),
                                              segments := r.conn.segments)
    requires BuffersRight(seg, c, r.conn.segments)
    ensures StepIs(app, seg, c, now, r)
  {
    hide ReplyTo, Received, StateAfter, BuffersRight, AcceptedBytes, DeliveredBytes, TakesFin, SendFrom, BufferInv;
  }

  lemma ClosingStatesAre(app: ServerApp, seg: TcpSegment, c: Conn, now: Time, iss: SeqPoint, sent: seq<byte>)
    requires c.state.Closing? || c.state.LastAck?
    requires SendInv(c, iss, sent) && BufferInv(c)
    ensures StepIs(app, seg, c, now, HandleAwaitingFinAck(seg, c))
  {
    hide Dist, CheckSeq, InWin, Beyond, Fallback, SendInv, StepIs, Slip, BufferInv, AckedConn, AckedWindow;
    WhereIs(seg, c);
    if Heeded(seg, c) || Ends(seg, c) {
      AwaitingIs(app, seg, c, now, iss, sent);
    } else {
      FallbackIs(app, seg, c, now);
    }
  }

  lemma AwaitingIs(app: ServerApp, seg: TcpSegment, c: Conn, now: Time, iss: SeqPoint, sent: seq<byte>)
    requires (c.state.Closing? || c.state.LastAck?) && (Heeded(seg, c) || Ends(seg, c))
    requires SendInv(c, iss, sent) && BufferInv(c)
    ensures StepIs(app, seg, c, now, HandleAwaitingFinAck(seg, c))
  {
    hide Dist, Precedes, CheckSeq, ChainFrom, SendFrom, Add, InWin, Beyond, Tiles, AckedConn, AckedWindow, Fallback,
         Antipode, Covers, AtLeastAsNew, StepIs;
    WhereIs(seg, c);
    NothingSent(app, c.sendBuffer);
    AddZeroPoint(c.rcvNxt);
    if Heeded(seg, c) {
      AckIs(seg, c, c.state.window);
    }
    UnsentIs(app, seg, c, now, HandleAwaitingFinAck(seg, c));
  }

  lemma FinWaitsAre(app: ServerApp, seg: TcpSegment, c: Conn, now: Time, iss: SeqPoint, sent: seq<byte>)
    requires c.state.FinWait1? || c.state.FinWait2?
    requires SendInv(c, iss, sent) && BufferInv(c)
    ensures StepIs(app, seg, c, now, HandleKnown(app, seg, c, now))
  {
    hide Dist, Precedes, CheckSeq, ChainFrom, SendFrom, Add, InWin, Beyond, Tiles, AckedConn, AckedWindow, Fallback,
         Antipode, Covers, AtLeastAsNew, StepIs;
    WhereIs(seg, c);
    if Takes(seg, c) {
      if c.state.FinWait1? {
        FinWait1Takes(app, seg, c, now, iss, sent);
      } else if seg.flags == Ack {
        FinWait2Data(app, seg, c, now, iss, sent);
      } else {
        FinWait2Fin(app, seg, c, now, iss, sent);
      }
    } else if Heeded(seg, c) {
      FinWaitHeeds(app, seg, c, now, iss, sent);
    } else {
      FallbackIs(app, seg, c, now);
    }
  }

  lemma FinWait1Takes(app: ServerApp, seg: TcpSegment, c: Conn, now: Time, iss: SeqPoint, sent: seq<byte>)
    requires c.state.FinWait1? && Takes(seg, c)
    requires SendInv(c, iss, sent) && BufferInv(c)
    ensures StepIs(app, seg, c, now, HandleKnown(app, seg, c, now))
  {
    hide SendInv, BufferInv, Slip, StepIs, Takes, HandleFinWait1;
    if seg.flags == Ack {
      FinWait1Data(app, seg, c, now, iss, sent);
    } else {
      TakesAcks(seg, c);
      FinWait1Fin(app, seg, c, now, iss, sent);
    }
  }

  lemma TakesAcks(seg: TcpSegment, c: Conn)
    requires Takes(seg, c)
    ensures IsAck(seg)
  {
  }

  lemma FinWait1Data(app: ServerApp, seg: TcpSegment, c: Conn, now: Time, iss: SeqPoint, sent: seq<byte>)
    requires c.state.FinWait1? && Takes(seg, c) && seg.flags == Ack
    requires SendInv(c, iss, sent) && BufferInv(c)
    ensures StepIs(app, seg, c, now, HandleKnown(app, seg, c, now))
  {
    hide Dist, Precedes, CheckSeq, ChainFrom, SendFrom, Add, InWin, Beyond, Tiles, AckedConn, AckedWindow, Fallback,
         Antipode, Covers, AtLeastAsNew, StepIs;
    WhereIs(seg, c);
    NothingSent(app, c.sendBuffer);
    AddAdd(c.rcvNxt, Len(seg.payload), 1);
    AddZeroPoint(c.rcvNxt);
    AckedDiscard(c, Bytes(seg.payload), seg.ackNum);
    AckIs(seg, c, c.state.window);
    UnsentIs(app, seg, c, now, HandleKnown(app, seg, c, now));
  }

  lemma FinWait2Data(app: ServerApp, seg: TcpSegment, c: Conn, now: Time, iss: SeqPoint, sent: seq<byte>)
    requires c.state.FinWait2? && Takes(seg, c) && seg.flags == Ack
    requires SendInv(c, iss, sent) && BufferInv(c)
    ensures StepIs(app, seg, c, now, HandleKnown(app, seg, c, now))
  {
    hide Dist, Precedes, CheckSeq, ChainFrom, SendFrom, Add, InWin, Beyond, Tiles, AckedConn, AckedWindow, Fallback,
         Antipode, Covers, AtLeastAsNew, StepIs;
    WhereIs(seg, c);
    NothingSent(app, c.sendBuffer);
    AddAdd(c.rcvNxt, Len(seg.payload), 1);
    AddZeroPoint(c.rcvNxt);
    AckedDiscard(c, Bytes(seg.payload), seg.ackNum);
    AckIs(seg, c, c.state.window);
    UnsentIs(app, seg, c, now, HandleKnown(app, seg, c, now));
  }

  lemma FinWait1Fin(app: ServerApp, seg: TcpSegment, c: Conn, now: Time, iss: SeqPoint, sent: seq<byte>)
    requires c.state.FinWait1? && Takes(seg, c) && seg.flags == FinAck
    requires SendInv(c, iss, sent) && BufferInv(c)
    ensures StepIs(app, seg, c, now, HandleKnown(app, seg, c, now))
  {
    hide Dist, Precedes, CheckSeq, ChainFrom, SendFrom, Add, InWin, Beyond, Tiles, AckedConn, AckedWindow, Fallback,
         Antipode, Covers, AtLeastAsNew, StepIs;
    WhereIs(seg, c);
    NothingSent(app, c.sendBuffer);
    AddAdd(c.rcvNxt, Len(seg.payload), 1);
    AddZeroPoint(c.rcvNxt);
    AckedDiscard(c, Bytes(seg.payload), seg.ackNum);
    if Heeded(seg, c) {
      AckIs(seg, c, c.state.window);
    }
    UnsentIs(app, seg, c, now, HandleKnown(app, seg, c, now));
  }

  lemma FinWait2Fin(app: ServerApp, seg: TcpSegment, c: Conn, now: Time, iss: SeqPoint, sent: seq<byte>)
    requires c.state.FinWait2? && Takes(seg, c) && seg.flags == FinAck
    requires SendInv(c, iss, sent) && BufferInv(c)
    ensures StepIs(app, seg, c, now, HandleKnown(app, seg, c, now))
  {
    hide Dist, Precedes, CheckSeq, ChainFrom, SendFrom, Add, InWin, Beyond, Tiles, AckedConn, AckedWindow, Fallback,
         Antipode, Covers, AtLeastAsNew, StepIs;
    WhereIs(seg, c);
    NothingSent(app, c.sendBuffer);
    AddAdd(c.rcvNxt, Len(seg.payload), 1);
    AddZeroPoint(c.rcvNxt);
    AckedDiscard(c, Bytes(seg.payload), seg.ackNum);
    UnsentIs(app, seg, c, now, HandleKnown(app, seg, c, now));
  }

  lemma FinWaitHeeds(app: ServerApp, seg: TcpSegment, c: Conn, now: Time, iss: SeqPoint, sent: seq<byte>)
    requires (c.state.FinWait1? || c.state.FinWait2?) && !Takes(seg, c) && Heeded(seg, c)
    requires SendInv(c, iss, sent) && BufferInv(c)
    ensures StepIs(app, seg, c, now, HandleKnown(app, seg, c, now))
  {
    hide Dist, Precedes, CheckSeq, ChainFrom, SendFrom, Add, InWin, Beyond, Tiles, AckedConn, AckedWindow, Fallback,
         Antipode, Covers, AtLeastAsNew, StepIs;
    WhereIs(seg, c);
    NothingSent(app, c.sendBuffer);
    AddZeroPoint(c.rcvNxt);
    AckIs(seg, c, c.state.window);
    UnsentIs(app, seg, c, now, HandleKnown(app, seg, c, now));
  }

  lemma CloseWaitIs(app: ServerApp, seg: TcpSegment, c: Conn, now: Time, iss: SeqPoint, sent: seq<byte>)
    requires c.state.CloseWait? && SendInv(c, iss, sent) && BufferInv(c)
    ensures StepIs(app, seg, c, now, HandleCloseWait(seg, c, now))
  {
    hide Dist, Precedes, CheckSeq, InWin, Beyond, SendInv, BufferInv, StepIs, Fallback, CloseWaitOrLastAck;
    WhereIs(seg, c);
    if Heeded(seg, c) {
      if HalfAhead(seg, c) {
        CloseWaitFails(app, seg, c, now, iss, sent);
      } else {
        CloseWaitHeeds(app, seg, c, now, iss, sent);
      }
    } else {
      FallbackIs(app, seg, c, now);
    }
  }

  lemma CloseWaitHeeds(app: ServerApp, seg: TcpSegment, c: Conn, now: Time, iss: SeqPoint, sent: seq<byte>)
    requires c.state.CloseWait? && SendInv(c, iss, sent) && BufferInv(c) && Heeded(seg, c) && !HalfAhead(seg, c)
    ensures StepIs(app, seg, c, now, HandleCloseWait(seg, c, now))
  {
    hide Dist, Precedes, CheckSeq, ChainFrom, SendFrom, Add, InWin, Beyond, InFlight, AckedConn, AckedWindow, Fallback,
         Antipode, AtLeastAsNew, CloseWaitOrLastAck, HalfAhead;
    WhereIs(seg, c);
    NothingSent(app, c.sendBuffer);
    AddZeroPoint(c.rcvNxt);
    NearEnough(c, iss, sent);
    AckIs(seg, c, c.state.window);
    HalfIs(seg, c);
    AckKeeps(c, seg.ackNum, iss, sent);
    var c1 := AckedConn(c, seg.ackNum);
    NearEnoughInFlight(c1, iss, sent);
    var w := AckedWindow(c, c.state.window, seg);
    ClosingIs(c1, w, now);
    SendFromStays(c1, w.sndWnd, true, now);
  }

  lemma CloseWaitFails(app: ServerApp, seg: TcpSegment, c: Conn, now: Time, iss: SeqPoint, sent: seq<byte>)
    requires c.state.CloseWait? && SendInv(c, iss, sent) && BufferInv(c) && Heeded(seg, c) && HalfAhead(seg, c)
    ensures StepIs(app, seg, c, now, HandleCloseWait(seg, c, now))
  {
    hide Dist, Precedes, CheckSeq, ChainFrom, SendFrom, Add, InWin, Beyond, InFlight, AckedConn, AckedWindow, Fallback,
         Antipode, AtLeastAsNew, CloseWaitOrLastAck, HalfAhead;
    WhereIs(seg, c);
    NothingSent(app, c.sendBuffer);
    AddZeroPoint(c.rcvNxt);
    NearEnough(c, iss, sent);
    AckIs(seg, c, c.state.window);
    HalfIs(seg, c);
    SlipStalls(c, seg.ackNum, AckedWindow(c, c.state.window, seg), now, iss, sent);
  }

  lemma NearEnough(c: Conn, iss: SeqPoint, sent: seq<byte>)
    requires SendInv(c, iss, sent) && !c.state.SynReceived?
    ensures Dist(c.sndUna, c.sndNxt) < HALF
  {
  }

  lemma NearEnoughInFlight(c: Conn, iss: SeqPoint, sent: seq<byte>)
    requires InFlight(c.sndUna, c.sndNxt, c.pending, iss, sent, false)
    ensures Dist(c.sndUna, c.sndNxt) < HALF
  {
  }

  /** What sending leaves alone, and which flags it uses. */
  lemma SendFromStays(c: Conn, wnd: nat, closing: bool, now: Time)
    ensures var (c', sent) := SendFrom(c, wnd, closing, now);
            && c' == c.(sndNxt := c'.sndNxt, pending := c'.pending, sendBuffer := c'.sendBuffer)
            && (sent.Some? ==> sent.value.flags in {Ack, FinAck} && sent.value.ackNum == c.rcvNxt)
            && (sent == None ==> c' == c)
  {
  }

  /** The acknowledgment of a segment heeded in ESTABLISHED. */
  lemma EstablishedAck(seg: TcpSegment, c: Conn, iss: SeqPoint, sent: seq<byte>)
    requires c.state.Established? && SendInv(c, iss, sent) && Heeded(seg, c)
    ensures AckedWindow(c, c.state.window, seg) == WindowAfter(seg, c)
    ensures AckedConn(c, seg.ackNum) == c.(sndUna := UnaAfter(seg, c), pending := PendingAfter(seg, c))
    ensures !HalfAhead(seg, c) ==> Dist(UnaAfter(seg, c), c.sndNxt) < HALF
    ensures seg.flags == Ack ==> !HalfAhead(seg, c)
  {
    hide Dist, Precedes, CheckSeq, Add, InWin, InFlight, AckedConn, AckedWindow, Antipode, AtLeastAsNew, EndingAfter;
    WhereIs(seg, c);
    NearEnough(c, iss, sent);
    AckIs(seg, c, c.state.window);
    HalfIs(seg, c);
    if !HalfAhead(seg, c) {
      AckKeeps(c, seg.ackNum, iss, sent);
      NearEnoughInFlight(AckedConn(c, seg.ackNum), iss, sent);
    }
  }

  lemma HalfIs(seg: TcpSegment, c: Conn)
    ensures HalfAhead(seg, c) <==> Antipode(c.sndUna, seg.ackNum, c.sndNxt)
  {
    hide Dist, Add;
    DistAdd(c.sndUna, HALF);
    AddDist(c.sndUna, seg.ackNum);
  }

  lemma EstablishedBareAck(app: ServerApp, seg: TcpSegment, c: Conn, now: Time, iss: SeqPoint, sent: seq<byte>)
    requires c.state.Established? && SendInv(c, iss, sent) && BufferInv(c)
    requires Heeded(seg, c) && seg.flags == Ack && seg.payload == None
    ensures StepIs(app, seg, c, now, HandleEstablished(app, seg, c, now))
  {
    hide Dist, Precedes, PrecedesOrEq, CheckSeq, ChainFrom, SendFrom, Add, InWin, Beyond, InFlight, AckedConn,
         AckedWindow, Fallback, Antipode, Covers, AtLeastAsNew, CloseWaitOrLastAck, DrainTransmittable, DataOrAck,
         Transmitted, Drain, EndingAfter, Allowed, Distinct, ToMap;
    WhereIs(seg, c);
    NothingSent(app, c.sendBuffer);
    AddZeroPoint(c.rcvNxt);
    EstablishedAck(seg, c, iss, sent);
    var w1 := WindowAfter(seg, c);
    var c1 := AckedConn(c, seg.ackNum).(state := Established(w1));
    SendingIs(c1, w1, now);
    SendFromStays(c1, w1.sndWnd, false, now);
    SendFromFrame(Received(app, seg, c), Established(w1), c.segments, w1.sndWnd, false, now);
    assert Received(app, seg, c).(state := Established(w1), segments := c.segments) == c1;
  }

  /** The connection once in-order data and what had been waiting behind it have been delivered. */
  lemma DeliveredIs(app: ServerApp, seg: TcpSegment, c: Conn, c1: Conn)
    requires c.state.Established? && BufferInv(c) && Takes(seg, c) && seg.flags == Ack && seg.payload != None
    requires c1 == c.(state := c1.state, sndUna := c1.sndUna, pending := c1.pending)
    ensures var c2 := Deliver(app, c1, seg.payload.value);
            var c3 := DeliverBuffered(app, c2);
            && seg.payload.value + Drain(c2.segments, c2.rcvNxt).bytes == AcceptedBytes(seg, c)
            && c3 == c1.(rcvNxt := Add(c.rcvNxt, |AcceptedBytes(seg, c)|), segments := c3.segments,
                         sendBuffer := c.sendBuffer + app.Respond(AcceptedBytes(seg, c)))
            && BuffersRight(seg, c, c3.segments)
            && (FinReached(c3) <==> TakesFin(seg, c))
            && ConsumeFin(c3).rcvNxt == Add(c.rcvNxt, |AcceptedBytes(seg, c)| + 1)
  {
    hide Dist, Precedes, PrecedesOrEq, CheckSeq, ChainFrom, Add, InWin, Beyond, Covers, Drain, Distinct, ToMap;
    DrainedIs(c, Len(seg.payload));
    DrainKeepsFin(c, Len(seg.payload));
    DeliveredTwice(app, c1, seg.payload.value);
    AddAdd(c.rcvNxt, |AcceptedBytes(seg, c)|, 1);
  }

  lemma EstablishedData(app: ServerApp, seg: TcpSegment, c: Conn, now: Time, iss: SeqPoint, sent: seq<byte>)
    requires c.state.Established? && SendInv(c, iss, sent) && BufferInv(c)
    requires Takes(seg, c) && seg.flags == Ack && seg.payload != None
    ensures StepIs(app, seg, c, now, HandleEstablished(app, seg, c, now))
  {
    hide Dist, Precedes, PrecedesOrEq, CheckSeq, ChainFrom, SendFrom, Add, InWin, Beyond, InFlight, AckedConn,
         AckedWindow, Fallback, Antipode, Covers, AtLeastAsNew, CloseWaitOrLastAck, DrainTransmittable, DataOrAck,
         Transmitted, Drain, EndingAfter, Allowed, Distinct, ToMap, FinReached, TakesFin, AcceptedBytes, BuffersRight;
    WhereIs(seg, c);
    EstablishedAck(seg, c, iss, sent);
    var w1 := WindowAfter(seg, c);
    var c1 := AckedConn(c, seg.ackNum).(state := Established(w1));
    DeliveredIs(app, seg, c, c1);
    var c3 := DeliverBuffered(app, Deliver(app, c1, seg.payload.value));
    var c0 := Received(app, seg, c);
    if TakesFin(seg, c) {
      assert ConsumeFin(c3) == c0.(state := Established(w1), segments := c3.segments);
      ClosingIs(ConsumeFin(c3), w1, now);
      SendFromFrame(c0, Established(w1), c3.segments, w1.sndWnd, true, now);
      SendFromStays(c0, w1.sndWnd, true, now);
    } else {
      assert c3 == c0.(state := Established(w1), segments := c3.segments);
      SendingIs(c3, w1, now);
      SendFromFrame(c0, Established(w1), c3.segments, w1.sndWnd, false, now);
      SendFromStays(c0, w1.sndWnd, false, now);
    }
  }

  /** An in-order FIN closes the connection, which is `c` or what the handshake has made of it. */
  lemma InOrderFinIs(app: ServerApp, seg: TcpSegment, c: Conn, now: Time, iss: SeqPoint, sent: seq<byte>)
    requires c.state.Established? && InFlight(c.sndUna, c.sndNxt, c.pending, iss, sent, false)
    requires seg.flags == FinAck && !Antipode(c.sndUna, seg.ackNum, c.sndNxt)
    ensures var w := c.state.window;
            var w1 := if Covers(seg, c) && AtLeastAsNew(seg, w)
                      then WindowState(seg.window, seg.seqNum, seg.ackNum) else w;
            var c1 := c.(sndUna := if Covers(seg, c) then seg.ackNum else c.sndUna,
                         pending := if Covers(seg, c) && seg.ackNum != c.sndUna
                                    then EndingAfter(c.pending, seg.ackNum) else c.pending,
                         rcvNxt := Add(c.rcvNxt, Len(seg.payload) + 1),
                         sendBuffer := c.sendBuffer + app.Respond(Bytes(seg.payload)));
            var (c2, reply) := SendFrom(c1, w1.sndWnd, true, now);
            CloseOnInOrderFin(app, seg, c, w, now) ==
            Handled(c2.(state := OpenState(w1, true, reply.Some? && reply.value.flags == FinAck)),
                    Bytes(seg.payload), Bytes(seg.payload),
                    Ok(Reply(Some(if reply.Some? then reply.value else BareAck(c2)), false)))
  {
    hide Dist, Add, InFlight, AckedConn, AckedWindow, Antipode, Covers, AtLeastAsNew, CloseWaitOrLastAck, SendFrom,
         EndingAfter;
    var c2 := ConsumeFin(Deliver(app, c, Bytes(seg.payload)));
    AddAdd(c.rcvNxt, Len(seg.payload), 1);
    NearEnoughInFlight(c2, iss, sent);
    AckIs(seg, c2, c.state.window);
    AckKeeps(c2, seg.ackNum, iss, sent);
    NearEnoughInFlight(AckedConn(c2, seg.ackNum), iss, sent);
    ClosingIs(AckedConn(c2, seg.ackNum), AckedWindow(c2, c.state.window, seg), now);
    CoversFrame(app, seg, c);
  }

  lemma CoversFrame(app: ServerApp, seg: TcpSegment, c: Conn)
    ensures var c2 := ConsumeFin(Deliver(app, c, Bytes(seg.payload)));
            (Covers(seg, c2) <==> Covers(seg, c)) && (HalfAhead(seg, c2) <==> HalfAhead(seg, c))
  {
  }

  lemma EstablishedFinFails(app: ServerApp, seg: TcpSegment, c: Conn, now: Time, iss: SeqPoint, sent: seq<byte>)
    requires c.state.Established? && SendInv(c, iss, sent) && BufferInv(c)
    requires Takes(seg, c) && seg.flags == FinAck && HalfAhead(seg, c)
    ensures StepIs(app, seg, c, now, HandleEstablished(app, seg, c, now))
  {
    hide Dist, Precedes, CheckSeq, ChainFrom, SendFrom, Add, InWin, Beyond, InFlight, Antipode, AckedConn, AckedWindow,
         AtLeastAsNew, CloseWaitOrLastAck, EndingAfter, Distinct, ToMap, HalfAhead;
    WhereIs(seg, c);
    NearEnough(c, iss, sent);
    AddAdd(c.rcvNxt, Len(seg.payload), 1);
    var c2 := ConsumeFin(Deliver(app, c, Bytes(seg.payload)));
    HalfIs(seg, c);
    AckIs(seg, c2, c.state.window);
    SlipStalls(c2, seg.ackNum, AckedWindow(c2, c.state.window, seg), now, iss, sent);
    CoversFrame(app, seg, c);
  }

  lemma EstablishedFin(app: ServerApp, seg: TcpSegment, c: Conn, now: Time, iss: SeqPoint, sent: seq<byte>)
    requires c.state.Established? && SendInv(c, iss, sent) && BufferInv(c)
    requires Takes(seg, c) && seg.flags == FinAck && !HalfAhead(seg, c)
    ensures StepIs(app, seg, c, now, HandleEstablished(app, seg, c, now))
  {
    hide Dist, Precedes, CheckSeq, ChainFrom, SendFrom, Add, InWin, Beyond, InFlight, Antipode, Covers, AtLeastAsNew,
         CloseOnInOrderFin, EndingAfter, Distinct, ToMap, HalfAhead;
    WhereIs(seg, c);
    HalfIs(seg, c);
    InOrderFinIs(app, seg, c, now, iss, sent);
    SendFromStays(Received(app, seg, c), WindowAfter(seg, c).sndWnd, true, now);
  }

  lemma EstablishedKeeps(app: ServerApp, seg: TcpSegment, c: Conn, now: Time, iss: SeqPoint, sent: seq<byte>)
    requires c.state.Established? && SendInv(c, iss, sent) && BufferInv(c) && Keeps(seg, c)
    ensures StepIs(app, seg, c, now, HandleEstablished(app, seg, c, now))
  {
    hide Dist, Precedes, PrecedesOrEq, CheckSeq, ChainFrom, SendFrom, Add, InWin, Beyond, InFlight, AckedConn,
         AckedWindow, Fallback, Antipode, Covers, AtLeastAsNew, CloseWaitOrLastAck, DrainTransmittable, DataOrAck,
         Transmitted, Drain, EndingAfter, Allowed, Distinct, ToMap, InsertedInto;
    WhereIs(seg, c);
    NothingSent(app, c.sendBuffer);
    AddZeroPoint(c.rcvNxt);
    EstablishedAck(seg, c, iss, sent);
    if seg.payload != None {
      KeptIs(seg, c);
    }
  }

  lemma KeptIs(seg: TcpSegment, c: Conn)
    requires Distinct(c.segments) && seg.payload != None
    ensures var m := ToMap(c.segments);
            var longest := if seg.seqNum in m && |m[seg.seqNum]| >= |seg.payload.value| then m[seg.seqNum]
                           else seg.payload.value;
            var after := InsertedInto(c.segments, seg.seqNum, seg.payload.value);
            Distinct(after) && ToMap(after) == m[seg.seqNum := longest]
  {
    hide Distinct, ToMap, InsertedInto;
    InsertedIntoMap(c.segments, seg.seqNum, seg.payload.value);
  }

  /** Sending looks neither at the state nor at what is buffered. */
  lemma SendFromFrame(c: Conn, state: TcpState, segments: seq<Buffered>, wnd: nat, closing: bool, now: Time)
    ensures var (c', sent) := SendFrom(c, wnd, closing, now);
            && SendFrom(c.(state := state, segments := segments), wnd, closing, now) ==
               (c'.(state := state, segments := segments), sent)
            && (sent.Some? && sent.value.flags == FinAck ==> closing)
  {
  }

  lemma EstablishedIs(app: ServerApp, seg: TcpSegment, c: Conn, now: Time, iss: SeqPoint, sent: seq<byte>)
    requires c.state.Established? && SendInv(c, iss, sent) && BufferInv(c)
    ensures StepIs(app, seg, c, now, HandleEstablished(app, seg, c, now))
  {
    hide StepIs, SendInv, BufferInv, Fallback, AckedConn, AckedWindow, Slip, InWin, Beyond, Dist, CheckSeq,
         CloseOnInOrderFin, DeliverBuffered, BufferSegment;
    WhereIs(seg, c);
    if !Heeded(seg, c) {
      if seg.flags == Ack && InWin(seg, c) {
        BeyondIsChallenged(app, seg, c, now);
      } else {
        FallbackIs(app, seg, c, now);
      }
    } else if Takes(seg, c) && seg.flags == FinAck {
      if HalfAhead(seg, c) {
        EstablishedFinFails(app, seg, c, now, iss, sent);
      } else {
        EstablishedFin(app, seg, c, now, iss, sent);
      }
    } else if seg.flags == Ack && seg.payload == None {
      EstablishedBareAck(app, seg, c, now, iss, sent);
    } else if Takes(seg, c) {
      EstablishedData(app, seg, c, now, iss, sent);
    } else {
      EstablishedKeeps(app, seg, c, now, iss, sent);
    }
  }

  lemma BeyondIsChallenged(app: ServerApp, seg: TcpSegment, c: Conn, now: Time)
    requires c.state.Established? && BufferInv(c) && seg.flags == Ack && InWin(seg, c) && Beyond(seg, c)
    ensures StepIs(app, seg, c, now, Replied(c, Some(PureAck(c)), false))
  {
    hide Dist, ChainFrom, Add, InWin, Beyond, SendFrom, Distinct, ToMap;
    NothingSent(app, c.sendBuffer);
    AddZeroPoint(c.rcvNxt);
  }

  lemma SynRcvIs(app: ServerApp, seg: TcpSegment, c: Conn, now: Time, iss: SeqPoint, sent: seq<byte>)
    requires c.state.SynReceived? && SendInv(c, iss, sent) && BufferInv(c)
    ensures StepIs(app, seg, c, now, HandleSynRcv(app, seg, c, now))
  {
    hide StepIs, BufferInv, Fallback, InWin, Dist, CheckSeq, CloseOnInOrderFin, DeliverBuffered, Deliver, BufferSegment,
         Precedes, PrecedesOrEq, Add, CompleteHandshake;
    WhereIs(seg, c);
    HandshakeAck(c, seg.ackNum);
    if seg.flags == Syn {
      SynAgainIs(app, seg, c, now, iss, sent);
    } else if !Opens(seg, c) {
      FallbackIs(app, seg, c, now);
    } else if !Next(seg, c) {
      HandshakeKeepsIs(app, seg, c, now, iss, sent);
    } else if seg.flags == FinAck {
      HandshakeFinIs(app, seg, c, now, iss, sent);
    } else {
      HandshakeDataIs(app, seg, c, now, iss, sent);
    }
  }

  lemma SynAgainIs(app: ServerApp, seg: TcpSegment, c: Conn, now: Time, iss: SeqPoint, sent: seq<byte>)
    requires c.state.SynReceived? && SendInv(c, iss, sent) && BufferInv(c) && seg.flags == Syn
    ensures StepIs(app, seg, c, now, HandleSynRcv(app, seg, c, now))
  {
    hide Dist, ChainFrom, Add, InWin, SendFrom, Precedes, PrecedesOrEq, CheckSeq;
    NothingSent(app, c.sendBuffer);
    AddZeroPoint(c.rcvNxt);
  }

  lemma HandshakeKeepsIs(app: ServerApp, seg: TcpSegment, c: Conn, now: Time, iss: SeqPoint, sent: seq<byte>)
    requires c.state.SynReceived? && SendInv(c, iss, sent) && BufferInv(c) && Opens(seg, c) && !Next(seg, c)
    ensures StepIs(app, seg, c, now, HandleSynRcv(app, seg, c, now))
  {
    hide Dist, ChainFrom, Add, InWin, SendFrom, Precedes, PrecedesOrEq, CheckSeq, InsertedInto, Distinct, ToMap,
         StepIs, DrainTransmittable, CloseWaitOrLastAck, DataOrAck, CloseOnInOrderFin;
    WhereIs(seg, c);
    HandshakeAck(c, seg.ackNum);
    NothingSent(app, c.sendBuffer);
    AddZeroPoint(c.rcvNxt);
    EmptyVector();
    if seg.payload != None {
      KeptIs(seg, c);
    }
    UnsentIs(app, seg, c, now, HandleSynRcv(app, seg, c, now));
  }

  lemma HandshakeFinIs(app: ServerApp, seg: TcpSegment, c: Conn, now: Time, iss: SeqPoint, sent: seq<byte>)
    requires c.state.SynReceived? && SendInv(c, iss, sent) && BufferInv(c) && Takes(seg, c) && seg.flags == FinAck
    ensures StepIs(app, seg, c, now, HandleSynRcv(app, seg, c, now))
  {
    hide Dist, Precedes, PrecedesOrEq, CheckSeq, ChainFrom, SendFrom, Add, InWin, InFlight, Antipode, Covers,
         AtLeastAsNew, CloseOnInOrderFin, EndingAfter, Distinct, ToMap;
    WhereIs(seg, c);
    HandshakeAck(c, seg.ackNum);
    HandshakeKeeps(seg, c, iss, sent);
    var c1 := CompleteHandshake(seg, c);
    NotAntipode(c1.sndUna, c1.sndNxt);
    InOrderFinIs(app, seg, c1, now, iss, sent);
    SendFromFrame(Received(app, seg, c), c1.state, c.segments, WindowAfter(seg, c).sndWnd, true, now);
    SendFromStays(Received(app, seg, c), WindowAfter(seg, c).sndWnd, true, now);
  }

  lemma HandshakeDataIs(app: ServerApp, seg: TcpSegment, c: Conn, now: Time, iss: SeqPoint, sent: seq<byte>)
    requires c.state.SynReceived? && SendInv(c, iss, sent) && BufferInv(c) && Takes(seg, c) && seg.flags == Ack
    ensures StepIs(app, seg, c, now, HandleSynRcv(app, seg, c, now))
  {
    hide Dist, Precedes, PrecedesOrEq, CheckSeq, ChainFrom, SendFrom, Add, InWin, InFlight, CloseWaitOrLastAck,
         DrainTransmittable, DataOrAck, Transmitted;
    WhereIs(seg, c);
    HandshakeAck(c, seg.ackNum);
    HandshakeKeeps(seg, c, iss, sent);
    var c1 := CompleteHandshake(seg, c);
    var w := c1.state.window;
    var c0 := Received(app, seg, c);
    NearEnoughInFlight(c1, iss, sent);
    AddZeroPoint(c.rcvNxt);
    NothingSent(app, c.sendBuffer + app.Respond(Bytes(seg.payload)));
    assert Bytes(seg.payload) + [] == Bytes(seg.payload);
    var c3 := DeliverBuffered(app, Deliver(app, c1, Bytes(seg.payload)));
    assert c3 == c0.(state := Established(w), segments := []);
    SendingIs(c3, w, now);
    SendFromFrame(c0, Established(w), [], w.sndWnd, false, now);
    SendFromStays(c0, w.sndWnd, false, now);
    NothingQueued(c0, w.sndWnd, now);
  }

  lemma NothingQueued(c: Conn, wnd: nat, now: Time)
    ensures c.sendBuffer == [] ==> SendFrom(c, wnd, false, now) == (c, None)
  {
  }

  /**
   The handlers of all seven states do exactly what one pass over the fields does, for every segment
   on every connection whose invariants hold; where an acknowledgment slips, too.
   */
  lemma StepIsExactly(app: ServerApp, seg: TcpSegment, c: Conn, now: Time, iss: SeqPoint, sent: seq<byte>)
    requires SendInv(c, iss, sent) && BufferInv(c)
    ensures StepIs(app, seg, c, now, HandleKnown(app, seg, c, now))
  {
    hide StepIs, SendInv, BufferInv, HandleSynRcv, HandleEstablished, HandleCloseWait, HandleAwaitingFinAck;
    match c.state
    case SynReceived => SynRcvIs(app, seg, c, now, iss, sent);
    case Established(_) => EstablishedIs(app, seg, c, now, iss, sent);
    case FinWait1(_) | FinWait2(_) => FinWaitsAre(app, seg, c, now, iss, sent);
    case CloseWait(_) => CloseWaitIs(app, seg, c, now, iss, sent);
    case Closing(_) | LastAck(_) => ClosingStatesAre(app, seg, c, now, iss, sent);
  }

  /** Our own close, in the same terms: a bare FIN at SND.NXT, pending from now on; what is queued stays queued. */
  lemma ActiveCloseIs(c: Conn, now: Time)
    requires c.state.Established?
    ensures var fin := SendInfo(c.sndNxt, c.rcvNxt, FinAck, None);
            CloseActively(c, now) ==
            Sent(c.(state := FinWait1(c.state.window), sndNxt := Add(c.sndNxt, 1),
                    pending := c.pending + [PendingSegment(fin, Add(c.sndNxt, 1), now, 0)]), fin)
  {
    hide Add;
  }

  /** Nothing about the segment is acted on. */
  predicate Rejects(seg: TcpSegment, c: Conn) {
    && !Opens(seg, c) && !Heeded(seg, c) && !Takes(seg, c) && !Ends(seg, c)
    && !(c.state.SynReceived? && seg.flags == Syn)
  }

  /**
   Segments that are not acted on change nothing, and which reply each gets: the challenge acknowledgment,
   a reset, or none.
   */
  lemma RejectedExactly(app: ServerApp, seg: TcpSegment, c: Conn, now: Time, iss: SeqPoint, sent: seq<byte>)
    requires SendInv(c, iss, sent) && BufferInv(c) && Rejects(seg, c)
    ensures var r := HandleKnown(app, seg, c, now);
            && r.conn == c && r.accepted == [] && r.delivered == [] && r.reply.Ok?
            && var info := r.reply.value.info;
               && (info == Some(SendInfo(c.sndNxt, c.rcvNxt, Ack, None)) <==> Challenged(seg, c))
               && (info == Some(SendInfo(seg.ackNum, 0, Rst, None)) <==> Refuses(seg, c))
               && (info == None <==> IsReset(seg) && (Next(seg, c) || !InWin(seg, c)))
               && (r.reply.value.remove <==> IsReset(seg) && Next(seg, c))
  {
    hide StepIs, SendInv, BufferInv, Slip, HandleKnown, InWin, Beyond;
    StepIsExactly(app, seg, c, now, iss, sent);
    RejectedStep(app, seg, c, now, HandleKnown(app, seg, c, now));
  }

  lemma RejectedStep(app: ServerApp, seg: TcpSegment, c: Conn, now: Time, r: Handled)
    requires BufferInv(c) && Rejects(seg, c) && StepIs(app, seg, c, now, r)
    ensures r.conn == c && r.accepted == [] && r.delivered == [] && r.reply.Ok?
    ensures var info := r.reply.value.info;
            && (info == Some(SendInfo(c.sndNxt, c.rcvNxt, Ack, None)) <==> Challenged(seg, c))
            && (info == Some(SendInfo(seg.ackNum, 0, Rst, None)) <==> Refuses(seg, c))
            && (info == None <==> IsReset(seg) && (Next(seg, c) || !InWin(seg, c)))
            && (r.reply.value.remove <==> IsReset(seg) && Next(seg, c))
  {
    hide Dist, Add, SendFrom, ChainFrom, BufferInv, InWin, Beyond;
    AddZeroPoint(c.rcvNxt);
    NothingSent(app, c.sendBuffer);
    WhereIs(seg, c);
  }
}
