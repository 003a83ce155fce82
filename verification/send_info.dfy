/**
 What one arriving segment does to a connection, state by state: the reply, the new state, the
 bytes accepted in order and the bytes handed to the application.
 */
module SendInfos {
  import opened Base
  import opened SeqSpace
  import opened Segment
  import opened Pending
  import opened Reassembly
  import opened State

  function PureAck(c: Conn): SendInfo {
    SendInfo(c.sndNxt, c.rcvNxt, Ack, None)
  }

  /** A reset whose SEG.SEQ echoes the segment's SEG.ACK; without an ACK flag its own SEG.ACK is 0. */
  function ResetFor(seg: TcpSegment): SendInfo {
    SendInfo(seg.ackNum, 0, Rst, None)
  }

  datatype SeqCheck = InOrder | OutOfOrder | Unacceptable

  function CheckSeq(seg: TcpSegment, rcvNxt: SeqPoint): SeqCheck {
    if seg.seqNum == rcvNxt then InOrder
    else if InWindow(seg.seqNum, rcvNxt, RCV_WND) then OutOfOrder
    else Unacceptable
  }

  datatype Reply = Reply(info: Option<SendInfo>, remove: bool)

  datatype Handled = Handled(conn: Conn, accepted: seq<byte>, delivered: seq<byte>, reply: Result<Reply>)

  /** An outcome that neither accepts nor delivers any bytes. */
  function Replied(c: Conn, info: Option<SendInfo>, remove: bool): Handled {
    Handled(c, [], [], Ok(Reply(info, remove)))
  }

  /** RCV.NXT moves over in-order bytes and the application responds to them. */
  function Deliver(app: ServerApp, c: Conn, data: seq<byte>): Conn {
    c.(rcvNxt := Add(c.rcvNxt, |data|), sendBuffer := c.sendBuffer + app.Respond(data))
  }

  /** The same for whatever buffered segments have become contiguous. */
  function DeliverBuffered(app: ServerApp, c: Conn): Conn {
    var d := Drain(c.segments, c.rcvNxt);
    c.(rcvNxt := d.rcvNxt, segments := d.rest, sendBuffer := c.sendBuffer + app.Respond(d.bytes))
  }

  function ConsumeFin(c: Conn): Conn {
    c.(rcvNxt := Add(c.rcvNxt, 1))
  }

  predicate FinReached(c: Conn) {
    c.finSeq.Some? && PrecedesOrEq(c.finSeq.value, c.rcvNxt)
  }

  /** Buffers an out-of-order segment's payload and, for a FIN, the position of the FIN. */
  function BufferSegment(c: Conn, seg: TcpSegment): Conn {
    c.(segments := if seg.payload == None then c.segments else InsertedInto(c.segments, seg.seqNum, seg.payload.value),
       finSeq := if seg.flags == FinAck && c.finSeq == None then Some(Add(seg.seqNum, Len(seg.payload))) else c.finSeq)
  }

  datatype Sent = Sent(conn: Conn, info: SendInfo)

  /** Puts a segment into sequence space: SND.NXT moves past it and it becomes pending. */
  function Transmitted(c: Conn, flags: TcpFlags, payload: Option<Payload>, now: Time): Sent {
    var info := SendInfo(c.sndNxt, c.rcvNxt, flags, payload);
    Sent(c.(sndNxt := Add(c.sndNxt, Consumed(info)), pending := c.pending + [NewPending(info, now)]), info)
  }

  /** Sends a chunk of data if there is one, or else just acknowledges. */
  function DataOrAck(c: Conn, payload: Option<Payload>, now: Time): Sent {
    if payload == None then Sent(c, PureAck(c)) else Transmitted(c, Ack, payload, now)
  }

  /** Our own close: a bare FIN, with whatever is still in the send buffer left there. */
  function CloseActively(c: Conn, now: Time): Sent
    requires c.state.Established?
  {
    Transmitted(c.(state := FinWait1(c.state.window)), FinAck, None, now)
  }

  datatype Closed = Closed(conn: Conn, info: Result<SendInfo>)

  /**
   Sends what the window allows; if that empties the send buffer our FIN goes with it and the
   connection is in LAST-ACK, otherwise it is in CLOSE-WAIT.
   */
  function CloseWaitOrLastAck(c: Conn, w: WindowState, now: Time): Closed {
    match DrainTransmittable(c, w)
    case Err => Closed(c, Err)
    case Ok(t) =>
      var s := if t.conn.sendBuffer == []
               then Transmitted(t.conn.(state := LastAck(w)), FinAck, t.payload, now)
               else DataOrAck(t.conn.(state := CloseWait(w)), t.payload, now);
      Closed(s.conn, Ok(s.info))
  }

  /** A segment that no case of its state handles. */
  function Fallback(seg: TcpSegment, c: Conn): Handled {
    var check := CheckSeq(seg, c.rcvNxt);
    if seg.flags in {Rst, RstAck} then
      match check
      case Unacceptable => Replied(c, None, false)
      case InOrder => Replied(c, None, true)
      case OutOfOrder => Replied(c, Some(PureAck(c)), false)
    else if check == Unacceptable then Replied(c, Some(PureAck(c)), false)
    else if seg.flags in {Syn, SynAck} && !c.state.SynReceived? then Replied(c, Some(PureAck(c)), false)
    else Replied(c, Some(ResetFor(seg)), false)
  }

  function CompleteHandshake(seg: TcpSegment, c: Conn): Conn {
    c.(state := Established(Establish(seg)), sndUna := seg.ackNum, pending := [])
  }

  /** An in-order FIN: its payload is delivered, the FIN consumed, and the send side starts to close. */
  function CloseOnInOrderFin(app: ServerApp, seg: TcpSegment, c: Conn, w: WindowState, now: Time): Handled {
    var data := Bytes(seg.payload);
    var c1 := ConsumeFin(Deliver(app, c, data));
    var closed := CloseWaitOrLastAck(AckedConn(c1, seg.ackNum), AckedWindow(c1, w, seg), now);
    Handled(closed.conn, data, data, if closed.info.Ok? then Ok(Reply(Some(closed.info.value), false)) else Err)
  }

  function HandleSynRcv(app: ServerApp, seg: TcpSegment, c: Conn, now: Time): Handled {
    var check := CheckSeq(seg, c.rcvNxt);
    var acceptableAck := Precedes(c.sndUna, seg.ackNum) && PrecedesOrEq(seg.ackNum, c.sndNxt);
    if seg.flags == Syn then
      var info := SendInfo(c.sndUna, Add(seg.seqNum, 1), SynAck, None);
      Replied(c.(pending := c.pending + [NewPending(info, now)]), Some(info), false)
    else if seg.flags == Ack && check == InOrder && acceptableAck then
      var c1 := CompleteHandshake(seg, c);
      var data := Bytes(seg.payload);
      var c2 := Deliver(app, c1, data);
      var all := data + Drain(c2.segments, c2.rcvNxt).bytes;
      var c3 := DeliverBuffered(app, c2);
      if FinReached(c3) then
        var closed := CloseWaitOrLastAck(ConsumeFin(c3), c1.state.window, now);
        Handled(closed.conn, all, all, if closed.info.Ok? then Ok(Reply(Some(closed.info.value), false)) else Err)
      else if c3.sendBuffer != [] then
        match DrainTransmittable(c3, c1.state.window)
        case Err => Handled(c3, all, all, Err)
        case Ok(t) =>
          var s := DataOrAck(t.conn, t.payload, now);
          Handled(s.conn, all, all, Ok(Reply(Some(s.info), false)))
      else Handled(c3, all, all, Ok(Reply(None, false)))
    else if seg.flags == FinAck && check == InOrder && acceptableAck then
      var c1 := CompleteHandshake(seg, c);
      CloseOnInOrderFin(app, seg, c1, c1.state.window, now)
    else if seg.flags in {Ack, FinAck} && check == OutOfOrder && acceptableAck then
      var c1 := BufferSegment(CompleteHandshake(seg, c), seg);
      Replied(c1, Some(PureAck(c1)), false)
    else Fallback(seg, c)
  }

  function HandleEstablished(app: ServerApp, seg: TcpSegment, c: Conn, now: Time): Handled
    requires c.state.Established?
  {
    var check := CheckSeq(seg, c.rcvNxt);
    var w := c.state.window;
    if seg.flags == Ack && check != Unacceptable && Precedes(c.sndNxt, seg.ackNum) then
      Replied(c, Some(PureAck(c)), false)
    else if seg.flags == Ack && seg.payload == None && check != Unacceptable then
      var w1 := AckedWindow(c, w, seg);
      var c1 := AckedConn(c, seg.ackNum).(state := Established(w1));
      match DrainTransmittable(c1, w1)
      case Err => Handled(c1, [], [], Err)
      case Ok(t) =>
        if t.payload == None then Replied(t.conn, None, false)
        else
          var s := Transmitted(t.conn, Ack, t.payload, now);
          Replied(s.conn, Some(s.info), false)
    else if seg.flags == Ack && check == InOrder then
      var w1 := AckedWindow(c, w, seg);
      var c1 := AckedConn(c, seg.ackNum).(state := Established(w1));
      var c2 := Deliver(app, c1, Bytes(seg.payload));
      var all := Bytes(seg.payload) + Drain(c2.segments, c2.rcvNxt).bytes;
      var c3 := DeliverBuffered(app, c2);
      if FinReached(c3) then
        var closed := CloseWaitOrLastAck(ConsumeFin(c3), w1, now);
        Handled(closed.conn, all, all, if closed.info.Ok? then Ok(Reply(Some(closed.info.value), false)) else Err)
      else
        match DrainTransmittable(c3, w1)
        case Err => Handled(c3, all, all, Err)
        case Ok(t) =>
          var s := DataOrAck(t.conn, t.payload, now);
          Handled(s.conn, all, all, Ok(Reply(Some(s.info), false)))
    else if seg.flags == FinAck && check == InOrder then
      CloseOnInOrderFin(app, seg, c, w, now)
    else if seg.flags in {Ack, FinAck} && check == OutOfOrder then
      var c1 := BufferSegment(AckedConn(c, seg.ackNum).(state := Established(AckedWindow(c, w, seg))), seg);
      Replied(c1, Some(PureAck(c1)), false)
    else Fallback(seg, c)
  }

  /** In-order bytes that arrive after our FIN: acknowledged but not delivered. */
  function Discard(c: Conn, data: seq<byte>): Conn {
    c.(rcvNxt := Add(c.rcvNxt, |data|))
  }

  function HandleFinWait1(seg: TcpSegment, c: Conn): Handled
    requires c.state.FinWait1?
  {
    var check := CheckSeq(seg, c.rcvNxt);
    var data := Bytes(seg.payload);
    var w1 := AckedWindow(c, c.state.window, seg);
    var ourFinAcked := seg.ackNum == c.sndNxt;
    if seg.flags == Ack && seg.payload != None && check == InOrder then
      var c1 := Discard(c, data);
      Handled(AckedConn(c1, seg.ackNum).(state := FinWait1(w1)), data, [], Ok(Reply(Some(PureAck(c1)), false)))
    else if seg.flags == Ack && seg.payload == None && check != Unacceptable then
      Replied(AckedConn(c, seg.ackNum).(state := if ourFinAcked then FinWait2(w1) else FinWait1(w1)), None, false)
    else if seg.flags == FinAck && check == InOrder then
      var c1 := ConsumeFin(Discard(c, data));
      var c2 := if ourFinAcked then c1 else AckedConn(c1, seg.ackNum).(state := Closing(w1));
      Handled(c2, data, [], Ok(Reply(Some(PureAck(c1)), ourFinAcked)))
    else Fallback(seg, c)
  }

  function HandleFinWait2(seg: TcpSegment, c: Conn): Handled
    requires c.state.FinWait2?
  {
    var check := CheckSeq(seg, c.rcvNxt);
    var data := Bytes(seg.payload);
    var w1 := AckedWindow(c, c.state.window, seg);
    if seg.flags == Ack && seg.payload != None && check == InOrder then
      var c1 := Discard(c, data);
      Handled(AckedConn(c1, seg.ackNum).(state := FinWait2(w1)), data, [], Ok(Reply(Some(PureAck(c1)), false)))
    else if seg.flags == Ack && seg.payload == None && check != Unacceptable then
      Replied(AckedConn(c, seg.ackNum).(state := FinWait2(w1)), None, false)
    else if seg.flags == FinAck && check == InOrder then
      var c1 := ConsumeFin(Discard(c, data));
      Handled(c1, data, [], Ok(Reply(Some(PureAck(c1)), true)))
    else Fallback(seg, c)
  }

  function HandleCloseWait(seg: TcpSegment, c: Conn, now: Time): Handled
    requires c.state.CloseWait?
  {
    if seg.flags == Ack && seg.payload == None && CheckSeq(seg, c.rcvNxt) != Unacceptable then
      var closed := CloseWaitOrLastAck(AckedConn(c, seg.ackNum), AckedWindow(c, c.state.window, seg), now);
      Handled(closed.conn, [], [], if closed.info.Ok? then Ok(Reply(Some(closed.info.value), false)) else Err)
    else Fallback(seg, c)
  }

  /** CLOSING and LAST-ACK: only the acknowledgment of our FIN is still awaited. */
  function HandleAwaitingFinAck(seg: TcpSegment, c: Conn): Handled
    requires c.state.Closing? || c.state.LastAck?
  {
    if seg.flags == Ack && seg.payload == None && CheckSeq(seg, c.rcvNxt) != Unacceptable then
      if seg.ackNum == c.sndNxt then Replied(c, None, true)
      else
        var state := c.state.(window := AckedWindow(c, c.state.window, seg));
        Replied(AckedConn(c, seg.ackNum).(state := state), None, false)
    else Fallback(seg, c)
  }

  function HandleKnown(app: ServerApp, seg: TcpSegment, c: Conn, now: Time): Handled {
    match c.state
    case SynReceived => HandleSynRcv(app, seg, c, now)
    case Established(_) => HandleEstablished(app, seg, c, now)
    case FinWait1(_) => HandleFinWait1(seg, c)
    case FinWait2(_) => HandleFinWait2(seg, c)
    case CloseWait(_) => HandleCloseWait(seg, c, now)
    case Closing(_) | LastAck(_) => HandleAwaitingFinAck(seg, c)
  }
}
