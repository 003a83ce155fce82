/**
 The state handlers, updating a connection in place. Each is proved to do to the fields exactly
 what the function of the same name in `SendInfos` does to their values.
 */
module Handlers {
  import opened Base
  import opened SeqSpace
  import opened Segment
  import opened Pending
  import opened Reassembly
  import opened State
  import opened SendInfos

  /** The application reacts to `data`, appending its response to the send buffer. */
  method HandleTcp(app: ServerApp, data: seq<byte>, conn: ConnState)
    modifies conn`sendBuffer, conn`delivered
    ensures conn.View() == old(conn.View()).(sendBuffer := old(conn.sendBuffer) + app.Respond(data))
    ensures conn.delivered == old(conn.delivered) + data
  {
    conn.sendBuffer := conn.sendBuffer + app.Respond(data);
    conn.delivered := conn.delivered + data;
  }

  method DeliverInOrder(app: ServerApp, payload: Option<Payload>, conn: ConnState)
    modifies conn`rcvNxt, conn`sendBuffer, conn`delivered
    ensures conn.View() == Deliver(app, old(conn.View()), Bytes(payload))
    ensures conn.delivered == old(conn.delivered) + Bytes(payload)
  {
    if payload != None {
      conn.rcvNxt := Add(conn.rcvNxt, |payload.value|);
      HandleTcp(app, payload.value, conn);
    } else {
      assert conn.sendBuffer + app.Respond([]) == conn.sendBuffer;
    }
  }

  /** Hands over whatever buffered segments have become contiguous, one by one. */
  method DeliverReassembled(app: ServerApp, conn: ConnState)
    modifies conn`rcvNxt, conn`sendBuffer, conn`delivered, conn.reassembly`segments
    ensures conn.View() == DeliverBuffered(app, old(conn.View()))
    ensures conn.delivered == old(conn.delivered) + Drain(old(conn.reassembly.segments), old(conn.rcvNxt)).bytes
  {
    hide Drain, Add, Flatten, ServerApp.Respond;
    var out;
    out, conn.rcvNxt := conn.reassembly.DrainContiguous(conn.rcvNxt);
    ghost var buffer, delivered := conn.sendBuffer, conn.delivered;
    FlattenWhole(out);
    for i := 0 to |out|
      invariant conn.View() == old(conn.View()).(
                                 rcvNxt := conn.rcvNxt, segments := conn.reassembly.segments,
                                 sendBuffer := buffer + app.Respond(Flatten(out[..i])))
      invariant conn.rcvNxt == Drain(old(conn.reassembly.segments), old(conn.rcvNxt)).rcvNxt
      invariant conn.reassembly.segments == Drain(old(conn.reassembly.segments), old(conn.rcvNxt)).rest
      invariant conn.delivered == delivered + Flatten(out[..i])
    {
      RespondNext(app, out, i);
      HandleTcp(app, out[i], conn);
    }
  }

  lemma RespondNext(app: ServerApp, out: seq<Payload>, i: nat)
    requires i < |out|
    ensures Flatten(out[..i + 1]) == Flatten(out[..i]) + out[i]
    ensures app.Respond(Flatten(out[..i + 1])) == app.Respond(Flatten(out[..i])) + app.Respond(out[i])
  {
    FlattenAppend(out[..i], out[i]);
    assert out[..i + 1] == out[..i] + [out[i]];
    app.RespondConcat(Flatten(out[..i]), out[i]);
  }

  lemma FlattenWhole(out: seq<Payload>)
    ensures out[..|out|] == out && Flatten(out[..0]) == []
  {
  }

  method BufferOutOfOrder(seg: TcpSegment, conn: ConnState)
    modifies conn.reassembly
    ensures conn.View() == BufferSegment(old(conn.View()), seg)
  {
    if seg.payload != None {
      conn.reassembly.Insert(seg.seqNum, seg.payload.value);
    }
    if seg.flags == FinAck {
      conn.reassembly.MarkFin(Add(seg.seqNum, Len(seg.payload)));
    }
  }

  method DataPayload(conn: ConnState, toSend: Payload, now: Time) returns (info: SendInfo)
    modifies conn`sndNxt, conn`pending
    ensures Sent(conn.View(), info) == Transmitted(old(conn.View()), Ack, Some(toSend), now)
  {
    info := SendInfo(conn.sndNxt, conn.rcvNxt, Ack, Some(toSend));
    conn.sndNxt := Add(conn.sndNxt, |toSend|);
    conn.pending := conn.pending + [NewPending(info, now)];
  }

  method CloseWaitOrLastAck(conn: ConnState, w: WindowState, now: Time) returns (r: Result<SendInfo>)
    modifies conn`tcpState, conn`sndNxt, conn`pending, conn`sendBuffer
    ensures Closed(conn.View(), r) == SendInfos.CloseWaitOrLastAck(old(conn.View()), w, now)
  {
    var toSend := conn.TakeTransmittable(w);
    if toSend == Err {
      return Err;
    }
    if conn.sendBuffer == [] {
      conn.tcpState := LastAck(w);
      var info := SendInfo(conn.sndNxt, conn.rcvNxt, FinAck, toSend.value);
      AddAdd(conn.sndNxt, Len(toSend.value), 1);
      conn.sndNxt := Add(conn.sndNxt, Len(toSend.value));
      conn.sndNxt := Add(conn.sndNxt, 1);
      conn.pending := conn.pending + [NewPending(info, now)];
      return Ok(info);
    } else {
      conn.tcpState := CloseWait(w);
      if toSend.value != None {
        var info := DataPayload(conn, toSend.value.value, now);
        return Ok(info);
      }
      return Ok(PureAck(conn.View()));
    }
  }

  /** The connection, the bytes delivered and the reply are those of the outcome `h`. */
  ghost predicate Matches(h: Handled, delivered: seq<byte>, conn: ConnState, r: Result<Reply>)
    reads conn, conn.reassembly
  {
    conn.View() == h.conn && conn.delivered == delivered + h.delivered && r == h.reply
  }

  method KnownConnCommonFallback(seg: TcpSegment, conn: ConnState) returns (r: Result<Reply>)
    ensures Matches(Fallback(seg, conn.View()), conn.delivered, conn, r)
  {
    var check := CheckSeq(seg, conn.rcvNxt);
    var challengeAck := Ok(Reply(Some(PureAck(conn.View())), false));
    if seg.flags in {Rst, RstAck} {
      match check
      case Unacceptable => r := Ok(Reply(None, false));
      case InOrder => r := Ok(Reply(None, true));
      case OutOfOrder => r := challengeAck;
    } else if check == Unacceptable {
      r := challengeAck;
    } else if seg.flags in {Syn, SynAck} && !conn.tcpState.SynReceived? {
      r := challengeAck;
    } else {
      r := Ok(Reply(Some(ResetFor(seg)), false));
    }
  }

  method CloseOnInOrderFin(
    app: ServerApp, seg: TcpSegment, conn: ConnState, w: WindowState, now: Time) returns (r: Result<Reply>)
    modifies conn
    ensures Matches(SendInfos.CloseOnInOrderFin(app, seg, old(conn.View()), w, now), old(conn.delivered), conn, r)
    ensures conn.reassembly.segments == old(conn.reassembly.segments)
    ensures conn.reassembly.finSeq == old(conn.reassembly.finSeq)
  {
    hide AckedConn, AckedWindow, SendInfos.CloseWaitOrLastAck;
    DeliverInOrder(app, seg.payload, conn);
    conn.rcvNxt := Add(conn.rcvNxt, 1);
    var w' := conn.IncomingAckUpdate(w, seg);
    var closed := CloseWaitOrLastAck(conn, w', now);
    r := if closed.Ok? then Ok(Reply(Some(closed.value), false)) else Err;
  }

  /** Once `c` has been handed its data: a FIN that has been reached is consumed, or what the window allows is sent. */
  ghost predicate SentAfter(c: Conn, w: WindowState, now: Time, c': Conn, r: Result<Reply>) {
    if FinReached(c) then
      var closed := SendInfos.CloseWaitOrLastAck(ConsumeFin(c), w, now);
      c' == closed.conn && r == if closed.info.Ok? then Ok(Reply(Some(closed.info.value), false)) else Err
    else match DrainTransmittable(c, w)
         case Err => c' == c && r == Err
         case Ok(t) =>
           var s := DataOrAck(t.conn, t.payload, now);
           c' == s.conn && r == Ok(Reply(Some(s.info), false))
  }

  /** The end of the in-order data cases. */
  method SendAfterDelivery(conn: ConnState, w: WindowState, now: Time) returns (r: Result<Reply>)
    modifies conn
    ensures conn.delivered == old(conn.delivered) && SentAfter(old(conn.View()), w, now, conn.View(), r)
    ensures conn.reassembly.segments == old(conn.reassembly.segments)
    ensures conn.reassembly.finSeq == old(conn.reassembly.finSeq)
  {
    hide SendInfos.CloseWaitOrLastAck, DrainTransmittable, PrecedesOrEq, Add;
    if conn.reassembly.FinReached(conn.rcvNxt) {
      conn.rcvNxt := Add(conn.rcvNxt, 1);
      var closed := CloseWaitOrLastAck(conn, w, now);
      r := if closed.Ok? then Ok(Reply(Some(closed.value), false)) else Err;
    } else {
      var toSend := conn.TakeTransmittable(w);
      match toSend
      case Err => r := Err;
      case Ok(None) => r := Ok(Reply(Some(PureAck(conn.View())), false));
      case Ok(Some(payload)) =>
        var info := DataPayload(conn, payload, now);
        r := Ok(Reply(Some(info), false));
    }
  }

  /** In-order data, with what it makes contiguous. */
  method DeliverContiguous(app: ServerApp, payload: Option<Payload>, conn: ConnState)
    modifies conn`rcvNxt, conn`sendBuffer, conn`delivered, conn.reassembly`segments
    ensures var c2 := Deliver(app, old(conn.View()), Bytes(payload));
            && conn.View() == DeliverBuffered(app, c2)
            && conn.delivered == old(conn.delivered) + (Bytes(payload) + Drain(c2.segments, c2.rcvNxt).bytes)
  {
    hide Deliver, DeliverBuffered, Drain;
    DeliverInOrder(app, payload, conn);
    DeliverReassembled(app, conn);
  }

  /** A bare acknowledgment: send what the window now allows, or nothing. */
  method SendAfterAck(conn: ConnState, w: WindowState, now: Time) returns (r: Result<Reply>)
    modifies conn`sndNxt, conn`pending, conn`sendBuffer
    ensures match DrainTransmittable(old(conn.View()), w)
            case Err => conn.View() == old(conn.View()) && r == Err
            case Ok(t) =>
              if t.payload == None then conn.View() == t.conn && r == Ok(Reply(None, false))
              else Ok(Reply(Some(Transmitted(t.conn, Ack, t.payload, now).info), false)) == r
                   && conn.View() == Transmitted(t.conn, Ack, t.payload, now).conn
  {
    hide DrainTransmittable, Add;
    var toSend := conn.TakeTransmittable(w);
    match toSend
    case Err => r := Err;
    case Ok(None) => r := Ok(Reply(None, false));
    case Ok(Some(payload)) =>
      var info := DataPayload(conn, payload, now);
      r := Ok(Reply(Some(info), false));
  }

  method HandleSynRcv(app: ServerApp, seg: TcpSegment, conn: ConnState, now: Time) returns (r: Result<Reply>)
    requires conn.tcpState.SynReceived?
    modifies conn, conn.reassembly
    ensures Matches(SendInfos.HandleSynRcv(app, seg, old(conn.View()), now), old(conn.delivered), conn, r)
  {
    hide SendInfos.CloseWaitOrLastAck, DrainTransmittable, PrecedesOrEq, Precedes, Drain, CheckSeq, AckedConn,
         AckedWindow, DataOrAck, Add, Deliver, DeliverBuffered, BufferSegment, ServerApp.Respond,
         SendInfos.CloseOnInOrderFin, Fallback;
    var check := CheckSeq(seg, conn.rcvNxt);
    var acceptableAck := Precedes(conn.sndUna, seg.ackNum) && PrecedesOrEq(seg.ackNum, conn.sndNxt);
    if seg.flags == Syn {
      var info := SendInfo(conn.sndUna, Add(seg.seqNum, 1), SynAck, None);
      conn.pending := conn.pending + [NewPending(info, now)];
      return Ok(Reply(Some(info), false));
    }
    if seg.flags !in {Ack, FinAck} || check == Unacceptable || !acceptableAck {
      r := KnownConnCommonFallback(seg, conn);
      return;
    }
    var w := CompleteHandshake(seg, conn);
    if check == OutOfOrder {
      BufferOutOfOrder(seg, conn);
      r := Ok(Reply(Some(PureAck(conn.View())), false));
    } else if seg.flags == FinAck {
      r := CloseOnInOrderFin(app, seg, conn, w, now);
    } else {
      DeliverContiguous(app, seg.payload, conn);
      if conn.reassembly.FinReached(conn.rcvNxt) || conn.sendBuffer != [] {
        r := SendAfterDelivery(conn, w, now);
      } else {
        r := Ok(Reply(None, false));
      }
    }
  }

  method CompleteHandshake(seg: TcpSegment, conn: ConnState) returns (w: WindowState)
    modifies conn`tcpState, conn`sndUna, conn`pending
    ensures conn.View() == SendInfos.CompleteHandshake(seg, old(conn.View())) && w == Establish(seg)
  {
    w := Establish(seg);
    conn.tcpState := Established(w);
    conn.sndUna := seg.ackNum;
    conn.pending := [];
  }

  method HandleEstablished(app: ServerApp, seg: TcpSegment, conn: ConnState, now: Time) returns (r: Result<Reply>)
    requires conn.tcpState.Established?
    modifies conn, conn.reassembly
    ensures Matches(SendInfos.HandleEstablished(app, seg, old(conn.View()), now), old(conn.delivered), conn, r)
  {
    hide SendInfos.CloseWaitOrLastAck, DrainTransmittable, PrecedesOrEq, Precedes, Drain, CheckSeq, AckedConn,
         AckedWindow, DataOrAck, Add, Deliver, DeliverBuffered, BufferSegment, ServerApp.Respond,
         SendInfos.CloseOnInOrderFin, Fallback;
    var check := CheckSeq(seg, conn.rcvNxt);
    var w := conn.tcpState.window;
    if seg.flags !in {Ack, FinAck} || check == Unacceptable {
      r := KnownConnCommonFallback(seg, conn);
    } else if seg.flags == Ack && Precedes(conn.sndNxt, seg.ackNum) {
      r := Ok(Reply(Some(PureAck(conn.View())), false));
    } else if seg.flags == FinAck && check == InOrder {
      r := CloseOnInOrderFin(app, seg, conn, w, now);
    } else {
      w := conn.IncomingAckUpdate(w, seg);
      conn.tcpState := Established(w);
      if seg.flags == Ack && seg.payload == None {
        r := SendAfterAck(conn, w, now);
      } else if check == InOrder {
        DeliverContiguous(app, seg.payload, conn);
        r := SendAfterDelivery(conn, w, now);
      } else {
        BufferOutOfOrder(seg, conn);
        r := Ok(Reply(Some(PureAck(conn.View())), false));
      }
    }
  }

  method HandleFinWait1(seg: TcpSegment, conn: ConnState) returns (r: Result<Reply>)
    requires conn.tcpState.FinWait1?
    modifies conn
    ensures Matches(SendInfos.HandleFinWait1(seg, old(conn.View())), old(conn.delivered), conn, r)
  {
    var check := CheckSeq(seg, conn.rcvNxt);
    var ourFinAcked := seg.ackNum == conn.sndNxt;
    if seg.flags == Ack && seg.payload != None && check == InOrder {
      conn.rcvNxt := Add(conn.rcvNxt, Len(seg.payload));
      r := Ok(Reply(Some(PureAck(conn.View())), false));
      var w := conn.IncomingAckUpdate(conn.tcpState.window, seg);
      conn.tcpState := FinWait1(w);
    } else if seg.flags == Ack && seg.payload == None && check != Unacceptable {
      var w := conn.IncomingAckUpdate(conn.tcpState.window, seg);
      conn.tcpState := if ourFinAcked then FinWait2(w) else FinWait1(w);
      r := Ok(Reply(None, false));
    } else if seg.flags == FinAck && check == InOrder {
      conn.rcvNxt := Add(conn.rcvNxt, Len(seg.payload));
      conn.rcvNxt := Add(conn.rcvNxt, 1);
      r := Ok(Reply(Some(PureAck(conn.View())), ourFinAcked));
      if !ourFinAcked {
        var w := conn.IncomingAckUpdate(conn.tcpState.window, seg);
        conn.tcpState := Closing(w);
      }
    } else {
      r := KnownConnCommonFallback(seg, conn);
    }
  }

  method HandleFinWait2(seg: TcpSegment, conn: ConnState) returns (r: Result<Reply>)
    requires conn.tcpState.FinWait2?
    modifies conn
    ensures Matches(SendInfos.HandleFinWait2(seg, old(conn.View())), old(conn.delivered), conn, r)
  {
    var check := CheckSeq(seg, conn.rcvNxt);
    if seg.flags == Ack && seg.payload != None && check == InOrder {
      conn.rcvNxt := Add(conn.rcvNxt, Len(seg.payload));
      r := Ok(Reply(Some(PureAck(conn.View())), false));
      var w := conn.IncomingAckUpdate(conn.tcpState.window, seg);
      conn.tcpState := FinWait2(w);
    } else if seg.flags == Ack && seg.payload == None && check != Unacceptable {
      var w := conn.IncomingAckUpdate(conn.tcpState.window, seg);
      conn.tcpState := FinWait2(w);
      r := Ok(Reply(None, false));
    } else if seg.flags == FinAck && check == InOrder {
      conn.rcvNxt := Add(conn.rcvNxt, Len(seg.payload));
      conn.rcvNxt := Add(conn.rcvNxt, 1);
      r := Ok(Reply(Some(PureAck(conn.View())), true));
    } else {
      r := KnownConnCommonFallback(seg, conn);
    }
  }

  method HandleCloseWait(seg: TcpSegment, conn: ConnState, now: Time) returns (r: Result<Reply>)
    requires conn.tcpState.CloseWait?
    modifies conn
    ensures Matches(SendInfos.HandleCloseWait(seg, old(conn.View()), now), old(conn.delivered), conn, r)
  {
    if seg.flags == Ack && seg.payload == None && CheckSeq(seg, conn.rcvNxt) != Unacceptable {
      var w := conn.IncomingAckUpdate(conn.tcpState.window, seg);
      var closed := CloseWaitOrLastAck(conn, w, now);
      r := if closed.Ok? then Ok(Reply(Some(closed.value), false)) else Err;
    } else {
      r := KnownConnCommonFallback(seg, conn);
    }
  }

  method HandleClosing(seg: TcpSegment, conn: ConnState) returns (r: Result<Reply>)
    requires conn.tcpState.Closing?
    modifies conn
    ensures Matches(HandleAwaitingFinAck(seg, old(conn.View())), old(conn.delivered), conn, r)
  {
    if seg.flags == Ack && seg.payload == None && CheckSeq(seg, conn.rcvNxt) != Unacceptable {
      if seg.ackNum == conn.sndNxt {
        return Ok(Reply(None, true));
      }
      var w := conn.IncomingAckUpdate(conn.tcpState.window, seg);
      conn.tcpState := Closing(w);
      r := Ok(Reply(None, false));
    } else {
      r := KnownConnCommonFallback(seg, conn);
    }
  }

  method HandleLastAck(seg: TcpSegment, conn: ConnState) returns (r: Result<Reply>)
    requires conn.tcpState.LastAck?
    modifies conn
    ensures Matches(HandleAwaitingFinAck(seg, old(conn.View())), old(conn.delivered), conn, r)
  {
    if seg.flags == Ack && seg.payload == None && CheckSeq(seg, conn.rcvNxt) != Unacceptable {
      if seg.ackNum == conn.sndNxt {
        return Ok(Reply(None, true));
      }
      var w := conn.IncomingAckUpdate(conn.tcpState.window, seg);
      conn.tcpState := LastAck(w);
      r := Ok(Reply(None, false));
    } else {
      r := KnownConnCommonFallback(seg, conn);
    }
  }

  method HandleKnownConn(app: ServerApp, seg: TcpSegment, conn: ConnState, now: Time) returns (r: Result<Reply>)
    modifies conn, conn.reassembly
    ensures Matches(HandleKnown(app, seg, old(conn.View()), now), old(conn.delivered), conn, r)
  {
    hide SendInfos.HandleSynRcv, SendInfos.HandleEstablished, SendInfos.HandleFinWait1, SendInfos.HandleFinWait2,
         SendInfos.HandleCloseWait, HandleAwaitingFinAck;
    match conn.tcpState
    case SynReceived => r := HandleSynRcv(app, seg, conn, now);
    case Established(_) => r := HandleEstablished(app, seg, conn, now);
    case FinWait1(_) => r := HandleFinWait1(seg, conn);
    case FinWait2(_) => r := HandleFinWait2(seg, conn);
    case CloseWait(_) => r := HandleCloseWait(seg, conn, now);
    case Closing(_) => r := HandleClosing(seg, conn);
    case LastAck(_) => r := HandleLastAck(seg, conn);
  }
}
