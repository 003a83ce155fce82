/** The state of one connection and the updates that do not depend on which state it is in. */
module State {
  import opened Base
  import opened SeqSpace
  import opened Segment
  import opened Pending
  import opened Reassembly

  /** The most data one packet carries, since no options are ever sent. */
  const MAX_PAYLOAD_LEN := ETHERNET_MTU - IPV4_HDR_MIN_LEN - TCP_HDR_MIN_LEN

  datatype WindowState = WindowState(sndWnd: u16, sndWl1: SeqPoint, sndWl2: SeqPoint)

  datatype TcpState =
    | SynReceived
    | Established(window: WindowState)
    | FinWait1(window: WindowState)
    | FinWait2(window: WindowState)
    | CloseWait(window: WindowState)
    | Closing(window: WindowState)
    | LastAck(window: WindowState)
  {
    /** Our FIN occupies a sequence number. */
    predicate FinSent() {
      FinWait1? || FinWait2? || Closing? || LastAck?
    }

    /** The peer's FIN has been consumed. */
    predicate PeerFin() {
      CloseWait? || Closing? || LastAck?
    }

    function Rank(): nat {
      match this
      case SynReceived => 0
      case Established(_) => 1
      case FinWait1(_) | CloseWait(_) => 2
      case FinWait2(_) | Closing(_) | LastAck(_) => 3
    }

    /** Being in the same one of the seven states, whatever the window. */
    predicate SameKind(other: TcpState) {
      && SynReceived? == other.SynReceived? && Established? == other.Established?
      && FinWait1? == other.FinWait1? && FinWait2? == other.FinWait2?
      && CloseWait? == other.CloseWait? && Closing? == other.Closing? && LastAck? == other.LastAck?
    }
  }

  /** A connection as a value: what its fields hold at one moment. */
  datatype Conn = Conn(
    state: TcpState,
    sndNxt: SeqPoint,
    rcvNxt: SeqPoint,
    sndUna: SeqPoint,
    pending: seq<PendingSegment>,
    sendBuffer: seq<byte>,
    segments: seq<Buffered>,
    finSeq: Option<SeqPoint>)

  /** A new connection, right after its SYN-ACK; nothing else can start one. */
  function FromSynAck(info: SendInfo, now: Time): Result<Conn> {
    if info.flags != SynAck then Err
    else Ok(Conn(SynReceived, Add(info.seqNum, 1), info.ackNum, info.seqNum, [NewPending(info, now)], [], [], None))
  }

  function Establish(seg: TcpSegment): WindowState {
    WindowState(seg.window, seg.seqNum, seg.ackNum)
  }

  /** Whether `seg` is at least as recent as the segment the window was last taken from. */
  predicate Fresh(w: WindowState, seg: TcpSegment) {
    Precedes(w.sndWl1, seg.seqNum) || (w.sndWl1 == seg.seqNum && PrecedesOrEq(w.sndWl2, seg.ackNum))
  }

  function Freshened(w: WindowState, seg: TcpSegment): WindowState {
    if Fresh(w, seg) then Establish(seg) else w
  }

  predicate Acceptable(c: Conn, ack: SeqPoint) {
    AckInRange(c.sndUna, ack, c.sndNxt)
  }

  /** SND.UNA and the retransmission queue after an acknowledgment. */
  function AckedConn(c: Conn, ack: SeqPoint): Conn {
    if Acceptable(c, ack) && Precedes(c.sndUna, ack)
    then c.(sndUna := ack, pending := Uncovered(c.pending, ack))
    else c
  }

  function AckedWindow(c: Conn, w: WindowState, seg: TcpSegment): WindowState {
    if Acceptable(c, seg.ackNum) then Freshened(w, seg) else w
  }

  /** How many bytes may leave the send buffer now, given `inFlight` unacknowledged sequence numbers. */
  function Sendable(w: WindowState, inFlight: nat, queued: nat): (n: nat)
    ensures n <= queued && n <= MAX_PAYLOAD_LEN && (n > 0 ==> inFlight + n <= w.sndWnd)
    ensures n < queued && n < MAX_PAYLOAD_LEN ==> inFlight + n >= w.sndWnd
  {
    Min(Min(Max(w.sndWnd - inFlight, 0), queued), MAX_PAYLOAD_LEN)
  }

  datatype Transmit = Transmit(payload: Option<Payload>, conn: Conn)

  /** Takes the bytes that may be sent off the front of the send buffer; fails if SND.UNA is past SND.NXT. */
  function DrainTransmittable(c: Conn, w: WindowState): Result<Transmit> {
    var inFlight := Sub(c.sndNxt, c.sndUna);
    if inFlight < 0 then Err
    else
      var n := Sendable(w, inFlight, |c.sendBuffer|);
      Ok(Transmit(if n == 0 then None else Some(c.sendBuffer[..n]), c.(sendBuffer := c.sendBuffer[n..])))
  }

  class ConnState {
    var tcpState: TcpState
    var sndNxt: SeqPoint
    var rcvNxt: SeqPoint
    var sndUna: SeqPoint
    var pending: seq<PendingSegment>
    var sendBuffer: seq<byte>
    const reassembly: TcpReassembly

    /** Every byte handed to the application so far. */
    ghost var delivered: seq<byte>

    /** The connection as a value. */
    function View(): Conn
      reads this, reassembly
    {
      Conn(tcpState, sndNxt, rcvNxt, sndUna, pending, sendBuffer, reassembly.segments, reassembly.finSeq)
    }

    constructor FromSynAckInfo(info: SendInfo, now: Time)
      requires info.flags == SynAck
      ensures FromSynAck(info, now) == Ok(View()) && delivered == []
      ensures fresh(reassembly)
    {
      tcpState, sndNxt, rcvNxt, sndUna := SynReceived, Add(info.seqNum, 1), info.ackNum, info.seqNum;
      pending, sendBuffer, delivered := [NewPending(info, now)], [], [];
      reassembly := new TcpReassembly();
    }

    method IncomingAckUpdate(w: WindowState, seg: TcpSegment) returns (w': WindowState)
      modifies this`sndUna, this`pending
      ensures View() == AckedConn(old(View()), seg.ackNum)
      ensures w' == AckedWindow(old(View()), w, seg)
    {
      w' := w;
      if PrecedesOrEq(sndUna, seg.ackNum) && PrecedesOrEq(seg.ackNum, sndNxt) {
        if Precedes(sndUna, seg.ackNum) {
          sndUna := seg.ackNum;
          RetainUncovered(seg.ackNum);
        }
        if Precedes(w.sndWl1, seg.seqNum) || (w.sndWl1 == seg.seqNum && PrecedesOrEq(w.sndWl2, seg.ackNum)) {
          w' := WindowState(seg.window, seg.seqNum, seg.ackNum);
        }
      }
    }

    /** Keeps, in order, the pending segments `ack` does not fully cover. */
    method RetainUncovered(ack: SeqPoint)
      modifies this`pending
      ensures pending == Uncovered(old(pending), ack)
    {
      hide Uncovered, CoveredBy;
      var kept, i := [], 0;
      UncoveredNext(pending, 0, ack);
      while i < |pending|
        invariant pending == old(pending) && 0 <= i <= |pending|
        invariant kept == Uncovered(pending[..i], ack)
      {
        UncoveredNext(pending, i, ack);
        if !CoveredBy(pending[i], ack) {
          kept := kept + [pending[i]];
        }
        i := i + 1;
      }
      assert pending[..i] == pending;
      pending := kept;
    }

    method TakeTransmittable(w: WindowState) returns (r: Result<Option<Payload>>)
      modifies this`sendBuffer
      ensures match DrainTransmittable(old(View()), w)
              case Ok(t) => r == Ok(t.payload) && View() == t.conn
              case Err => r == Err && View() == old(View())
    {
      var inFlight := Sub(sndNxt, sndUna);
      if inFlight < 0 {
        return Err;
      }
      var room := if w.sndWnd >= inFlight then w.sndWnd - inFlight else 0;
      var n := Min(Min(room, |sendBuffer|), MAX_PAYLOAD_LEN);
      r := Ok(if n == 0 then None else Some(sendBuffer[..n]));
      sendBuffer := sendBuffer[n..];
    }
  }
}
