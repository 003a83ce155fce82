/** What every step keeps about the incoming stream of a connection. */
module ReceiveSide {
  import opened Base
  import opened SeqSpace
  import opened Segment
  import opened Pending
  import opened Reassembly
  import opened State
  import opened SendInfos
  import Transitions

  /**
   Between steps, every buffered start is distinct and lies strictly inside the receive window, and a
   recorded FIN lies strictly ahead, at most a payload beyond the window.
   */
  ghost predicate BufferInv(c: Conn) {
    && (c.state.SynReceived? ==> c.segments == [] && c.finSeq == None)
    && (c.state.Established? ==>
          && Distinct(c.segments) && (forall b :: b in c.segments ==> 0 < Dist(c.rcvNxt, b.start) < 0xFFFF)
          && FinAhead(c))
  }

  predicate FinAhead(c: Conn) {
    c.finSeq.Some? ==> 0 < Dist(c.rcvNxt, c.finSeq.value) < 0x2_0000
  }

  /** RCV.NXT after `n` in-order bytes, and after the peer's FIN if that has been consumed. */
  function RcvPoint(irs: SeqPoint, n: nat, peerFin: bool): SeqPoint {
    At(irs + 1 + n + if peerFin then 1 else 0)
  }

  /** Everything held ahead of RCV.NXT agrees with the stream `s`, of which `k` bytes have been accepted. */
  ghost predicate AheadInv(c: Conn, s: seq<byte>, k: nat) {
    && (forall b :: b in c.segments ==> PieceOf(s, k + Dist(c.rcvNxt, b.start), b.payload))
    && (c.finSeq.Some? ==> k + Dist(c.rcvNxt, c.finSeq.value) == |s| && |s| - k < HALF)
  }

  /** The accepted bytes are a prefix of the client's stream; with the FIN consumed, all of it. */
  ghost predicate ReceiveInv(c: Conn, irs: SeqPoint, s: seq<byte>, accepted: seq<byte>) {
    && accepted <= s
    && c.rcvNxt == RcvPoint(irs, |accepted|, c.state.PeerFin())
    && (c.state.PeerFin() ==> accepted == s)
    && (c.state.SynReceived? ==> accepted == [])
    && (c.state.Established? ==> AheadInv(c, s, |accepted|))
  }

  /** Stream offset `pos` is less than a whole wrap of sequence space away from `k`. */
  ghost predicate NotStale(pos: int, k: int) {
    k - (MODULUS - 0xFFFF) <= pos < k + MODULUS
  }

  /**
   A segment of the client whose stream is `s`: what data or FIN it carries is what the stream has
   at its true offset, which is not a whole wrap away from what is expected now.
   */
  ghost predicate FromStream(seg: TcpSegment, irs: SeqPoint, s: seq<byte>, k: nat) {
    (seg.flags == Ack && seg.payload != None) || seg.flags == FinAck ==>
      exists pos :: CarriesAt(seg, irs, s, pos) && NotStale(pos, k)
  }

  ghost predicate CarriesAt(seg: TcpSegment, irs: SeqPoint, s: seq<byte>, pos: int) {
    && seg.seqNum == At(irs + 1 + pos)
    && PieceOf(s, pos, Bytes(seg.payload))
    && (seg.flags == FinAck ==> pos + Len(seg.payload) == |s|)
  }

  /** In the window, the distance from RCV.NXT tells the true offset. */
  lemma OffsetInWindow(seg: TcpSegment, irs: SeqPoint, s: seq<byte>, k: nat)
    requires FromStream(seg, irs, s, k) && ((seg.flags == Ack && seg.payload != None) || seg.flags == FinAck)
    requires CheckSeq(seg, At(irs + 1 + k)) != Unacceptable
    ensures var d := Dist(At(irs + 1 + k), seg.seqNum);
            && d < 0xFFFF && CarriesAt(seg, irs, s, k + d)
            && (d == 0 <==> CheckSeq(seg, At(irs + 1 + k)) == InOrder)
  {
    hide PieceOf, InWindow, Dist, At, Add;
    var rcv := At(irs + 1 + k);
    var pos :| CarriesAt(seg, irs, s, pos) && NotStale(pos, k);
    InWindowExact(seg.seqNum, rcv, 0xFFFF);
    DistBetween(rcv, seg.seqNum, rcv);
    DistAt(irs + 1 + k, irs + 1 + pos);
    NotAWrapAway(pos, k);
  }

  lemma NotAWrapAway(pos: int, k: int)
    requires NotStale(pos, k) && (pos - k) % MODULUS < 0xFFFF
    ensures pos == k + (pos - k) % MODULUS
  {
  }

  /** Moving RCV.NXT over at most one payload keeps every buffered start near it. */
  lemma StartsStayNear(segments: seq<Buffered>, rcv: SeqPoint, n: nat)
    requires n <= MAX_PAYLOAD && Distinct(segments)
    requires forall b :: b in segments ==> 0 < Dist(rcv, b.start) < 0xFFFF
    ensures forall t :: t in ToMap(segments) ==>
              Sub(t, Add(rcv, n)) == Dist(rcv, t) - n && -MAX_PAYLOAD < Sub(t, Add(rcv, n)) < 0xFFFF
    ensures Near(ToMap(segments), Add(rcv, n))
  {
    hide Dist, Sub, Add, Distinct;
    forall t | t in ToMap(segments)
      ensures Sub(t, Add(rcv, n)) == Dist(rcv, t) - n && -MAX_PAYLOAD < Sub(t, Add(rcv, n)) < 0xFFFF
    {
      SubShift(rcv, t, n);
    }
  }

  lemma SubShift(rcv: SeqPoint, t: SeqPoint, n: nat)
    requires n < NEAR && Dist(rcv, t) < NEAR
    ensures Sub(t, Add(rcv, n)) == Dist(rcv, t) - n
  {
  }

  /** Draining after an in-order payload: the buffer is inside the window again. */
  lemma DrainKeepsBuffer(segments: seq<Buffered>, rcv: SeqPoint, n: nat)
    requires n <= MAX_PAYLOAD && Distinct(segments)
    requires forall b :: b in segments ==> 0 < Dist(rcv, b.start) < 0xFFFF
    ensures var d := Drain(segments, Add(rcv, n));
            && Distinct(d.rest) && d.rcvNxt == Add(rcv, n + |d.bytes|) && |d.bytes| < 2 * MAX_PAYLOAD
            && d.bytes == ChainFrom(ToMap(segments), Add(rcv, n))
            && (forall b :: b in d.rest ==>
                  && b in segments && 0 < Dist(d.rcvNxt, b.start) < 0xFFFF
                  && Dist(rcv, b.start) == n + |d.bytes| + Dist(d.rcvNxt, b.start))
  {
    hide Dist, Sub, Add, Distinct, ToMap, Near, PrecedesOrEq, Drain, ChainFrom;
    var rcv' := Add(rcv, n);
    var m := ToMap(segments);
    StartsStayNear(segments, rcv, n);
    AddZeroPoint(rcv');
    DrainIsChain(segments, rcv', 0, m);
    ChainLength(m, rcv', 0, 0xFFFF);
    var d := Drain(segments, rcv');
    AddAdd(rcv, n, |d.bytes|);
    ToMapMembers(segments);
    ToMapMembers(d.rest);
    forall b | b in d.rest
      ensures 0 < Dist(d.rcvNxt, b.start) < 0xFFFF && Dist(rcv, b.start) == n + |d.bytes| + Dist(d.rcvNxt, b.start)
    {
      DistShift(rcv, b.start, n + |d.bytes|);
    }
  }

  lemma AddZeroPoint(p: SeqPoint)
    ensures Add(p, 0) == p
  {
  }

  /** A point ahead of `rcv` that is still ahead once `rcv` has moved by `n`. */
  lemma DistShift(rcv: SeqPoint, t: SeqPoint, n: nat)
    requires n < NEAR && Dist(rcv, t) < NEAR && !PrecedesOrEq(t, Add(rcv, n))
    ensures 0 < Dist(Add(rcv, n), t) && Dist(rcv, t) == n + Dist(Add(rcv, n), t)
  {
  }

  /** The receive side of two connections is the same. */
  predicate SameReceive(c: Conn, c': Conn) {
    c'.rcvNxt == c.rcvNxt && c'.segments == c.segments && c'.finSeq == c.finSeq
  }

  lemma SendingFrame(c: Conn, w: WindowState, payload: Option<Payload>, now: Time)
    ensures SameReceive(c, DataOrAck(c, payload, now).conn) && DataOrAck(c, payload, now).conn.state == c.state
    ensures DrainTransmittable(c, w).Ok? ==>
              var c' := DrainTransmittable(c, w).value.conn;
              SameReceive(c, c') && c'.state == c.state
    ensures SameReceive(c, CloseWaitOrLastAck(c, w, now).conn)
    ensures CloseWaitOrLastAck(c, w, now).info.Ok? ==>
              CloseWaitOrLastAck(c, w, now).conn.state in {CloseWait(w), LastAck(w)}
  {
  }

  /** The two shapes an ESTABLISHED step leaves the receive side in. */
  lemma EstablishedShapes(app: ServerApp, seg: TcpSegment, c: Conn, now: Time)
    requires c.state.Established? && HandleEstablished(app, seg, c, now).reply.Ok?
    ensures var r := HandleEstablished(app, seg, c, now);
            var check := CheckSeq(seg, c.rcvNxt);
            var d := Drain(c.segments, Add(c.rcvNxt, Len(seg.payload)));
            r.reply.value.remove ||
            if seg.flags == Ack && seg.payload != None && check == InOrder && !Precedes(c.sndNxt, seg.ackNum) then
              InOrderShape(seg, c, r)
            else if seg.flags == FinAck && check == InOrder then
              && r.accepted == r.delivered == Bytes(seg.payload)
              && r.conn.state.PeerFin() && r.conn.rcvNxt == Add(Add(c.rcvNxt, Len(seg.payload)), 1)
            else
              && r.accepted == r.delivered == [] && r.conn.state.Established?
              && (SameReceive(c, r.conn)
                  || (check == OutOfOrder && seg.flags in {Ack, FinAck} && SameReceive(BufferSegment(c, seg), r.conn)))
  {
    hide DrainTransmittable, CloseWaitOrLastAck, DataOrAck, Drain, CheckSeq, AckedWindow, Precedes, PrecedesOrEq,
         Acceptable, Add, InOrderShape;
    var w := c.state.window;
    var w1 := AckedWindow(c, w, seg);
    if && seg.flags == Ack && seg.payload != None && CheckSeq(seg, c.rcvNxt) == InOrder
       && !Precedes(c.sndNxt, seg.ackNum) {
      InOrderShapes(app, seg, c, now);
    } else if seg.flags == FinAck {
      var c4 := ConsumeFin(Deliver(app, c, Bytes(seg.payload)));
      SendingFrame(AckedConn(c4, seg.ackNum), AckedWindow(c4, w, seg), None, now);
    } else {
      SendingFrame(AckedConn(c, seg.ackNum).(state := Established(w1)), w1, None, now);
    }
  }

  /** After an in-order payload: what it made contiguous is delivered with it, and the FIN if it is next. */
  ghost predicate InOrderShape(seg: TcpSegment, c: Conn, r: Handled) {
    var d := Drain(c.segments, Add(c.rcvNxt, Len(seg.payload)));
    var c3 := c.(rcvNxt := d.rcvNxt, segments := d.rest);
    && r.accepted == r.delivered == Bytes(seg.payload) + d.bytes
    && if FinReached(c3) then r.conn.state.PeerFin() && r.conn.rcvNxt == Add(d.rcvNxt, 1)
       else r.conn.state.Established? && SameReceive(c3, r.conn)
  }

  lemma InOrderShapes(app: ServerApp, seg: TcpSegment, c: Conn, now: Time)
    requires c.state.Established? && HandleEstablished(app, seg, c, now).reply.Ok?
    requires seg.flags == Ack && seg.payload != None && CheckSeq(seg, c.rcvNxt) == InOrder
    requires !Precedes(c.sndNxt, seg.ackNum)
    ensures InOrderShape(seg, c, HandleEstablished(app, seg, c, now))
  {
    hide DrainTransmittable, CloseWaitOrLastAck, DataOrAck, Drain, CheckSeq, AckedWindow, Precedes, PrecedesOrEq,
         Acceptable, Add;
    var w1 := AckedWindow(c, c.state.window, seg);
    var c1 := AckedConn(c, seg.ackNum).(state := Established(w1));
    var c3 := DeliverBuffered(app, Deliver(app, c1, Bytes(seg.payload)));
    SendingFrame(ConsumeFin(c3), w1, None, now);
    SendingFrame(c3, w1, None, now);
    if DrainTransmittable(c3, w1).Ok? {
      var t := DrainTransmittable(c3, w1).value;
      SendingFrame(t.conn, w1, t.payload, now);
    }
  }

  /** The shapes a SYN-RECEIVED step leaves the receive side in; nothing is buffered before it. */
  lemma SynRcvShapes(app: ServerApp, seg: TcpSegment, c: Conn, now: Time)
    requires c.state.SynReceived? && c.segments == [] && c.finSeq == None
    requires HandleSynRcv(app, seg, c, now).reply.Ok?
    ensures var r := HandleSynRcv(app, seg, c, now);
            var check := CheckSeq(seg, c.rcvNxt);
            || r.reply.value.remove
            || (r.conn == c.(pending := r.conn.pending) && r.accepted == r.delivered == [])
            || (seg.flags in {Ack, FinAck} && check == OutOfOrder && r.accepted == r.delivered == []
                && r.conn.state.Established? && SameReceive(BufferSegment(c, seg), r.conn))
            || (seg.flags in {Ack, FinAck} && check == InOrder && r.accepted == r.delivered == Bytes(seg.payload)
                && if seg.flags == FinAck
                   then r.conn.state.PeerFin() && r.conn.rcvNxt == Add(Add(c.rcvNxt, Len(seg.payload)), 1)
                   else r.conn.state.Established? && SameReceive(c.(rcvNxt := Add(c.rcvNxt, Len(seg.payload))), r.conn))
  {
    hide DrainTransmittable, CloseWaitOrLastAck, DataOrAck, CheckSeq, AckedWindow, Precedes, PrecedesOrEq, Acceptable,
         Add, AckedConn;
    var c1 := CompleteHandshake(seg, c);
    var w := c1.state.window;
    var c3 := DeliverBuffered(app, Deliver(app, c1, Bytes(seg.payload)));
    assert Bytes(seg.payload) + [] == Bytes(seg.payload);
    SendingFrame(c3, w, None, now);
    if DrainTransmittable(c3, w).Ok? {
      var t := DrainTransmittable(c3, w).value;
      SendingFrame(t.conn, w, t.payload, now);
    }
    var c4 := ConsumeFin(Deliver(app, c1, Bytes(seg.payload)));
    AckedFrame(c4, seg.ackNum);
    SendingFrame(AckedConn(c4, seg.ackNum), AckedWindow(c4, w, seg), None, now);
  }

  lemma AckedFrame(c: Conn, ack: SeqPoint)
    ensures SameReceive(c, AckedConn(c, ack)) && AckedConn(c, ack).state == c.state
  {
  }

  /** Buffering a segment that lies strictly inside the window keeps the buffer inside it. */
  lemma BufferingKeepsBuffer(seg: TcpSegment, c: Conn)
    requires Distinct(c.segments) && (forall b :: b in c.segments ==> 0 < Dist(c.rcvNxt, b.start) < 0xFFFF)
    requires CheckSeq(seg, c.rcvNxt) == OutOfOrder
    ensures var c' := BufferSegment(c, seg);
            Distinct(c'.segments) && forall b :: b in c'.segments ==> 0 < Dist(c.rcvNxt, b.start) < 0xFFFF
    ensures forall b :: b in BufferSegment(c, seg).segments ==>
              b in c.segments || (seg.payload != None && b == Buffered(seg.seqNum, seg.payload.value))
  {
    hide Dist, Distinct, InsertedInto, InWindow;
    InWindowExact(seg.seqNum, c.rcvNxt, 0xFFFF);
    DistZero(c.rcvNxt, seg.seqNum);
    if seg.payload != None {
      InsertedIntoMap(c.segments, seg.seqNum, seg.payload.value);
      var kept := InsertedIntoVector(c.segments, seg.seqNum, seg.payload.value);
      forall b | b in InsertedInto(c.segments, seg.seqNum, seg.payload.value)
        ensures b in c.segments || b == Buffered(seg.seqNum, seg.payload.value)
      {
        if b.start == seg.seqNum {
          DistinctStart(InsertedInto(c.segments, seg.seqNum, seg.payload.value), b, Buffered(seg.seqNum, kept));
        }
      }
    }
  }

  lemma DistinctStart(segments: seq<Buffered>, a: Buffered, b: Buffered)
    requires Distinct(segments) && a in segments && b in segments && a.start == b.start
    ensures a == b
  {
  }

  lemma DistZero(p: SeqPoint, q: SeqPoint)
    ensures Dist(p, q) == 0 <==> p == q
  {
  }

  /** Every step that does not fail keeps the reassembly buffer strictly inside the receive window. */
  lemma ArrivalKeepsBuffer(app: ServerApp, seg: TcpSegment, c: Conn, now: Time)
    requires BufferInv(c)
    requires HandleKnown(app, seg, c, now).reply.Ok? && !HandleKnown(app, seg, c, now).reply.value.remove
    ensures BufferInv(HandleKnown(app, seg, c, now).conn)
  {
    hide Dist, Distinct, CheckSeq, HandleSynRcv, HandleEstablished, Drain, BufferSegment, FinReached, Add, FinAhead;
    var c' := HandleKnown(app, seg, c, now).conn;
    if c.state.SynReceived? {
      SynRcvShapes(app, seg, c, now);
      EmptyVector();
      NoFinAhead(c);
      if CheckSeq(seg, c.rcvNxt) == OutOfOrder {
        BufferingKeepsBuffer(seg, c);
        BufferingKeepsFin(seg, c);
      }
      BufferedFin(c, seg);
      SameFinAhead(BufferSegment(c, seg), c');
      NoFinAhead(c');
    } else if c.state.Established? {
      EstablishedShapes(app, seg, c, now);
      DrainKeepsBuffer(c.segments, c.rcvNxt, Len(seg.payload));
      DrainKeepsFin(c, Len(seg.payload));
      if CheckSeq(seg, c.rcvNxt) == OutOfOrder {
        BufferingKeepsBuffer(seg, c);
        BufferingKeepsFin(seg, c);
      }
      BufferedFin(c, seg);
      SameFinAhead(BufferSegment(c, seg), c');
      SameFinAhead(c, c');
      var d := Drain(c.segments, Add(c.rcvNxt, Len(seg.payload)));
      SameFinAhead(c.(rcvNxt := d.rcvNxt, segments := d.rest), c');
    } else {
      AckedFrame(c, seg.ackNum);
      if c.state.CloseWait? {
        SendingFrame(AckedConn(c, seg.ackNum), AckedWindow(c, c.state.window, seg), None, now);
      }
    }
  }

  lemma NoFinAhead(c: Conn)
    ensures c.finSeq == None ==> FinAhead(c)
  {
  }

  lemma SameFinAhead(c: Conn, c': Conn)
    ensures SameReceive(c, c') ==> (FinAhead(c) <==> FinAhead(c'))
  {
  }

  /** A FIN that lies ahead of a gap is recorded strictly ahead. */
  lemma BufferingKeepsFin(seg: TcpSegment, c: Conn)
    requires FinAhead(c) && CheckSeq(seg, c.rcvNxt) == OutOfOrder
    ensures FinAhead(BufferSegment(c, seg))
  {
    hide Dist, Add, InWindow, InsertedInto;
    InWindowExact(seg.seqNum, c.rcvNxt, 0xFFFF);
    DistZero(c.rcvNxt, seg.seqNum);
    DistGrows(c.rcvNxt, seg.seqNum, Len(seg.payload));
  }

  /** A recorded FIN is reached exactly if RCV.NXT has moved at least as far as it lay ahead. */
  lemma ReachedExactly(c: Conn, adv: nat)
    requires FinAhead(c) && adv < 0x4_0000
    ensures var c3 := c.(rcvNxt := Add(c.rcvNxt, adv));
            && (FinReached(c3) <==> c.finSeq.Some? && Dist(c.rcvNxt, c.finSeq.value) <= adv)
            && (FinReached(c3) || FinAhead(c3))
  {
    hide Dist, Add, PrecedesOrEq;
    if c.finSeq.Some? {
      FinPassed(c.rcvNxt, c.finSeq.value, adv);
    }
  }

  lemma FinPassed(rcv: SeqPoint, fin: SeqPoint, adv: nat)
    requires adv < 0x4_0000 && Dist(rcv, fin) < 0x2_0000
    ensures PrecedesOrEq(fin, Add(rcv, adv)) <==> Dist(rcv, fin) <= adv
    ensures Dist(rcv, fin) > adv ==> Dist(Add(rcv, adv), fin) == Dist(rcv, fin) - adv
  {
    hide Dist, Add, PrecedesOrEq;
    PrecedesByDist(fin, Add(rcv, adv));
    DistIs(rcv, fin);
    AddIs(rcv, adv);
    DistIs(fin, Add(rcv, adv));
    DistIs(Add(rcv, adv), fin);
  }

  /** After in-order data and a drain a FIN that is not reached still lies ahead. */
  lemma DrainKeepsFin(c: Conn, n: nat)
    requires c.state.Established? && BufferInv(c) && n <= MAX_PAYLOAD
    ensures var d := Drain(c.segments, Add(c.rcvNxt, n));
            var c3 := c.(rcvNxt := d.rcvNxt, segments := d.rest);
            && (FinReached(c3) <==> c.finSeq.Some? && Dist(c.rcvNxt, c.finSeq.value) <= n + |d.bytes|)
            && (FinReached(c3) || FinAhead(c3))
  {
    hide Dist, Add, PrecedesOrEq, Drain, Distinct;
    DrainKeepsBuffer(c.segments, c.rcvNxt, n);
    var d := Drain(c.segments, Add(c.rcvNxt, n));
    ReachedExactly(c, n + |d.bytes|);
  }

  lemma BufferedFin(c: Conn, seg: TcpSegment)
    ensures BufferSegment(c, seg).rcvNxt == c.rcvNxt
  {
  }

  lemma DistBack(rcv: SeqPoint, t: SeqPoint, n: nat)
    requires n <= Dist(rcv, t)
    ensures Dist(Add(rcv, n), t) == Dist(rcv, t) - n
  {
  }

  lemma ReachedIsAt(fin: SeqPoint, rcv: SeqPoint)
    requires Dist(rcv, fin) < HALF && PrecedesOrEq(fin, rcv)
    ensures Dist(rcv, fin) == 0
  {
  }

  lemma PieceExtendsPrefix(s: seq<byte>, accepted: seq<byte>, data: seq<byte>)
    requires accepted <= s && PieceOf(s, |accepted|, data)
    ensures accepted + data <= s
  {
    assert s[..|accepted| + |data|] == s[..|accepted|] + s[|accepted|..|accepted| + |data|];
  }

  lemma RcvPointAdd(irs: SeqPoint, k: nat, n: nat)
    ensures Add(RcvPoint(irs, k, false), n) == RcvPoint(irs, k + n, false)
    ensures Add(RcvPoint(irs, k, false), 1) == RcvPoint(irs, k, true)
  {
    hide Add, At;
    AddAt(irs + 1 + k, n);
    AddAt(irs + 1 + k, 1);
  }

  /** The stretch that becomes contiguous with an in-order payload is the next stretch of the stream. */
  lemma InOrderFollowsStream(c: Conn, data: seq<byte>, irs: SeqPoint, s: seq<byte>, accepted: seq<byte>)
    requires c.state.Established? && BufferInv(c) && ReceiveInv(c, irs, s, accepted)
    requires |data| <= MAX_PAYLOAD && PieceOf(s, |accepted|, data)
    ensures var d := Drain(c.segments, Add(c.rcvNxt, |data|));
            accepted + data + d.bytes <= s
  {
    hide Dist, Sub, Add, Distinct, Near, PrecedesOrEq, Drain, ChainFrom, At, Uncovered, PieceOf, ToMap;
    var n, k := |data|, |accepted|;
    var rcv' := Add(c.rcvNxt, n);
    var m := ToMap(c.segments);
    DrainKeepsBuffer(c.segments, c.rcvNxt, n);
    StartsStayNear(c.segments, c.rcvNxt, n);
    ToMapMembers(c.segments);
    PieceExtendsPrefix(s, accepted, data);
    forall t | t in m
      ensures PieceOf(s, k + n + Sub(t, rcv'), m[t])
    {
      assert Buffered(t, m[t]) in c.segments;
    }
    AddZeroPoint(rcv');
    ChainFollowsStream(m, s, rcv', k + n, 0);
    PieceExtendsPrefix(s, accepted + data, ChainFrom(m, rcv'));
  }

  lemma InOrderKeepsAhead(c: Conn, data: seq<byte>, irs: SeqPoint, s: seq<byte>, accepted: seq<byte>)
    requires c.state.Established? && BufferInv(c) && ReceiveInv(c, irs, s, accepted)
    requires |data| <= MAX_PAYLOAD && PieceOf(s, |accepted|, data)
    ensures var d := Drain(c.segments, Add(c.rcvNxt, |data|));
            var all := accepted + data + d.bytes;
            var c3 := c.(rcvNxt := d.rcvNxt, segments := d.rest);
            && all <= s && d.rcvNxt == RcvPoint(irs, |all|, false) && AheadInv(c3, s, |all|)
            && (FinReached(c3) ==> all == s)
  {
    hide Dist, Sub, Add, Distinct, Near, PrecedesOrEq, Drain, ChainFrom, RcvPoint, PieceOf, ToMap;
    InOrderFollowsStream(c, data, irs, s, accepted);
    DrainKeepsBuffer(c.segments, c.rcvNxt, |data|);
    var d := Drain(c.segments, Add(c.rcvNxt, |data|));
    var adv := |data| + |d.bytes|;
    RcvPointAdd(irs, |accepted|, adv);
    if c.finSeq.Some? {
      DistBack(c.rcvNxt, c.finSeq.value, adv);
      if PrecedesOrEq(c.finSeq.value, d.rcvNxt) {
        ReachedIsAt(c.finSeq.value, d.rcvNxt);
      }
    }
  }

  lemma BufferingKeepsAhead(seg: TcpSegment, c: Conn, irs: SeqPoint, s: seq<byte>, accepted: seq<byte>)
    requires Distinct(c.segments) && (forall b :: b in c.segments ==> 0 < Dist(c.rcvNxt, b.start) < 0xFFFF)
    requires AheadInv(c, s, |accepted|) && c.rcvNxt == RcvPoint(irs, |accepted|, false)
    requires FromStream(seg, irs, s, |accepted|) && seg.flags in {Ack, FinAck} && CheckSeq(seg, c.rcvNxt) == OutOfOrder
    ensures AheadInv(BufferSegment(c, seg), s, |accepted|)
  {
    hide Dist, Distinct, InsertedInto, CheckSeq, PieceOf, Add, FromStream;
    if seg.payload != None || seg.flags == FinAck {
      OffsetInWindow(seg, irs, s, |accepted|);
      BufferingKeepsBuffer(seg, c);
      DistGrows(c.rcvNxt, seg.seqNum, Len(seg.payload));
    }
  }

  /** An in-order segment carries the stream from exactly where it has been accepted so far. */
  lemma InOrderCarries(seg: TcpSegment, irs: SeqPoint, s: seq<byte>, k: nat)
    requires k <= |s| && FromStream(seg, irs, s, k) && seg.flags in {Ack, FinAck}
    requires CheckSeq(seg, RcvPoint(irs, k, false)) == InOrder
    ensures PieceOf(s, k, Bytes(seg.payload))
    ensures seg.flags == FinAck ==> k + Len(seg.payload) == |s|
  {
    hide FromStream, CheckSeq, At;
    if seg.payload != None || seg.flags == FinAck {
      OffsetInWindow(seg, irs, s, k);
    }
  }

  /** What `ArrivalReceives` states, for the outcome `r` of one step. */
  ghost predicate StepReceives(c: Conn, seg: TcpSegment, r: Handled, irs: SeqPoint, s: seq<byte>, accepted: seq<byte>) {
    && r.reply.Ok? && accepted + r.accepted <= s
    && (!r.reply.value.remove ==> ReceiveInv(r.conn, irs, s, accepted + r.accepted))
    && r.delivered == (if c.state.FinSent() then [] else r.accepted)
    && (r.reply.value.remove && seg.flags == FinAck ==>
          accepted + r.accepted == s && r.conn.rcvNxt == RcvPoint(irs, |s|, true))
  }

  lemma EstablishedReceives(
    app: ServerApp, seg: TcpSegment, c: Conn, now: Time, irs: SeqPoint, s: seq<byte>, accepted: seq<byte>)
    requires c.state.Established? && BufferInv(c) && ReceiveInv(c, irs, s, accepted)
    requires FromStream(seg, irs, s, |accepted|)
    requires HandleEstablished(app, seg, c, now).reply.Ok?
    ensures StepReceives(c, seg, HandleEstablished(app, seg, c, now), irs, s, accepted)
  {
    hide Dist, Distinct, CheckSeq, HandleEstablished, Drain, BufferSegment, FinReached, Add, RcvPoint, PieceOf,
         FromStream, AheadInv, Precedes;
    EstablishedShapes(app, seg, c, now);
    Transitions.RemovedByReset(app, seg, c, now);
    assert accepted + [] == accepted;
    var data := Bytes(seg.payload);
    if seg.flags in {Ack, FinAck} && CheckSeq(seg, c.rcvNxt) == InOrder {
      InOrderCarries(seg, irs, s, |accepted|);
      PieceExtendsPrefix(s, accepted, data);
      InOrderKeepsAhead(c, data, irs, s, accepted);
      var all := accepted + data + Drain(c.segments, Add(c.rcvNxt, |data|)).bytes;
      assert all == accepted + (data + Drain(c.segments, Add(c.rcvNxt, |data|)).bytes);
      RcvPointAdd(irs, |all|, 1);
      RcvPointAdd(irs, |accepted|, |data|);
      RcvPointAdd(irs, |accepted| + |data|, 1);
      SameAhead(c, HandleEstablished(app, seg, c, now).conn, s, |accepted|);
      var d := Drain(c.segments, Add(c.rcvNxt, |data|));
      SameAhead(c.(rcvNxt := d.rcvNxt, segments := d.rest),
                HandleEstablished(app, seg, c, now).conn, s, |all|);
    } else {
      if seg.flags in {Ack, FinAck} && CheckSeq(seg, c.rcvNxt) == OutOfOrder {
        BufferingKeepsAhead(seg, c, irs, s, accepted);
        BufferedFin(c, seg);
        SameAhead(BufferSegment(c, seg), HandleEstablished(app, seg, c, now).conn, s, |accepted|);
      }
      SameAhead(c, HandleEstablished(app, seg, c, now).conn, s, |accepted|);
    }
  }

  lemma SameAhead(c: Conn, c': Conn, s: seq<byte>, k: nat)
    ensures SameReceive(c, c') ==> AheadInv(c, s, k) == AheadInv(c', s, k)
  {
  }

  lemma SynRcvReceives(
    app: ServerApp, seg: TcpSegment, c: Conn, now: Time, irs: SeqPoint, s: seq<byte>, accepted: seq<byte>)
    requires c.state.SynReceived? && BufferInv(c) && ReceiveInv(c, irs, s, accepted)
    requires FromStream(seg, irs, s, |accepted|)
    requires HandleSynRcv(app, seg, c, now).reply.Ok?
    ensures StepReceives(c, seg, HandleSynRcv(app, seg, c, now), irs, s, accepted)
  {
    hide Dist, Distinct, CheckSeq, HandleSynRcv, Drain, BufferSegment, FinReached, Add, RcvPoint, PieceOf, FromStream,
         AheadInv, Precedes;
    SynRcvShapes(app, seg, c, now);
    Transitions.RemovedByReset(app, seg, c, now);
    assert accepted + [] == accepted;
    NothingAhead(c, s, |accepted|);
    EmptyVector();
    var r := HandleSynRcv(app, seg, c, now);
    var data := Bytes(seg.payload);
    if seg.flags in {Ack, FinAck} && CheckSeq(seg, c.rcvNxt) == InOrder {
      InOrderCarries(seg, irs, s, |accepted|);
      PieceExtendsPrefix(s, accepted, data);
      RcvPointAdd(irs, |accepted|, |data|);
      RcvPointAdd(irs, |accepted| + |data|, 1);
      NothingAhead(r.conn, s, |accepted + data|);
    } else if seg.flags in {Ack, FinAck} && CheckSeq(seg, c.rcvNxt) == OutOfOrder {
      BufferingKeepsAhead(seg, c, irs, s, accepted);
      BufferedFin(c, seg);
      SameAhead(BufferSegment(c, seg), r.conn, s, |accepted|);
    }
  }

  lemma NothingAhead(c: Conn, s: seq<byte>, k: nat)
    ensures c.segments == [] && c.finSeq == None ==> AheadInv(c, s, k)
  {
  }

  lemma FinWaitReceives(seg: TcpSegment, c: Conn, irs: SeqPoint, s: seq<byte>, accepted: seq<byte>)
    requires c.state.FinWait1? || c.state.FinWait2?
    requires ReceiveInv(c, irs, s, accepted) && FromStream(seg, irs, s, |accepted|)
    ensures var r := if c.state.FinWait1? then HandleFinWait1(seg, c) else HandleFinWait2(seg, c);
            StepReceives(c, seg, r, irs, s, accepted)
  {
    hide CheckSeq, Add, RcvPoint, PieceOf, FromStream, AckedConn, AckedWindow;
    AckedFrame(c, seg.ackNum);
    var data := Bytes(seg.payload);
    AckedFrame(Discard(c, data), seg.ackNum);
    AckedFrame(ConsumeFin(Discard(c, data)), seg.ackNum);
    assert accepted + [] == accepted;
    if seg.flags in {Ack, FinAck} && CheckSeq(seg, c.rcvNxt) == InOrder {
      InOrderCarries(seg, irs, s, |accepted|);
      PieceExtendsPrefix(s, accepted, data);
      RcvPointAdd(irs, |accepted|, |data|);
      RcvPointAdd(irs, |accepted| + |data|, 1);
    }
  }

  /**
   One arriving segment of the client, in any state: what is accepted is the next stretch of the
   client's stream, the FIN is consumed only at its end, and the application is handed exactly
   what is accepted until our own FIN is sent.
   */
  lemma ArrivalReceives(
    app: ServerApp, seg: TcpSegment, c: Conn, now: Time, irs: SeqPoint, s: seq<byte>, accepted: seq<byte>)
    requires BufferInv(c) && ReceiveInv(c, irs, s, accepted)
    requires c.state.PeerFin() || FromStream(seg, irs, s, |accepted|)
    requires HandleKnown(app, seg, c, now).reply.Ok?
    ensures var r := HandleKnown(app, seg, c, now);
            StepReceives(c, seg, r, irs, s, accepted)
  {
    hide Dist, Distinct, CheckSeq, HandleSynRcv, HandleEstablished, Drain, BufferSegment, FinReached, Add, RcvPoint,
         PieceOf, FromStream, CarriesAt, AheadInv, AckedConn, AckedWindow, CloseWaitOrLastAck;
    assert accepted + [] == accepted;
    if c.state.SynReceived? {
      SynRcvReceives(app, seg, c, now, irs, s, accepted);
    } else if c.state.Established? {
      EstablishedReceives(app, seg, c, now, irs, s, accepted);
    } else {
      AckedFrame(c, seg.ackNum);
      if c.state.CloseWait? {
        SendingFrame(AckedConn(c, seg.ackNum), AckedWindow(c, c.state.window, seg), None, now);
      } else if !c.state.PeerFin() {
        FinWaitReceives(seg, c, irs, s, accepted);
      }
    }
  }
}
