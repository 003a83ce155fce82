/**
 What one segment does, of every connection a run can reach, and what follows from it: how much is sent,
 when a waiting FIN is consumed, and that everything taken is acknowledged.
 */
module EverySteps {
  import opened Base
  import opened SeqSpace
  import opened Segment
  import opened Pending
  import opened Reassembly
  import opened State
  import opened SendInfos
  import opened SendSide
  import opened ReceiveSide
  import opened Runs
  import opened Theorems
  import opened OneStep

  lemma ReachableBuffers(cfg: Config, iss: SeqPoint, syn: TcpSegment, now: Time, events: seq<Event>, w: World)
    requires Reachable(cfg, iss, syn, now, events, w) && w.Live?
    ensures BufferInv(w.conn) && SendInv(w.conn, w.hist.iss, w.hist.sent)
  {
    hide AllSound, Run, SendInv, EmittedTruthful, BufferInv;
    OpenedSends(cfg, iss, syn, now);
    OpenedBuffers(iss, syn, now);
    RunKeepsBuffer(cfg, Opened(iss, syn, now), events);
    ReachableSends(cfg, iss, syn, now, events, w);
  }

  lemma OpenedBuffers(iss: SeqPoint, syn: TcpSegment, now: Time)
    ensures BufferInv(Opened(iss, syn, now).conn)
  {
  }

  /** In every run, every segment does exactly what the one pass over the fields says. */
  lemma EveryStepIs(
    cfg: Config, iss: SeqPoint, syn: TcpSegment, now: Time, events: seq<Event>, w: World, seg: TcpSegment, at: Time)
    requires Reachable(cfg, iss, syn, now, events, w) && w.Live?
    ensures BufferInv(w.conn) && StepIs(cfg.app, seg, w.conn, at, HandleKnown(cfg.app, seg, w.conn, at))
  {
    hide Reachable, SendInv, BufferInv, StepIs, HandleKnown;
    ReachableBuffers(cfg, iss, syn, now, events, w);
    StepIsExactly(cfg.app, seg, w.conn, at, w.hist.iss, w.hist.sent);
  }

  // How much is sent

  /**
   As many bytes as possible: a step that sends less than a full packet leaves nothing queued or has used
   up the window; and a step sends if and only if it acts on a segment that lets the queue drain.
   */
  lemma SendsAllItMay(
    cfg: Config, iss: SeqPoint, syn: TcpSegment, now: Time, events: seq<Event>, w: World, seg: TcpSegment, at: Time)
    requires Reachable(cfg, iss, syn, now, events, w) && w.Live? && !Slip(seg, w.conn)
    ensures var r := HandleKnown(cfg.app, seg, w.conn, at);
            && r.reply.Ok?
            && (!Sends(seg, w.conn) ==> NewBytes(r) == [])
            && (Sends(seg, w.conn) ==>
                  && !r.conn.state.SynReceived? && |NewBytes(r)| <= 1460
                  && NewBytes(r) + r.conn.sendBuffer == w.conn.sendBuffer + cfg.app.Respond(r.delivered)
                  && (|NewBytes(r)| < 1460 ==>
                        || r.conn.sendBuffer == []
                        || Dist(r.conn.sndUna, w.conn.sndNxt) + |NewBytes(r)| >= r.conn.state.window.sndWnd))
  {
    hide Reachable, SendInv, BufferInv, StepIs, Slip, HandleKnown, Sends, Dist;
    EveryStepIs(cfg, iss, syn, now, events, w, seg, at);
    ReachableBuffers(cfg, iss, syn, now, events, w);
    ArrivalSends(cfg.app, seg, w.conn, at, w.hist.iss, w.hist.sent);
    StepSendsAll(cfg.app, seg, w.conn, at, HandleKnown(cfg.app, seg, w.conn, at));
  }

  lemma SendingStates(seg: TcpSegment, c: Conn)
    requires Sends(seg, c)
    ensures c.state.SynReceived? ==> Opens(seg, c)
    ensures !Challenged(seg, c) && !Refuses(seg, c) && !(c.state.SynReceived? && seg.flags == Syn)
    ensures c.state.SynReceived? || c.state.Established? || c.state.CloseWait?
  {
    hide Dist;
  }

  lemma StepSendsAll(app: ServerApp, seg: TcpSegment, c: Conn, at: Time, r: Handled)
    requires BufferInv(c) && StepIs(app, seg, c, at, r) && r.reply.Ok?
    ensures !Sends(seg, c) ==> NewBytes(r) == []
    ensures Sends(seg, c) ==>
              && !r.conn.state.SynReceived? && |NewBytes(r)| <= 1460
              && (|NewBytes(r)| < 1460 ==>
                    || r.conn.sendBuffer == []
                    || Dist(r.conn.sndUna, c.sndNxt) + |NewBytes(r)| >= r.conn.state.window.sndWnd)
  {
    hide Dist, Add, Opens, Heeded, Takes, Keeps, Sends, Challenged, Refuses, BuffersRight, AcceptedBytes, TakesFin,
         DeliveredBytes, WindowAfter, UnaAfter, PendingAfter, BufferInv;
    if Sends(seg, c) {
      SendingStates(seg, c);
      var fin := TakesFin(seg, c);
      SendFromStays(Received(app, seg, c), WindowAfter(seg, c).sndWnd, fin || c.state.CloseWait?, at);
    }
  }

  // A FIN that waits

  /**
   In every run of a client with stream `s`: a FIN recorded in ESTABLISHED stands at the end of `s` and
   strictly ahead, so something is still missing.
   */
  lemma WaitingFinIsAhead(
    cfg: Config, iss: SeqPoint, syn: TcpSegment, now: Time, events: seq<Event>, w: World, s: seq<byte>)
    requires ReachableWith(cfg, iss, syn, now, events, w, s) && w.Live? && w.conn.state.Established?
    requires w.conn.finSeq.Some?
    ensures w.conn.finSeq == Some(At(syn.seqNum + 1 + |s|)) && w.conn.finSeq.value != w.conn.rcvNxt
    ensures |w.hist.accepted| < |s|
  {
    hide AllSound, AllFaithful, Run, SendHistory, At, Dist, Distinct;
    ReachableReceives(cfg, iss, syn, now, events, w, s);
    ReachableSends(cfg, iss, syn, now, events, w);
    var k := |w.hist.accepted|;
    DistZero(w.conn.rcvNxt, w.conn.finSeq.value);
    AheadPoint(syn.seqNum + 1 + k, w.conn.finSeq.value);
    RcvPointIs(syn.seqNum, k, false);
  }

  lemma AheadPoint(pos: int, p: SeqPoint)
    ensures p == At(pos + Dist(At(pos), p))
  {
  }

  /**
   Once a FIN is recorded, in-order data completes the stream if and only if the FIN is consumed with it:
   RCV.NXT then stands behind it, and the connection is on its way to LAST-ACK.
   */
  lemma WaitingFinIsTaken(
    cfg: Config, iss: SeqPoint, syn: TcpSegment, now: Time, events: seq<Event>, w: World, s: seq<byte>,
    seg: TcpSegment, at: Time)
    requires ReachableWith(cfg, iss, syn, now, events, w, s) && w.Live? && w.conn.state.Established?
    requires w.conn.finSeq.Some? && !Slip(seg, w.conn) && Faithful(w, Arrive(seg, at), s)
    requires seg.flags == Ack && seg.payload != None && Takes(seg, w.conn)
    ensures var r := HandleKnown(cfg.app, seg, w.conn, at);
            var all := w.hist.accepted + r.accepted;
            && |r.accepted| > 0 && all <= s
            && (all == s <==> r.conn.state.CloseWait? || r.conn.state.LastAck?)
            && r.conn.rcvNxt == At(syn.seqNum + 1 + |all| + if all == s then 1 else 0)
            && (all != s ==> r.conn.state.Established? && r.conn.finSeq == w.conn.finSeq)
  {
    hide AllSound, AllFaithful, Run, SendHistory, StepIs, Slip, HandleKnown, BufferInv, Takes, FromStream, AheadInv, At;
    EveryStepIs(cfg, iss, syn, now, events, w, seg, at);
    ReachableReceives(cfg, iss, syn, now, events, w, s);
    ReachableSends(cfg, iss, syn, now, events, w);
    ReachableBuffers(cfg, iss, syn, now, events, w);
    var r := HandleKnown(cfg.app, seg, w.conn, at);
    ArrivalSends(cfg.app, seg, w.conn, at, w.hist.iss, w.hist.sent);
    ArrivalReceives(cfg.app, seg, w.conn, at, syn.seqNum, s, w.hist.accepted);
    FinByDistance(cfg.app, seg, w.conn, at, r);
    AheadIs(w.conn, s, |w.hist.accepted|);
    RcvPointIs(syn.seqNum, |w.hist.accepted + r.accepted|, r.conn.state.PeerFin());
  }

  lemma AheadIs(c: Conn, s: seq<byte>, k: nat)
    requires AheadInv(c, s, k) && c.finSeq.Some?
    ensures k + Dist(c.rcvNxt, c.finSeq.value) == |s|
  {
  }

  lemma FinByDistance(app: ServerApp, seg: TcpSegment, c: Conn, at: Time, r: Handled)
    requires BufferInv(c) && StepIs(app, seg, c, at, r) && c.state.Established? && c.finSeq.Some?
    requires seg.flags == Ack && seg.payload != None && Takes(seg, c) && r.reply.Ok?
    ensures |r.accepted| > 0 && !r.reply.value.remove
    ensures Dist(c.rcvNxt, c.finSeq.value) <= |r.accepted| <==> r.conn.state.CloseWait? || r.conn.state.LastAck?
    ensures Dist(c.rcvNxt, c.finSeq.value) > |r.accepted| ==> r.conn.state.Established? && r.conn.finSeq == c.finSeq
  {
    hide Dist, Add, Opens, Heeded, SendFrom, BuffersRight, WindowAfter, UnaAfter, PendingAfter, ChainFrom, BufferInv,
         ReplyTo;
    var fin := TakesFin(seg, c);
    SendFromStays(Received(app, seg, c), WindowAfter(seg, c).sndWnd, fin, at);
  }
}
