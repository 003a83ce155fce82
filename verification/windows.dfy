/** Which segment the peer's window is taken from, over a whole run. */
module Windows {
  import opened SeqSpace
  import opened Segment
  import opened Pending
  import Reassembly
  import opened State
  import opened SendInfos
  import opened SendSide
  import opened Transitions
  import opened Runs

  /** The window after a handshake segment and the later segments that offered theirs, in order of arrival. */
  function Offered(offers: seq<TcpSegment>): WindowState
    requires offers != []
  {
    var last := |offers| - 1;
    if last == 0 then Establish(offers[0]) else Freshened(Offered(offers[..last]), offers[last])
  }

  /** The window of a connection is what its offers, taken one by one, have made of it. */
  ghost predicate WindowHistory(w: World) {
    w.Live? ==>
      && (w.conn.state.SynReceived? <==> w.hist.offers == [])
      && (!w.conn.state.SynReceived? ==> w.conn.state.window == Offered(w.hist.offers))
  }

  /** The handshake takes the window of the segment that completes it, even if that closes at once. */
  lemma HandshakeWindow(app: ServerApp, seg: TcpSegment, c: Conn, now: Time)
    requires c.state.SynReceived?
    ensures var c' := HandleKnown(app, seg, c, now).conn;
            !c'.state.SynReceived? ==> c'.state.window == Establish(seg)
  {
    hide HandleSynRcv;
    SynRcvNext(app, seg, c, now);
  }

  lemma StepKeepsWindow(cfg: Config, w: World, e: Event)
    requires WindowHistory(w) && SendHistory(cfg, w) && Sound(w, e)
    ensures WindowHistory(Step(cfg, w, e))
  {
    hide HandleKnown, SendInv, Slip, EmittedTruthful, ReachesAckUpdate, Acceptable, Truthful, Freshened;
    if w.Live? && e.Arrive? {
      var c, h := w.conn, w.hist;
      var r := HandleKnown(cfg.app, e.seg, c, e.now);
      ArrivalSends(cfg.app, e.seg, c, e.now, h.iss, h.sent);
      if !r.reply.value.remove {
        if c.state.SynReceived? {
          HandshakeWindow(cfg.app, e.seg, c, e.now);
          NoUpdateYet(e.seg, c);
        } else {
          WindowStep(cfg.app, e.seg, c, e.now);
          assert (h.offers + [e.seg])[..|h.offers|] == h.offers;
          assert h.offers + [] == h.offers;
        }
      }
    }
  }

  lemma NoUpdateYet(seg: TcpSegment, c: Conn)
    requires c.state.SynReceived?
    ensures !ReachesAckUpdate(seg, c)
  {
  }

  lemma {:induction false} RunKeepsWindow(cfg: Config, w: World, events: seq<Event>)
    requires WindowHistory(w) && SendHistory(cfg, w) && AllSound(cfg, w, events)
    ensures WindowHistory(Run(cfg, w, events))
    decreases |events|
  {
    hide Step, SendHistory, WindowHistory, Sound;
    if events != [] {
      StepKeepsWindow(cfg, w, events[0]);
      StepKeepsSendHistory(cfg, w, events[0]);
      RunKeepsWindow(cfg, Step(cfg, w, events[0]), events[1..]);
    }
  }

  /** Unbounded positions of SEG.SEQ and SEG.ACK behind a segment. */
  datatype Position = Position(seqPos: int, ackPos: int)

  predicate NotNewer(p: Position, q: Position) {
    p.seqPos < q.seqPos || (p.seqPos == q.seqPos && p.ackPos <= q.ackPos)
  }

  ghost predicate PositionOf(seg: TcpSegment, p: Position) {
    seg.seqNum == At(p.seqPos) && seg.ackNum == At(p.ackPos)
  }

  /** The newest of some positions. */
  function Newest(positions: seq<Position>): Position
    requires positions != []
  {
    var last := |positions| - 1;
    if last == 0 then positions[0]
    else if NotNewer(Newest(positions[..last]), positions[last]) then positions[last]
    else Newest(positions[..last])
  }

  predicate HalfApart(p: Position, q: Position) {
    -HALF < p.seqPos - q.seqPos < HALF && -HALF < p.ackPos - q.ackPos < HALF
  }

  /** Each position lies within half of sequence space of the newest one before it. */
  ghost predicate StayNear(positions: seq<Position>) {
    |positions| > 1 ==>
      var last := |positions| - 1;
      HalfApart(Newest(positions[..last]), positions[last]) && StayNear(positions[..last])
  }

  lemma FreshIsNewer(a: TcpSegment, p: Position, b: TcpSegment, q: Position)
    requires PositionOf(a, p) && PositionOf(b, q)
    requires HalfApart(p, q)
    ensures Fresh(Establish(a), b) <==> NotNewer(p, q)
  {
    hide Precedes, PrecedesOrEq;
    PrecedesAgrees(p.seqPos, q.seqPos);
    PrecedesAgrees(p.ackPos, q.ackPos);
  }

  /**
   Whatever the order of arrival, the window comes from the segment with the newest (SEG.SEQ,
   SEG.ACK), the latest arrival among equals. The run may be as long as it likes: each offer only
   has to lie within half of sequence space of the newest one before it.
   */
  lemma {:induction false} NewestOfferWins(offers: seq<TcpSegment>, positions: seq<Position>) returns (n: nat)
    requires offers != [] && |positions| == |offers| && StayNear(positions)
    requires forall i :: 0 <= i < |offers| ==> PositionOf(offers[i], positions[i])
    ensures n < |offers| && Offered(offers) == WindowState(offers[n].window, offers[n].seqNum, offers[n].ackNum)
    ensures positions[n] == Newest(positions)
    ensures forall i :: 0 <= i < |offers| ==> NotNewer(positions[i], positions[n])
    ensures forall i :: n < i < |offers| ==> !NotNewer(positions[n], positions[i])
  {
    hide PositionOf, Fresh, HalfApart;
    var last := |offers| - 1;
    if last == 0 {
      n := 0;
    } else {
      n := NewestOfferWins(offers[..last], positions[..last]);
      FreshIsNewer(offers[n], positions[n], offers[last], positions[last]);
      if Fresh(Establish(offers[n]), offers[last]) {
        n := last;
      }
    }
  }

  /** The same of every reachable connection. */
  lemma WindowIsNewest(
    cfg: Config, iss: SeqPoint, syn: TcpSegment, now: Time, events: seq<Event>, w: World, positions: seq<Position>)
    returns (n: nat)
    requires AllSound(cfg, Opened(iss, syn, now), events) && w == Run(cfg, Opened(iss, syn, now), events)
    requires w.Live? && !w.conn.state.SynReceived?
    requires |positions| == |w.hist.offers| && StayNear(positions)
    requires forall i :: 0 <= i < |positions| ==> PositionOf(w.hist.offers[i], positions[i])
    ensures n < |positions| && var offer := w.hist.offers[n];
            w.conn.state.window == WindowState(offer.window, offer.seqNum, offer.ackNum)
    ensures forall i :: 0 <= i < |positions| ==> NotNewer(positions[i], positions[n])
    ensures forall i :: n < i < |positions| ==> !NotNewer(positions[n], positions[i])
  {
    hide AllSound, Run, SendHistory, PositionOf, StayNear, Offered;
    OpenedSends(cfg, iss, syn, now);
    RunKeepsWindow(cfg, Opened(iss, syn, now), events);
    n := NewestOfferWins(w.hist.offers, positions);
  }
}
