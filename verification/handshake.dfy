/** The retransmission queue before the handshake is complete, when the client repeats its SYN. */
module Handshakes {
  import opened Base
  import opened SeqSpace
  import opened Segment
  import opened Pending
  import opened Reassembly
  import opened State
  import opened SendInfos
  import InFlightStream
  import opened SendSide
  import opened Transitions
  import opened Timers
  import opened Runs
  import opened Theorems
  import opened Acknowledgments

  /** How many SYNs arrive in SYN-RECEIVED. */
  ghost function RepeatedSyns(cfg: Config, w: World, events: seq<Event>): nat
    decreases |events|
  {
    if events == [] then 0
    else (if SynArrives(w, events[0]) then 1 else 0) + RepeatedSyns(cfg, Step(cfg, w, events[0]), events[1..])
  }

  /** In SYN-RECEIVED a SYN adds its SYN-ACK to the queue; nothing else that does not end the state changes it. */
  lemma SynAnswered(app: ServerApp, seg: TcpSegment, c: Conn, now: Time)
    requires c.state.SynReceived?
    ensures var r := HandleKnown(app, seg, c, now);
            if seg.flags == Syn then
              var info := SendInfo(c.sndUna, Add(seg.seqNum, 1), SynAck, None);
              r == Replied(c.(pending := c.pending + [NewPending(info, now)]), Some(info), false)
            else r.conn.state.SynReceived? ==> r.conn.pending == c.pending
  {
    hide DataOrAck, DrainTransmittable, CloseWaitOrLastAck, AckedConn, AckedWindow, CheckSeq, Drain, Precedes,
         PrecedesOrEq, DeliverBuffered, Deliver, FinReached;
    var c1 := CompleteHandshake(seg, c);
    OpenFrame(app, seg, c1, c1.state.window, now);
    var c2 := ConsumeFin(Deliver(app, c1, Bytes(seg.payload)));
    DeliverFrame(app, c1, Bytes(seg.payload));
    AckedStays(c2, seg.ackNum);
    ClosingFrame(AckedConn(c2, seg.ackNum), AckedWindow(c2, c1.state.window, seg), now);
  }

  lemma StepCountsSyns(cfg: Config, w: World, e: Event)
    requires Step(cfg, w, e).Live? && Step(cfg, w, e).conn.state.SynReceived?
    ensures w.Live? && w.conn.state.SynReceived?
    ensures |Step(cfg, w, e).conn.pending| == |w.conn.pending| + if SynArrives(w, e) then 1 else 0
  {
    hide HandleKnown, GivesUp, AfterResend, DueEmissions;
    ConnectionsMoveForward(cfg, w.conn, w.hist, e);
    if e.Arrive? {
      SynAnswered(cfg.app, e.seg, w.conn, e.now);
    }
  }

  lemma {:induction false} RunCountsSyns(cfg: Config, w: World, events: seq<Event>)
    requires Run(cfg, w, events).Live? && Run(cfg, w, events).conn.state.SynReceived?
    ensures w.Live? && w.conn.state.SynReceived?
    ensures |Run(cfg, w, events).conn.pending| == |w.conn.pending| + RepeatedSyns(cfg, w, events)
    decreases |events|
  {
    hide Step, SynArrives;
    if events != [] {
      RunCountsSyns(cfg, Step(cfg, w, events[0]), events[1..]);
      StepCountsSyns(cfg, w, events[0]);
    }
  }

  /** In SYN-RECEIVED every pending segment occupies the same sequence number, so only a single one is a chain. */
  lemma SynAcksOverlap(c: Conn, iss: SeqPoint)
    requires c.state.SynReceived? && SendInv(c, iss, [])
    ensures QueueIsChain(c) <==> |c.pending| == 1
  {
    DistAdd(iss, 1);
    assert forall i :: 0 <= i < |c.pending| ==> c.pending[i] in c.pending;
    if |c.pending| > 1 {
      assert c.pending[0].endSeq != c.pending[1].info.seqNum;
    }
  }

  /**
   In every run and every state: the queue is a chain without overlap if and only if the connection
   is synchronized or no SYN has come in SYN-RECEIVED. (There every such SYN adds one SYN-ACK.)
   */
  lemma QueueIsChainExactly(cfg: Config, iss: SeqPoint, syn: TcpSegment, now: Time, events: seq<Event>, w: World)
    requires Reachable(cfg, iss, syn, now, events, w) && w.Live?
    ensures QueueIsChain(w.conn) <==>
              !w.conn.state.SynReceived? || RepeatedSyns(cfg, Opened(iss, syn, now), events) == 0
    ensures w.conn.state.SynReceived? ==> |w.conn.pending| == 1 + RepeatedSyns(cfg, Opened(iss, syn, now), events)
  {
    hide AllSound, Run, RepeatedSyns, QueueIsChain, EmittedTruthful, InFlightStream.InFlight;
    if w.conn.state.SynReceived? {
      ReachableSends(cfg, iss, syn, now, events, w);
      RunCountsSyns(cfg, Opened(iss, syn, now), events);
      SynAcksOverlap(w.conn, iss);
    } else {
      PendingTilesFlight(cfg, iss, syn, now, events, w);
    }
  }

  /** A repeated SYN: two pending SYN-ACKs for the one sequence number ISS. */
  lemma RepeatedSynOverlaps(cfg: Config, now: Time)
    ensures var w := Run(cfg, Opened(0, SYN_SEGMENT, now), [Arrive(SYN_SEGMENT, now)]);
            && Reachable(cfg, 0, SYN_SEGMENT, now, [Arrive(SYN_SEGMENT, now)], w)
            && w.Live? && w.conn.state.SynReceived? && |w.conn.pending| == 2 && !QueueIsChain(w.conn)
  {
    var start := Opened(0, SYN_SEGMENT, now);
    assert [Arrive(SYN_SEGMENT, now)][1..] == [];
    var w := Step(cfg, start, Arrive(SYN_SEGMENT, now));
    var p := NewPending(SendInfo(0, 1, SynAck, None), now);
    assert w.conn.pending == [p, p];
    assert w.conn.pending[0].endSeq != w.conn.pending[1].info.seqNum;
  }

  // How many SYN-ACKs go out

  function SynAckCount(emitted: seq<Emission>): nat {
    if emitted == [] then 0 else (if emitted[0].info.flags == SynAck then 1 else 0) + SynAckCount(emitted[1..])
  }

  lemma {:induction false} SynAckCountConcat(a: seq<Emission>, b: seq<Emission>)
    ensures SynAckCount(a + b) == SynAckCount(a) + SynAckCount(b)
  {
    if a == [] {
      assert a + b == b;
    } else {
      assert (a + b)[1..] == a[1..] + b;
      SynAckCountConcat(a[1..], b);
    }
  }

  lemma {:induction false} NoSynAcks(emitted: seq<Emission>)
    requires forall e :: e in emitted ==> e.info.flags != SynAck
    ensures SynAckCount(emitted) == 0
  {
    if emitted != [] {
      assert emitted[0] in emitted;
      NoSynAcks(emitted[1..]);
    }
  }

  /** How often the pending segments have been sent in all. */
  function Attempts(pending: seq<PendingSegment>): nat {
    if pending == [] then 0 else pending[0].retries + 1 + Attempts(pending[1..])
  }

  lemma {:induction false} AttemptsNext(pending: seq<PendingSegment>, p: PendingSegment)
    ensures Attempts(pending + [p]) == Attempts(pending) + p.retries + 1
  {
    if pending == [] {
      assert [p][1..] == [] && pending + [p] == [p];
    } else {
      assert (pending + [p])[1..] == pending[1..] + [p];
      AttemptsNext(pending[1..], p);
    }
  }

  lemma {:induction false} AttemptsBound(pending: seq<PendingSegment>, maxRetries: byte)
    requires RetriesWithin(pending, maxRetries)
    ensures Attempts(pending) <= |pending| * (maxRetries + 1)
  {
    if pending != [] {
      assert pending[0] in pending;
      AttemptsBound(pending[1..], maxRetries);
      OneMore(|pending[1..]|, maxRetries);
    }
  }

  lemma OneMore(n: nat, maxRetries: byte)
    ensures (n + 1) * (maxRetries + 1) == n * (maxRetries + 1) + maxRetries + 1
  {
  }

  /** A timeout that does not give up sends each due SYN-ACK once more and counts it. */
  lemma {:induction false} ResentAttempts(
    pending: seq<PendingSegment>, q: int, rto: RtoConfig, maxRetries: byte, now: Time)
    requires !GivesUp(pending, rto, maxRetries, now)
    requires forall p :: p in pending ==> p.info.flags == SynAck
    ensures Attempts(AfterResend(pending, rto, now)) ==
            Attempts(pending) + SynAckCount(DueEmissions(pending, q, rto, now))
  {
    hide TimeDue, Consumed;
    if pending != [] {
      var first, rest := pending[0], pending[1..];
      assert first in pending;
      ResentAttempts(rest, q + Consumed(first.info), rto, maxRetries, now);
      var due := if Due(first, rto, now) then [Emission(q, first.info)] else [];
      SynAckCountConcat(due, DueEmissions(rest, q + Consumed(first.info), rto, now));
      assert AfterResend(pending, rto, now)[1..] == AfterResend(rest, rto, now);
    }
  }

  /**
   Of `n` SYN-ACKs made pending each has been sent once and once for each allowed retry at most;
   before the handshake their counters say exactly how often.
   */
  ghost predicate SynAcksCounted(cfg: Config, w: World, n: nat) {
    && SynAckCount(w.hist.emitted) <= n * (cfg.maxRetries + 1)
    && (w.Live? && w.conn.state.SynReceived? ==>
          |w.conn.pending| == n && SynAckCount(w.hist.emitted) == Attempts(w.conn.pending))
  }

  /** Only a SYN in SYN-RECEIVED is answered by a SYN-ACK; anything else that leaves it there leaves the queue alone. */
  lemma SynAcksAnswered(app: ServerApp, seg: TcpSegment, c: Conn, now: Time)
    ensures var r := HandleKnown(app, seg, c, now);
            if c.state.SynReceived? && seg.flags == Syn then
              var info := SendInfo(c.sndUna, Add(seg.seqNum, 1), SynAck, None);
              r == Replied(c.(pending := c.pending + [NewPending(info, now)]), Some(info), false)
            else
              && (c.state.SynReceived? && r.conn.state.SynReceived? ==> r.conn.pending == c.pending)
              && (r.reply.Ok? && r.reply.value.info.Some? ==> r.reply.value.info.value.flags != SynAck)
  {
    hide HandleKnown;
    RepliesAreCurrent(app, seg, c, now);
    if c.state.SynReceived? {
      SynAnswered(app, seg, c, now);
    }
  }

  /** How many SYN-ACKs an event makes pending. */
  function SynsIn(w: World, e: Event): nat {
    if SynArrives(w, e) then 1 else 0
  }

  lemma ArrivalCountsSynAcks(cfg: Config, c: Conn, h: History, seg: TcpSegment, now: Time, n: nat)
    requires SynAcksCounted(cfg, Live(c, h), n)
    ensures SynAcksCounted(cfg, Step(cfg, Live(c, h), Arrive(seg, now)), n + SynsIn(Live(c, h), Arrive(seg, now)))
  {
    hide HandleKnown, Attempts, SynAckCount;
    SynAcksAnswered(cfg.app, seg, c, now);
    OneMore(n, cfg.maxRetries);
    var r := HandleKnown(cfg.app, seg, c, now);
    ReplyCounted(h.emitted, if r.reply.Ok? then r.reply.value.info else None, |h.sent|);
    if c.state.SynReceived? && seg.flags == Syn {
      AttemptsNext(c.pending, NewPending(SendInfo(c.sndUna, Add(seg.seqNum, 1), SynAck, None), now));
    } else if !c.state.SynReceived? {
      StateAdvances(cfg.app, seg, c, now);
    }
  }

  lemma ReplyCounted(emitted: seq<Emission>, info: Option<SendInfo>, q: int)
    ensures SynAckCount(emitted + if info.Some? then [Emission(q, info.value)] else []) ==
            SynAckCount(emitted) + if info.Some? && info.value.flags == SynAck then 1 else 0
  {
    if info.Some? {
      SynAckCountConcat(emitted, [Emission(q, info.value)]);
      assert [Emission(q, info.value)][1..] == [];
    } else {
      assert emitted + [] == emitted;
    }
  }

  lemma TimeoutCountsSynAcks(cfg: Config, c: Conn, h: History, now: Time, n: nat)
    requires SendHistory(cfg, Live(c, h)) && SynAcksCounted(cfg, Live(c, h), n)
    ensures SynAcksCounted(cfg, Step(cfg, Live(c, h), Timeout(now)), n)
  {
    hide GivesUp, AfterResend, DueEmissions, SendInv, EmittedTruthful, SynAckCount, Attempts, RetriesWithin;
    if !GivesUp(c.pending, cfg.rto, cfg.maxRetries, now) {
      SynAckCountConcat(h.emitted, DueEmissions(c.pending, PendingOffset(c, h), cfg.rto, now));
      if c.state.SynReceived? {
        SynAcksPending(c, h.iss, h.sent);
        ResentAttempts(c.pending, PendingOffset(c, h), cfg.rto, cfg.maxRetries, now);
        RetriesStayWithin(c.pending, cfg.rto, cfg.maxRetries, now);
        AttemptsBound(AfterResend(c.pending, cfg.rto, now), cfg.maxRetries);
      } else {
        NoSynAcksDue(c, h, cfg.rto, now);
      }
    }
  }

  lemma SynAcksPending(c: Conn, iss: SeqPoint, sent: seq<byte>)
    requires c.state.SynReceived? && SendInv(c, iss, sent)
    ensures forall p :: p in c.pending ==> p.info.flags == SynAck
  {
  }

  /** After the handshake no SYN-ACK is pending, so none is sent again. */
  lemma NoSynAcksDue(c: Conn, h: History, rto: RtoConfig, now: Time)
    requires !c.state.SynReceived? && SendInv(c, h.iss, h.sent)
    ensures SynAckCount(DueEmissions(c.pending, PendingOffset(c, h), rto, now)) == 0
  {
    hide DueEmissions, AfterResend, InFlightStream.Tiles, InFlightStream.TotalConsumed, Dist, At;
    TilesResent(c.pending, PendingOffset(c, h), h.iss, h.sent, c.state.FinSent(), rto, now);
    NoSynAcks(DueEmissions(c.pending, PendingOffset(c, h), rto, now));
  }

  lemma StepCountsSynAcks(cfg: Config, w: World, e: Event, n: nat)
    requires SendHistory(cfg, w) && SynAcksCounted(cfg, w, n)
    ensures SynAcksCounted(cfg, Step(cfg, w, e), n + SynsIn(w, e))
  {
    hide HandleKnown, GivesUp, AfterResend, DueEmissions, SendHistory, SynAckCount, Attempts;
    if w.Live? {
      match e
      case Arrive(seg, now) => ArrivalCountsSynAcks(cfg, w.conn, w.hist, seg, now, n);
      case Timeout(now) => TimeoutCountsSynAcks(cfg, w.conn, w.hist, now, n);
      case ActiveClose(now) =>
        if w.conn.state.Established? {
          ReplyCounted(w.hist.emitted, Some(CloseActively(w.conn, now).info), |w.hist.sent|);
        }
    }
  }

  lemma {:induction false} RunCountsSynAcks(cfg: Config, w: World, events: seq<Event>, n: nat)
    requires SendHistory(cfg, w) && AllSound(cfg, w, events) && SynAcksCounted(cfg, w, n)
    ensures SynAcksCounted(cfg, Run(cfg, w, events), n + RepeatedSyns(cfg, w, events))
    decreases |events|
  {
    hide Step, SendHistory, SynAcksCounted, Sound, SynArrives;
    if events != [] {
      StepKeepsSendHistory(cfg, w, events[0]);
      StepCountsSynAcks(cfg, w, events[0], n);
      RunCountsSynAcks(cfg, Step(cfg, w, events[0]), events[1..], n + SynsIn(w, events[0]));
    }
  }

  /**
   In every run, SYN-ACKs are emitted at most once and then once for each allowed retry, for the SYN
   that opened the connection and for each SYN that came in SYN-RECEIVED; while the handshake is not
   complete, exactly as often as the retry counters of what is pending say.
   */
  lemma SynAcksAtMost(cfg: Config, iss: SeqPoint, syn: TcpSegment, now: Time, events: seq<Event>, w: World)
    requires Reachable(cfg, iss, syn, now, events, w)
    ensures SynAckCount(w.hist.emitted) <= (1 + RepeatedSyns(cfg, Opened(iss, syn, now), events)) * (cfg.maxRetries + 1)
    ensures w.Live? && w.conn.state.SynReceived? ==> SynAckCount(w.hist.emitted) == Attempts(w.conn.pending)
  {
    hide AllSound, Run, SendHistory, RepeatedSyns;
    OpenedSends(cfg, iss, syn, now);
    OpenedCountsSynAck(cfg, iss, syn, now);
    RunCountsSynAcks(cfg, Opened(iss, syn, now), events, 1);
  }

  lemma OpenedCountsSynAck(cfg: Config, iss: SeqPoint, syn: TcpSegment, now: Time)
    ensures SynAcksCounted(cfg, Opened(iss, syn, now), 1)
  {
    var w := Opened(iss, syn, now);
    assert w.hist.emitted[1..] == [] && w.conn.pending[1..] == [];
  }
}
