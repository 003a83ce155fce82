/** What holds of every run of a connection, from its SYN on. */
module Theorems {
  import opened Base
  import opened SeqSpace
  import opened Segment
  import opened Pending
  import opened Reassembly
  import opened State
  import opened SendInfos
  import opened InFlightStream
  import opened SendSide
  import opened ReceiveSide
  import opened Transitions
  import opened Timers
  import opened Runs
  import opened Coverage

  /** A run whose acknowledgments never slip. */
  ghost predicate Reachable(cfg: Config, iss: SeqPoint, syn: TcpSegment, now: Time, events: seq<Event>, w: World) {
    && AllSound(cfg, Opened(iss, syn, now), events)
    && w == Run(cfg, Opened(iss, syn, now), events)
  }

  /** The same, with every data and FIN segment taken from the client's stream `s`. */
  ghost predicate ReachableWith(
    cfg: Config, iss: SeqPoint, syn: TcpSegment, now: Time, events: seq<Event>, w: World, s: seq<byte>)
  {
    Reachable(cfg, iss, syn, now, events, w) && AllFaithful(cfg, Opened(iss, syn, now), events, s)
  }

  lemma ReachableSends(cfg: Config, iss: SeqPoint, syn: TcpSegment, now: Time, events: seq<Event>, w: World)
    requires Reachable(cfg, iss, syn, now, events, w)
    ensures SendHistory(cfg, w) && w.hist.iss == iss && w.hist.irs == syn.seqNum
  {
    hide SendHistory, AllSound, Run;
    OpenedSends(cfg, iss, syn, now);
    RunKeepsSendHistory(cfg, Opened(iss, syn, now), events);
    RunKeepsOrigin(cfg, Opened(iss, syn, now), events);
  }

  lemma {:induction false} RunKeepsOrigin(cfg: Config, w: World, events: seq<Event>)
    ensures Run(cfg, w, events).hist.iss == w.hist.iss && Run(cfg, w, events).hist.irs == w.hist.irs
    decreases |events|
  {
    hide HandleKnown;
    if events != [] {
      RunKeepsOrigin(cfg, Step(cfg, w, events[0]), events[1..]);
    }
  }

  lemma ReachableReceives(
    cfg: Config, iss: SeqPoint, syn: TcpSegment, now: Time, events: seq<Event>, w: World, s: seq<byte>)
    requires ReachableWith(cfg, iss, syn, now, events, w, s)
    ensures ReceiveHistory(w, s)
  {
    hide SendHistory, ReceiveHistory, AllSound, AllFaithful, Run;
    OpenedSends(cfg, iss, syn, now);
    OpenedReceives(iss, syn, now, s);
    RunKeepsReceiveHistory(cfg, Opened(iss, syn, now), events, s);
  }

  /**
   Receive side. Whatever is lost, repeated or reordered on the way, the application has been
   handed the first bytes of the client's stream, each once and in order, exactly as many as
   RCV.NXT has moved over; the peer's FIN is consumed only once all of the stream has been handed
   over. (After an active close bytes are accepted that the application no longer sees.) Once the
   connection is gone the first of these still holds.
   */
  lemma DeliveredIsPrefix(
    cfg: Config, iss: SeqPoint, syn: TcpSegment, now: Time, events: seq<Event>, w: World, s: seq<byte>)
    requires ReachableWith(cfg, iss, syn, now, events, w, s)
    ensures w.hist.delivered <= w.hist.accepted <= s
    ensures w.Live? ==>
              && w.conn.rcvNxt == At(syn.seqNum + 1 + |w.hist.accepted| + if w.conn.state.PeerFin() then 1 else 0)
              && (w.conn.state.PeerFin() ==> w.hist.accepted == s)
              && (!w.conn.state.FinSent() || w.conn.state.LastAck? ==> w.hist.delivered == w.hist.accepted)
  {
    hide AllSound, AllFaithful, Run, SendHistory, BufferInv, AheadInv, At;
    ReachableReceives(cfg, iss, syn, now, events, w, s);
    ReachableSends(cfg, iss, syn, now, events, w);
    if w.Live? {
      RcvPointIs(syn.seqNum, |w.hist.accepted|, w.conn.state.PeerFin());
    }
  }

  lemma RcvPointIs(irs: SeqPoint, n: nat, fin: bool)
    ensures RcvPoint(irs, n, fin) == At(irs + 1 + n + if fin then 1 else 0)
  {
  }

  lemma {:induction false} RunKeepsBuffer(cfg: Config, w: World, events: seq<Event>)
    requires SendHistory(cfg, w) && AllSound(cfg, w, events) && (w.Live? ==> BufferInv(w.conn))
    ensures Run(cfg, w, events).Live? ==> BufferInv(Run(cfg, w, events).conn)
    decreases |events|
  {
    hide HandleKnown, SendHistory, Slip, BufferInv;
    if events != [] {
      var e := events[0];
      StepKeepsSendHistory(cfg, w, e);
      if w.Live? {
        StepKeepsBuffer(cfg, w.conn, w.hist, e);
      }
      RunKeepsBuffer(cfg, Step(cfg, w, e), events[1..]);
    }
  }

  lemma StepKeepsBuffer(cfg: Config, c: Conn, h: History, e: Event)
    requires SendHistory(cfg, Live(c, h)) && Sound(Live(c, h), e) && BufferInv(c)
    ensures Step(cfg, Live(c, h), e).Live? ==> BufferInv(Step(cfg, Live(c, h), e).conn)
  {
    hide HandleKnown, SendInv, Slip, Truthful, EmittedTruthful, AfterResend, GivesUp, DueEmissions;
    if e.Arrive? {
      ArrivalSends(cfg.app, e.seg, c, e.now, h.iss, h.sent);
      if !HandleKnown(cfg.app, e.seg, c, e.now).reply.value.remove {
        ArrivalKeepsBuffer(cfg.app, e.seg, c, e.now);
      }
    }
  }

  /**
   In ESTABLISHED, whatever arrives: what is buffered has pairwise distinct starts strictly inside the
   receive window.
   */
  lemma BufferedLieAhead(
    cfg: Config, iss: SeqPoint, syn: TcpSegment, now: Time, events: seq<Event>, w: World, b: Buffered)
    requires Reachable(cfg, iss, syn, now, events, w) && w.Live? && w.conn.state.Established? && b in w.conn.segments
    ensures Distinct(w.conn.segments)
    ensures b.start != w.conn.rcvNxt && InWindow(b.start, w.conn.rcvNxt, RCV_WND)
  {
    hide AllSound, Run, SendHistory, InWindow;
    OpenedSends(cfg, iss, syn, now);
    RunKeepsBuffer(cfg, Opened(iss, syn, now), events);
    InWindowExact(b.start, w.conn.rcvNxt, RCV_WND);
  }

  /**
   Send side. The bytes in sequence space followed by those still queued are everything the
   application ever appended; SND.NXT counts the SYN, those bytes and our FIN, once each.
   */
  lemma SentIsConserved(cfg: Config, iss: SeqPoint, syn: TcpSegment, now: Time, events: seq<Event>, w: World)
    requires Reachable(cfg, iss, syn, now, events, w) && w.Live?
    ensures w.hist.sent + w.conn.sendBuffer == cfg.app.Respond(w.hist.delivered)
    ensures w.conn.sndNxt == At(iss + 1 + |w.hist.sent| + FinLen(w.conn.state.FinSent()))
  {
    hide AllSound, Run, Carried, Tiles, Dist;
    ReachableSends(cfg, iss, syn, now, events, w);
  }

  /** What an emission owes the stream: its own bytes at its own place, and a FIN only behind the last byte. */
  lemma HistoryIsStream(cfg: Config, w: World, e: Emission, j: nat)
    requires SendHistory(cfg, w) && e in w.hist.emitted
    ensures j < Len(e.info.payload) ==>
              && 0 <= e.offset + j < |w.hist.sent| && Bytes(e.info.payload)[j] == w.hist.sent[e.offset + j]
              && Add(e.info.seqNum, j) == At(w.hist.iss + 1 + e.offset + j)
    ensures e.info.flags == FinAck ==>
              && e.offset + Len(e.info.payload) == |w.hist.sent|
              && Add(e.info.seqNum, Len(e.info.payload)) == At(w.hist.iss + 1 + |w.hist.sent|)
  {
    hide Add, At, SendInv;
    AddAt(w.hist.iss + 1 + e.offset, j);
    AddAt(w.hist.iss + 1 + e.offset, Len(e.info.payload));
    if j < Len(e.info.payload) {
      assert w.hist.sent[e.offset..e.offset + Len(e.info.payload)][j] == w.hist.sent[e.offset + j];
    }
  }

  /** Emitted data and FINs, first transmissions and retransmissions alike, are the stream's own at their own place. */
  lemma EmittedIsStream(
    cfg: Config, iss: SeqPoint, syn: TcpSegment, now: Time, events: seq<Event>, w: World, e: Emission, j: nat)
    requires Reachable(cfg, iss, syn, now, events, w) && e in w.hist.emitted
    ensures j < Len(e.info.payload) ==>
              && 0 <= e.offset + j < |w.hist.sent| && Bytes(e.info.payload)[j] == w.hist.sent[e.offset + j]
              && Add(e.info.seqNum, j) == At(iss + 1 + e.offset + j)
    ensures e.info.flags == FinAck ==>
              && e.offset + Len(e.info.payload) == |w.hist.sent|
              && Add(e.info.seqNum, Len(e.info.payload)) == At(iss + 1 + |w.hist.sent|)
  {
    hide Reachable, Add, At, SendHistory;
    ReachableSends(cfg, iss, syn, now, events, w);
    HistoryIsStream(cfg, w, e, j);
  }

  lemma ReachableCovers(cfg: Config, iss: SeqPoint, syn: TcpSegment, now: Time, events: seq<Event>, w: World)
    requires Reachable(cfg, iss, syn, now, events, w)
    ensures SentIsEmitted(w.hist)
  {
    hide SendHistory, AllSound, Run, SentIsEmitted;
    OpenedSends(cfg, iss, syn, now);
    OpenedCovers(iss, syn, now);
    RunKeepsCover(cfg, Opened(iss, syn, now), events);
  }

  /** Nothing is only accounted for: every sequenced byte is carried by some emitted segment, and our FIN by another. */
  lemma EverythingSentIsEmitted(
    cfg: Config, iss: SeqPoint, syn: TcpSegment, now: Time, events: seq<Event>, w: World, k: nat) returns (e: Emission)
    requires Reachable(cfg, iss, syn, now, events, w) && (k < |w.hist.sent| || (k == |w.hist.sent| && w.hist.finSent))
    ensures e in w.hist.emitted
    ensures k < |w.hist.sent| ==>
              && e.offset <= k < e.offset + Len(e.info.payload) && Bytes(e.info.payload)[k - e.offset] == w.hist.sent[k]
              && Add(e.info.seqNum, k - e.offset) == At(iss + 1 + k)
    ensures k == |w.hist.sent| ==>
              e.info.flags == FinAck && Add(e.info.seqNum, Len(e.info.payload)) == At(iss + 1 + k)
  {
    hide Reachable, Add, At;
    ReachableCovers(cfg, iss, syn, now, events, w);
    if k < |w.hist.sent| {
      assert ByteEmitted(w.hist, k);
      e :| e in w.hist.emitted && e.offset <= k < e.offset + Len(e.info.payload);
      EmittedIsStream(cfg, iss, syn, now, events, w, e, k - e.offset);
    } else {
      e :| e in w.hist.emitted && e.info.flags == FinAck;
      EmittedIsStream(cfg, iss, syn, now, events, w, e, 0);
    }
  }

  lemma SamePlace(iss: SeqPoint, p: int, q: int)
    requires At(iss + 1 + p) == At(iss + 1 + q) && -MODULUS < p - q < MODULUS
    ensures p == q
  {
  }

  /**
   No two emitted segments disagree: bytes with the same sequence number are the same byte, as long
   as less than all of sequence space has been used, and beyond that whenever they stand for the
   same offset of the stream.
   */
  lemma EmittedNeverDisagree(
    cfg: Config, iss: SeqPoint, syn: TcpSegment, now: Time, events: seq<Event>, w: World, e: Emission, f: Emission,
    i: nat, j: nat)
    requires Reachable(cfg, iss, syn, now, events, w) && e in w.hist.emitted && f in w.hist.emitted
    requires i < Len(e.info.payload) && j < Len(f.info.payload)
    ensures |w.hist.sent| <= MODULUS && Add(e.info.seqNum, i) == Add(f.info.seqNum, j) ==>
              Bytes(e.info.payload)[i] == Bytes(f.info.payload)[j] && e.offset + i == f.offset + j
    ensures e.offset + i == f.offset + j ==>
              Bytes(e.info.payload)[i] == Bytes(f.info.payload)[j] && Add(e.info.seqNum, i) == Add(f.info.seqNum, j)
  {
    hide Reachable, Add, At;
    EmittedIsStream(cfg, iss, syn, now, events, w, e, i);
    EmittedIsStream(cfg, iss, syn, now, events, w, f, j);
    if |w.hist.sent| <= MODULUS && Add(e.info.seqNum, i) == Add(f.info.seqNum, j) {
      SamePlace(iss, e.offset + i, f.offset + j);
    }
  }

  /** LAST-ACK is final: nothing more is sequenced, however the run goes on. */
  lemma {:induction false} LastAckIsFinal(cfg: Config, w: World, events: seq<Event>)
    requires SendHistory(cfg, w) && AllSound(cfg, w, events) && (w.Live? ==> w.conn.state.LastAck?)
    ensures var w' := Run(cfg, w, events);
            && w'.hist.sent == w.hist.sent
            && (w'.Live? && w.Live? ==> w'.conn.state.LastAck? && w'.conn.sndNxt == w.conn.sndNxt)
    ensures w.Gone? ==> Run(cfg, w, events).Gone?
    decreases |events|
  {
    hide HandleKnown, SendHistory, Slip;
    if events != [] {
      var w1 := Step(cfg, w, events[0]);
      StepKeepsSendHistory(cfg, w, events[0]);
      if w.Live? && events[0].Arrive? {
        FrontiersFreeze(cfg.app, events[0].seg, w.conn, events[0].now);
        StateAdvances(cfg.app, events[0].seg, w.conn, events[0].now);
      }
      LastAckIsFinal(cfg, w1, events[1..]);
    }
  }

  /** Data byte `j` of the emission is the response to the byte of `s` at the same place of the outgoing stream. */
  ghost predicate RespondsAt(app: ServerApp, e: Emission, s: seq<byte>, iss: SeqPoint, j: nat)
    requires j < Len(e.info.payload)
  {
    && 0 <= e.offset + j < |s| && Bytes(e.info.payload)[j] == app.RespondByte(s[e.offset + j])
    && Add(e.info.seqNum, j) == At(iss + 1 + e.offset + j)
  }

  ghost predicate Responds(app: ServerApp, e: Emission, s: seq<byte>, iss: SeqPoint) {
    forall j :: 0 <= j < Len(e.info.payload) ==> RespondsAt(app, e, s, iss, j)
  }

  lemma HistoryResponds(cfg: Config, w: World, e: Emission, s: seq<byte>)
    requires SendHistory(cfg, w) && e in w.hist.emitted && w.hist.sent == cfg.app.Respond(s)
    ensures Responds(cfg.app, e, s, w.hist.iss)
  {
    hide SendHistory, Add, At;
    forall j | 0 <= j < Len(e.info.payload)
      ensures RespondsAt(cfg.app, e, s, w.hist.iss, j)
    {
      HistoryIsStream(cfg, w, e, j);
    }
  }

  /**
   What has been emitted is the response to the whole of `s`: every byte of it, byte k at ISS + 1 + k,
   and nothing else, and a FIN right behind the last byte.
   */
  ghost predicate Answered(app: ServerApp, h: History, s: seq<byte>) {
    && h.sent == app.Respond(s)
    && (forall k: nat :: k < |s| ==> ByteEmitted(h, k)) && FinEmitted(h)
    && (forall e :: e in h.emitted ==> Responds(app, e, s, h.iss))
    && (forall e :: e in h.emitted && e.info.flags == FinAck ==>
          && e.offset + Len(e.info.payload) == |s|
          && Add(e.info.seqNum, Len(e.info.payload)) == At(h.iss + 1 + |s|))
  }

  lemma HistoryAnswers(cfg: Config, w: World, s: seq<byte>)
    requires SendHistory(cfg, w) && SentIsEmitted(w.hist) && w.hist.sent == cfg.app.Respond(s) && FinEmitted(w.hist)
    ensures Answered(cfg.app, w.hist, s)
  {
    hide SendHistory, Add, At, Responds;
    forall e | e in w.hist.emitted
      ensures Responds(cfg.app, e, s, w.hist.iss)
      ensures e.info.flags == FinAck ==>
                && e.offset + Len(e.info.payload) == |s|
                && Add(e.info.seqNum, Len(e.info.payload)) == At(w.hist.iss + 1 + |s|)
    {
      HistoryResponds(cfg, w, e, s);
      HistoryIsStream(cfg, w, e, 0);
    }
  }

  /**
   The echo, end to end: in any run in which the passive close reaches LAST-ACK, and however that
   run goes on, the emitted segments are the application's response to the client's whole stream,
   followed by our FIN.
   */
  lemma PassiveEcho(
    cfg: Config, iss: SeqPoint, syn: TcpSegment, now: Time, events: seq<Event>, w: World, later: seq<Event>,
    s: seq<byte>)
    requires ReachableWith(cfg, iss, syn, now, events, w, s) && w.Live? && w.conn.state.LastAck?
    requires AllSound(cfg, w, later)
    ensures var w' := Run(cfg, w, later);
            && w'.hist.iss == iss && Answered(cfg.app, w'.hist, s) && w.hist.delivered == s
            && (w'.Live? ==> w'.conn.sndNxt == At(iss + 1 + |s| + 1))
  {
    hide AllSound, AllFaithful, Run, Carried, Add, At, Dist, InFlight, EmittedTruthful, ReceiveInv, BufferInv,
         Answered, SentIsEmitted;
    DeliveredIsPrefix(cfg, iss, syn, now, events, w, s);
    ReachableSends(cfg, iss, syn, now, events, w);
    SentIsConserved(cfg, iss, syn, now, events, w);
    assert w.hist.sent + [] == w.hist.sent;
    LastAckIsFinal(cfg, w, later);
    RunKeepsSendHistory(cfg, w, later);
    RunKeepsOrigin(cfg, w, later);
    ReachableCovers(cfg, iss, syn, now, events, w);
    CoveredFin(w.hist);
    RunKeepsCover(cfg, w, later);
    RunKeepsEmitted(cfg, w, later);
    EmittedStays(w.hist, Run(cfg, w, later).hist);
    HistoryAnswers(cfg, Run(cfg, w, later), s);
  }

  /** With the echo application the response is the stream itself. */
  lemma EchoRepeats(s: seq<byte>)
    ensures Echo.Respond(s) == s
  {
  }

  /**
   With the shout application it is the stream in capitals: no lower-case letter is left and nothing
   else is altered.
   */
  lemma ShoutCapitalizes(s: seq<byte>, i: nat)
    requires i < |s|
    ensures var r := Shout.Respond(s)[i];
            && !(97 <= r <= 122)
            && (r == s[i] || (97 <= s[i] <= 122 && r + 32 == s[i]))
  {
    assert Shout.RespondByte(s[i]) == Shout.Respond(s)[i];
  }

  /** The pending segments, in order and without gap or overlap, reach from SND.UNA to SND.NXT. */
  ghost predicate QueueIsChain(c: Conn) {
    && (c.pending == [] <==> c.sndUna == c.sndNxt)
    && (forall i :: 0 <= i < |c.pending| - 1 ==> c.pending[i].endSeq == c.pending[i + 1].info.seqNum)
    && (c.pending != [] ==>
          && c.pending[|c.pending| - 1].endSeq == c.sndNxt
          && Dist(c.pending[0].info.seqNum, c.sndUna) < Consumed(c.pending[0].info))
  }

  /** In every synchronized state: what is in flight, what is pending, and where the pending segments lie. */
  lemma PendingTilesFlight(cfg: Config, iss: SeqPoint, syn: TcpSegment, now: Time, events: seq<Event>, w: World)
    requires Reachable(cfg, iss, syn, now, events, w) && w.Live? && !w.conn.state.SynReceived?
    ensures Dist(w.conn.sndUna, w.conn.sndNxt) <= 0x1_0000 && QueueIsChain(w.conn)
  {
    hide AllSound, Run, At, Carried, EmittedTruthful;
    ReachableSends(cfg, iss, syn, now, events, w);
    var c, h := w.conn, w.hist;
    var end := |h.sent| + FinLen(h.finSent);
    var start := end - TotalConsumed(c.pending);
    TilesChain(c.pending, start, iss, h.sent, h.finSent);
    if c.pending != [] {
      AckPosition(iss, end, c.sndUna, c.sndNxt);
      CarriedAt(c.pending[0].info, start, iss, h.sent, h.finSent);
      DistAt(iss + 1 + start, iss + 1 + end - Dist(c.sndUna, c.sndNxt));
      ConsumedBound(c.pending[0].info);
    }
  }

  lemma ConsumedBound(info: SendInfo)
    ensures Consumed(info) <= 0x1_0000
  {
  }

  lemma CarriedAt(info: SendInfo, q: int, iss: SeqPoint, sent: seq<byte>, fin: bool)
    requires Carried(info, q, iss, sent, fin)
    ensures info.seqNum == At(iss + 1 + q)
  {
  }

  lemma {:induction false} TilesChain(pending: seq<PendingSegment>, q: int, iss: SeqPoint, sent: seq<byte>, fin: bool)
    requires Tiles(pending, q, iss, sent, fin)
    ensures forall i :: 0 <= i < |pending| - 1 ==> pending[i].endSeq == pending[i + 1].info.seqNum
    ensures pending != [] ==> pending[|pending| - 1].endSeq == At(iss + 1 + |sent| + FinLen(fin))
  {
    hide At, Carried;
    if |pending| > 0 {
      var rest := pending[1..];
      TilesChain(rest, q + Consumed(pending[0].info), iss, sent, fin);
      if rest != [] {
        CarriedAt(rest[0].info, q + Consumed(pending[0].info), iss, sent, fin);
        assert forall i :: 1 <= i < |pending| - 1 ==> pending[i] == rest[i - 1] && pending[i + 1] == rest[i];
      }
    }
  }

  /**
   Flow control: handling a segment never fails, sends at most one packet's worth of data, and
   every newly sent byte lies within SND.UNA + SND.WND as they stand when it is sent.
   */
  lemma HandlingStaysInWindow(
    cfg: Config, iss: SeqPoint, syn: TcpSegment, now: Time, events: seq<Event>, w: World, seg: TcpSegment, at: Time)
    requires Reachable(cfg, iss, syn, now, events, w) && w.Live? && !Slip(seg, w.conn)
    ensures var r := HandleKnown(cfg.app, seg, w.conn, at);
            && r.reply.Ok?
            && (NewBytes(r) != [] ==>
                  && |NewBytes(r)| <= MAX_PAYLOAD_LEN && !r.conn.state.SynReceived?
                  && Dist(r.conn.sndUna, w.conn.sndNxt) + |NewBytes(r)| <= r.conn.state.window.sndWnd)
  {
    hide AllSound, Run, SendInv, Slip, HandleKnown, Truthful, EmittedTruthful, Dist;
    ReachableSends(cfg, iss, syn, now, events, w);
    ArrivalSends(cfg.app, seg, w.conn, at, w.hist.iss, w.hist.sent);
  }

  /**
   Removal: in every run a connection leaves only by an in-order reset, because a segment has used
   up its retries, or at the end of a close in which our FIN is acknowledged and the peer's FIN
   consumed.
   */
  lemma RemovedGracefully(
    cfg: Config, iss: SeqPoint, syn: TcpSegment, now: Time, events: seq<Event>, w: World, e: Event)
    requires Reachable(cfg, iss, syn, now, events, w) && w.Live? && Step(cfg, w, e).Gone?
    ensures match e
            case Arrive(seg, _) =>
              || (seg.flags in {Rst, RstAck} && seg.seqNum == w.conn.rcvNxt)
              || (w.conn.state.FinSent() && (seg.ackNum == w.conn.sndNxt || w.conn.sndUna == w.conn.sndNxt)
                  && (w.conn.state.PeerFin() || InOrderFin(seg, w.conn)))
            case Timeout(at) => exists p :: p in w.conn.pending && Due(p, cfg.rto, at) && p.retries == cfg.maxRetries
            case ActiveClose(_) => false
  {
    hide AllSound, Run, SendInv, HandleKnown, Truthful, EmittedTruthful;
    ReachableSends(cfg, iss, syn, now, events, w);
    if e.Arrive? {
      RemovedOnlyWhenDone(cfg.app, e.seg, w.conn, e.now, w.hist.iss, w.hist.sent);
    }
  }

  /** A removal on the peer's FIN comes only after the client's whole stream has been accepted. */
  lemma RemovedWithWholeStream(
    cfg: Config, iss: SeqPoint, syn: TcpSegment, now: Time, events: seq<Event>, w: World, seg: TcpSegment, at: Time,
    s: seq<byte>)
    requires ReachableWith(cfg, iss, syn, now, events, w, s) && w.Live?
    requires Sound(w, Arrive(seg, at)) && Faithful(w, Arrive(seg, at), s)
    requires Step(cfg, w, Arrive(seg, at)).Gone? && seg.flags !in {Rst, RstAck}
    ensures Step(cfg, w, Arrive(seg, at)).hist.accepted == s
  {
    hide AllSound, AllFaithful, Run, SendInv, HandleKnown, Truthful, EmittedTruthful, BufferInv, ReceiveInv, Slip,
         FromStream;
    ReachableSends(cfg, iss, syn, now, events, w);
    ReachableReceives(cfg, iss, syn, now, events, w, s);
    StepKeepsReceiveHistory(cfg, w, Arrive(seg, at), s);
    ArrivalReceivesAll(cfg.app, seg, w.conn, at, w.hist, s);
  }

  lemma ArrivalReceivesAll(app: ServerApp, seg: TcpSegment, c: Conn, at: Time, h: History, s: seq<byte>)
    requires BufferInv(c) && ReceiveInv(c, h.irs, s, h.accepted) && SendInv(c, h.iss, h.sent)
    requires c.state.PeerFin() || FromStream(seg, h.irs, s, |h.accepted|)
    requires var r := HandleKnown(app, seg, c, at); r.reply.Ok? && r.reply.value.remove
    requires seg.flags !in {Rst, RstAck} && h.accepted + HandleKnown(app, seg, c, at).accepted <= s
    ensures h.accepted + HandleKnown(app, seg, c, at).accepted == s
  {
    hide BufferInv, AheadInv, SendInv, HandleKnown, FromStream;
    RemovedOnlyWhenDone(app, seg, c, at, h.iss, h.sent);
    ArrivalReceives(app, seg, c, at, h.irs, s, h.accepted);
  }

  /** SYN-RECEIVED and LAST-ACK always have something to retransmit. */
  lemma AlwaysPending(cfg: Config, iss: SeqPoint, syn: TcpSegment, now: Time, events: seq<Event>, w: World)
    requires Reachable(cfg, iss, syn, now, events, w) && w.Live?
    requires w.conn.state.SynReceived? || w.conn.state.LastAck?
    ensures w.conn.pending != []
  {
    hide AllSound, Run, Carried, Tiles, Dist, EmittedTruthful;
    ReachableSends(cfg, iss, syn, now, events, w);
  }

  function Timeouts(times: seq<Time>): seq<Event> {
    seq(|times|, i requires 0 <= i < |times| => Timeout(times[i]))
  }

  lemma {:induction false} RunOfTimeouts(cfg: Config, w: World, times: seq<Time>)
    ensures var w' := Run(cfg, w, Timeouts(times));
            && (w.Gone? ==> w'.Gone?)
            && (w.Live? ==> (w'.Gone? <==> AfterTimeouts(w.conn.pending, times, cfg.rto, cfg.maxRetries) == None))
    decreases |times|
  {
    hide GivesUp, AfterResend, DueEmissions;
    if times != [] {
      assert Timeouts(times)[1..] == Timeouts(times[1..]);
      RunOfTimeouts(cfg, Step(cfg, w, Timeout(times[0])), times[1..]);
    }
  }

  /**
   A peer that falls silent cannot hold a connection: with anything pending, timeouts that each
   find something due remove it after at most as many as the retries its segments have left, plus one.
   */
  lemma SilentPeerRemoved(
    cfg: Config, iss: SeqPoint, syn: TcpSegment, now: Time, events: seq<Event>, w: World, times: seq<Time>)
    requires Reachable(cfg, iss, syn, now, events, w) && w.Live?
    requires EachDue(w.conn.pending, times, cfg.rto) && |times| > |w.conn.pending| * cfg.maxRetries
    ensures Run(cfg, w, Timeouts(times)).Gone?
  {
    hide Reachable, Run;
    RetriesLeftBound(w.conn.pending, cfg.maxRetries);
    SilentPeerGivenUp(w.conn.pending, times, cfg.rto, cfg.maxRetries);
    RunOfTimeouts(cfg, w, times);
  }

  lemma PendingWithin(cfg: Config, iss: SeqPoint, syn: TcpSegment, now: Time, events: seq<Event>, w: World)
    requires Reachable(cfg, iss, syn, now, events, w) && w.Live?
    requires w.conn.pending != [] || w.conn.state.SynReceived? || w.conn.state.LastAck?
    ensures w.conn.pending != [] && RetriesWithin(w.conn.pending, cfg.maxRetries)
  {
    hide AllSound, Run, SendInv, EmittedTruthful, RetriesWithin;
    ReachableSends(cfg, iss, syn, now, events, w);
    if w.conn.pending == [] {
      AlwaysPending(cfg, iss, syn, now, events, w);
    }
  }

  /**
   By the clock: while anything is pending (in SYN-RECEIVED and LAST-ACK always), a caller that wakes
   at the deadlines, with the peer silent from `from` on, sees the connection removed by the time the
   oldest pending segment has waited once for each of its retries, and once more, at the longest timeout.
   */
  lemma SilentPeerRemovedBy(
    cfg: Config, iss: SeqPoint, syn: TcpSegment, now: Time, events: seq<Event>, w: World, from: Time)
    returns (times: seq<Time>)
    requires Reachable(cfg, iss, syn, now, events, w) && w.Live? && cfg.rto.min <= cfg.rto.max
    requires w.conn.pending != [] || w.conn.state.SynReceived? || w.conn.state.LastAck?
    ensures times != [] && AtDeadlines(w.conn.pending, from, times, cfg.rto, cfg.maxRetries)
    ensures Run(cfg, w, Timeouts(times)).Gone?
    ensures w.conn.pending != [] &&
            times[|times| - 1] <= Max(from, w.conn.pending[0].lastSentAt + cfg.rto.max) +
                                  (cfg.maxRetries - w.conn.pending[0].retries) * cfg.rto.max
  {
    hide Reachable, Run, RetriesWithin, AtDeadlines, AfterTimeouts, Timeouts, Max;
    PendingWithin(cfg, iss, syn, now, events, w);
    times := SilentPeerTimes(w.conn.pending, from, cfg.rto, cfg.maxRetries);
    RunOfTimeouts(cfg, w, times);
  }

  /**
   Whatever happens, a connection moves forward through its states or stays; a frontier behind its
   FIN stands still, and neither FIN is ever taken back.
   */
  lemma ConnectionsMoveForward(cfg: Config, c: Conn, h: History, e: Event)
    requires Step(cfg, Live(c, h), e).Live?
    ensures var c' := Step(cfg, Live(c, h), e).conn;
            && (c'.state.SameKind(c.state) || c'.state.Rank() > c.state.Rank())
            && (c.state.FinSent() ==> c'.state.FinSent() && c'.sndNxt == c.sndNxt)
            && (c.state.PeerFin() ==> c'.state.PeerFin() && c'.rcvNxt == c.rcvNxt)
  {
    hide HandleKnown, AfterResend, GivesUp, DueEmissions;
    if e.Arrive? {
      StateAdvances(cfg.app, e.seg, c, e.now);
      FrontiersFreeze(cfg.app, e.seg, c, e.now);
    }
  }

  /** A client that opens with ISN 0 and completes the handshake with an ACK. */
  const SYN_SEGMENT := TcpSegment(
    AddrPair(Ipv4Addr(10, 0, 0, 2), Ipv4Addr(10, 0, 0, 1)), PortPair(40000, 7), 0, 0, 20, Syn, 1000, None)
  const ACK_SEGMENT := SYN_SEGMENT.(seqNum := 1, ackNum := 1, flags := Ack)
  /** Its FIN, acknowledging half of sequence space more than was ever sent. */
  const ANTIPODE_FIN := SYN_SEGMENT.(seqNum := 1, ackNum := 0x8000_0001, flags := FinAck)

  /** The connection right after that handshake. */
  lemma FreshlyEstablished(cfg: Config, now: Time) returns (w: World)
    ensures w == Run(cfg, Opened(0, SYN_SEGMENT, now), [Arrive(ACK_SEGMENT, now)])
    ensures Reachable(cfg, 0, SYN_SEGMENT, now, [Arrive(ACK_SEGMENT, now)], w)
    ensures w.Live? && w.conn == Conn(Established(Establish(ACK_SEGMENT)), 1, 1, 1, [], [], [], None)
    ensures w.hist.accepted == []
  {
    var start := Opened(0, SYN_SEGMENT, now);
    var c := start.conn;
    assert CheckSeq(ACK_SEGMENT, c.rcvNxt) == InOrder;
    HandshakeAck(c, 1);
    var h := HandleKnown(cfg.app, ACK_SEGMENT, c, now);
    assert cfg.app.Respond([]) == [];
    assert h.conn.state == Established(Establish(ACK_SEGMENT)) && h.conn.sndUna == h.conn.sndNxt == h.conn.rcvNxt == 1;
    w := Step(cfg, start, Arrive(ACK_SEGMENT, now));
    assert [Arrive(ACK_SEGMENT, now)][1..] == [];
  }

  /**
   The hypothesis on acknowledgments is needed: on a fresh connection the antipode in a FIN segment
   is acted on, handling fails, and SND.UNA is left half of sequence space past SND.NXT.
   */
  lemma AntipodeSlips(cfg: Config, now: Time)
    ensures var w := Run(cfg, Opened(0, SYN_SEGMENT, now), [Arrive(ACK_SEGMENT, now)]);
            && Reachable(cfg, 0, SYN_SEGMENT, now, [Arrive(ACK_SEGMENT, now)], w)
            && w.Live? && w.conn.state.Established? && Slip(ANTIPODE_FIN, w.conn)
            && var r := HandleKnown(cfg.app, ANTIPODE_FIN, w.conn, now);
               && r.reply.Err? && r.conn.state.Established?
               && r.conn.sndUna == 0x8000_0001 && r.conn.sndNxt == 1
  {
    var w := FreshlyEstablished(cfg, now);
    assert cfg.app.Respond([]) == [];
    assert Antipode(1, 0x8000_0001, 1);
    var c1 := ConsumeFin(Deliver(cfg.app, w.conn, []));
    AntipodeBreaks(c1, 0x8000_0001);
    assert AckedConn(c1, 0x8000_0001).sndNxt == 1;
  }
}
