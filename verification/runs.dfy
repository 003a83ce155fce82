/**
 Whole runs of one connection: a SYN starts it, then segments arrive, timers fire and the server
 may close it, in any order and number. The history of a run records what was accepted, handed to
 the application, put into sequence space and emitted.
 */
module Runs {
  import opened Base
  import opened SeqSpace
  import opened Segment
  import opened Pending
  import opened State
  import opened SendInfos
  import opened InFlightStream
  import opened SendSide
  import opened ReceiveSide
  import opened Transitions
  import opened Timers

  /** An emitted segment, with the data offset it was taken from. */
  datatype Emission = Emission(offset: int, info: SendInfo)

  datatype History = History(
    iss: SeqPoint,
    irs: SeqPoint,
    accepted: seq<byte>,
    delivered: seq<byte>,
    sent: seq<byte>,
    finSent: bool,
    emitted: seq<Emission>,
    offers: seq<TcpSegment>)

  datatype World = Live(conn: Conn, hist: History) | Gone(hist: History)

  datatype Event =
    | Arrive(seg: TcpSegment, now: Time)
    | Timeout(now: Time)
    | ActiveClose(now: Time)

  datatype Config = Config(app: ServerApp, rto: RtoConfig, maxRetries: byte)

  /** The world right after a SYN was answered with a SYN-ACK. */
  function Opened(iss: SeqPoint, syn: TcpSegment, now: Time): World {
    var info := SendInfo(iss, Add(syn.seqNum, 1), SynAck, None);
    Live(FromSynAck(info, now).value, History(iss, syn.seqNum, [], [], [], false, [Emission(0, info)], []))
  }

  /** Whether the window of `seg` is considered in this step. */
  predicate OffersWindow(seg: TcpSegment, c: Conn, r: Handled) {
    (c.state.SynReceived? && !r.conn.state.SynReceived?) || (ReachesAckUpdate(seg, c) && Acceptable(c, seg.ackNum))
  }

  function Recorded(h: History, seg: TcpSegment, c: Conn, r: Handled): History {
    h.(accepted := h.accepted + r.accepted,
       delivered := h.delivered + r.delivered,
       sent := h.sent + NewBytes(r),
       finSent := r.conn.state.FinSent(),
       emitted := h.emitted +
                  if r.reply.Ok? && r.reply.value.info.Some?
                  then [Emission(|h.sent|, r.reply.value.info.value)]
                  else [],
       offers := h.offers + if OffersWindow(seg, c, r) then [seg] else [])
  }

  /** The due segments of a pending list that starts at data offset `q`. */
  function DueEmissions(pending: seq<PendingSegment>, q: int, rto: RtoConfig, now: Time): seq<Emission> {
    if pending == [] then []
    else (if Due(pending[0], rto, now) then [Emission(q, pending[0].info)] else []) +
         DueEmissions(pending[1..], q + Consumed(pending[0].info), rto, now)
  }

  function PendingOffset(c: Conn, h: History): int {
    |h.sent| + FinLen(c.state.FinSent()) - TotalConsumed(c.pending)
  }

  function Step(cfg: Config, w: World, e: Event): World {
    match w
    case Gone(_) => w
    case Live(c, h) =>
      match e
      case Arrive(seg, now) =>
        var r := HandleKnown(cfg.app, seg, c, now);
        var h' := Recorded(h, seg, c, r);
        if r.reply.Ok? && r.reply.value.remove then Gone(h') else Live(r.conn, h')
      case Timeout(now) =>
        if GivesUp(c.pending, cfg.rto, cfg.maxRetries, now) then Gone(h)
        else
          Live(c.(pending := AfterResend(c.pending, cfg.rto, now)),
               h.(emitted := h.emitted + DueEmissions(c.pending, PendingOffset(c, h), cfg.rto, now)))
      case ActiveClose(now) =>
        if !c.state.Established? then w
        else
          var s := CloseActively(c, now);
          Live(s.conn, h.(finSent := true, emitted := h.emitted + [Emission(|h.sent|, s.info)]))
  }

  function Run(cfg: Config, w: World, events: seq<Event>): World
    decreases |events|
  {
    if events == [] then w else Run(cfg, Step(cfg, w, events[0]), events[1..])
  }

  /** The acknowledgment of an arriving segment does not slip. */
  predicate Sound(w: World, e: Event) {
    w.Live? && e.Arrive? ==> !Slip(e.seg, w.conn)
  }

  /** An arriving segment is consistent with the client's stream `s`. */
  ghost predicate Faithful(w: World, e: Event, s: seq<byte>) {
    w.Live? && e.Arrive? && !w.conn.state.PeerFin() ==> FromStream(e.seg, w.hist.irs, s, |w.hist.accepted|)
  }

  ghost predicate AllSound(cfg: Config, w: World, events: seq<Event>)
    decreases |events|
  {
    events != [] ==> Sound(w, events[0]) && AllSound(cfg, Step(cfg, w, events[0]), events[1..])
  }

  /** Segments of the stream `s` may be lost, repeated and reordered at will. */
  ghost predicate AllFaithful(cfg: Config, w: World, events: seq<Event>, s: seq<byte>)
    decreases |events|
  {
    events != [] ==> Faithful(w, events[0], s) && AllFaithful(cfg, Step(cfg, w, events[0]), events[1..], s)
  }

  /** A run cut in two. */
  lemma {:induction false} RunConcat(cfg: Config, w: World, events: seq<Event>, later: seq<Event>)
    ensures Run(cfg, w, events + later) == Run(cfg, Run(cfg, w, events), later)
    ensures AllSound(cfg, w, events + later) <==> AllSound(cfg, w, events) && AllSound(cfg, Run(cfg, w, events), later)
    ensures forall s :: AllFaithful(cfg, w, events + later, s) <==>
              AllFaithful(cfg, w, events, s) && AllFaithful(cfg, Run(cfg, w, events), later, s)
    decreases |events|
  {
    hide Step, Sound, Faithful;
    if events == [] {
      assert [] + later == later;
    } else {
      assert (events + later)[0] == events[0] && (events + later)[1..] == events[1..] + later;
      RunConcat(cfg, Step(cfg, w, events[0]), events[1..], later);
    }
  }

  lemma RunOne(cfg: Config, w: World, e: Event)
    ensures Run(cfg, w, [e]) == Step(cfg, w, e)
    ensures AllSound(cfg, w, [e]) <==> Sound(w, e)
    ensures forall s :: AllFaithful(cfg, w, [e], s) <==> Faithful(w, e, s)
  {
    hide Step, Sound, Faithful;
    var w1 := Step(cfg, w, e);
    assert [e][0] == e && [e][1..] == [];
    assert Run(cfg, w1, []) == w1 && AllSound(cfg, w1, []);
    assert Run(cfg, w, [e]) == Run(cfg, w1, [e][1..]);
    assert AllSound(cfg, w, [e]) == (Sound(w, e) && AllSound(cfg, w1, [e][1..]));
    assert forall s :: AllFaithful(cfg, w, [e], s) == (Faithful(w, e, s) && AllFaithful(cfg, w1, [e][1..], s));
  }

  /** Everything emitted so far is part of the outgoing stream, at its own offset. */
  ghost predicate EmittedTruthful(h: History) {
    forall e :: e in h.emitted ==> Truthful(e.info, e.offset, h.iss, h.sent, h.finSent)
  }

  /** The outgoing stream: nothing is lost, repeated or altered between the application and the wire. */
  ghost predicate SendHistory(cfg: Config, w: World) {
    && EmittedTruthful(w.hist)
    && (w.Live? ==>
          && SendInv(w.conn, w.hist.iss, w.hist.sent) && w.hist.finSent == w.conn.state.FinSent()
          && w.hist.sent + w.conn.sendBuffer == cfg.app.Respond(w.hist.delivered)
          && RetriesWithin(w.conn.pending, cfg.maxRetries))
  }

  lemma TruthfulLater(h: History, data: seq<byte>, fin: bool)
    requires EmittedTruthful(h) && (h.finSent ==> fin && data == [])
    ensures EmittedTruthful(h.(sent := h.sent + data, finSent := fin))
  {
    hide Carried;
    forall e | e in h.emitted && Carried(e.info, e.offset, h.iss, h.sent, h.finSent)
      ensures Carried(e.info, e.offset, h.iss, h.sent + data, fin)
    {
      if h.finSent {
        assert h.sent + data == h.sent;
      } else {
        CarriedExtends(e.info, e.offset, h.iss, h.sent, data, fin);
      }
    }
  }

  lemma ArrivalKeepsSendHistory(cfg: Config, c: Conn, h: History, seg: TcpSegment, now: Time)
    requires SendHistory(cfg, Live(c, h)) && !Slip(seg, c)
    ensures SendHistory(cfg, Step(cfg, Live(c, h), Arrive(seg, now)))
  {
    hide SendInv, Slip, Carried, HandleKnown, Truthful;
    ArrivalSends(cfg.app, seg, c, now, h.iss, h.sent);
    FrontiersFreeze(cfg.app, seg, c, now);
    var r := HandleKnown(cfg.app, seg, c, now);
    TruthfulLater(h, NewBytes(r), r.conn.state.FinSent());
    cfg.app.RespondConcat(h.delivered, r.delivered);
    assert (h.sent + NewBytes(r)) + r.conn.sendBuffer == h.sent + (NewBytes(r) + r.conn.sendBuffer);
    assert h.sent + (c.sendBuffer + cfg.app.Respond(r.delivered)) ==
           (h.sent + c.sendBuffer) + cfg.app.Respond(r.delivered);
    PendingIsReply(cfg.app, seg, c, now);
  }

  /** Sending again changes neither what the pending segments carry nor how they tile the stream. */
  lemma {:induction false} TilesResent(
    pending: seq<PendingSegment>, q: int, iss: SeqPoint, sent: seq<byte>, fin: bool, rto: RtoConfig, now: Time)
    requires Tiles(pending, q, iss, sent, fin)
    ensures Tiles(AfterResend(pending, rto, now), q, iss, sent, fin)
    ensures TotalConsumed(AfterResend(pending, rto, now)) == TotalConsumed(pending)
    ensures forall e :: e in DueEmissions(pending, q, rto, now) ==> Carried(e.info, e.offset, iss, sent, fin)
  {
    hide Carried, At, Rto;
    if pending != [] {
      TilesResent(pending[1..], q + Consumed(pending[0].info), iss, sent, fin, rto, now);
      assert AfterResend(pending, rto, now)[1..] == AfterResend(pending[1..], rto, now);
    }
  }

  lemma {:induction false} PlainResent(pending: seq<PendingSegment>, q: int, rto: RtoConfig, now: Time)
    requires forall p :: p in pending ==> p.info.flags == SynAck && p.info.payload == None
    ensures forall e :: e in DueEmissions(pending, q, rto, now) ==> e.info.flags == SynAck && e.info.payload == None
  {
    if pending != [] {
      PlainResent(pending[1..], q + Consumed(pending[0].info), rto, now);
    }
  }

  /** What is sent again is what was sent before, so it belongs to the stream as it stands. */
  lemma ResentIsTruthful(c: Conn, h: History, rto: RtoConfig, now: Time)
    requires SendInv(c, h.iss, h.sent) && h.finSent == c.state.FinSent()
    ensures SendInv(c.(pending := AfterResend(c.pending, rto, now)), h.iss, h.sent)
    ensures forall e :: e in DueEmissions(c.pending, PendingOffset(c, h), rto, now) ==>
              Truthful(e.info, e.offset, h.iss, h.sent, h.finSent)
  {
    hide Carried, At, Rto, Dist, Tiles, AfterResend, Add, TotalConsumed, DueEmissions, Due;
    var q := PendingOffset(c, h);
    var after := AfterResend(c.pending, rto, now);
    if c.state.SynReceived? {
      assert forall i :: 0 <= i < |after| ==> after[i].info == c.pending[i].info && c.pending[i] in c.pending;
      PlainResent(c.pending, q, rto, now);
    } else {
      TilesResent(c.pending, q, h.iss, h.sent, h.finSent, rto, now);
      assert c.pending != [] ==> after[0].info == c.pending[0].info;
    }
  }

  lemma TimeoutKeepsSendHistory(cfg: Config, c: Conn, h: History, now: Time)
    requires SendHistory(cfg, Live(c, h))
    ensures SendHistory(cfg, Step(cfg, Live(c, h), Timeout(now)))
  {
    hide SendInv, Truthful, GivesUp, AfterResend, DueEmissions, PendingOffset;
    if !GivesUp(c.pending, cfg.rto, cfg.maxRetries, now) {
      RetriesStayWithin(c.pending, cfg.rto, cfg.maxRetries, now);
      ResentIsTruthful(c, h, cfg.rto, now);
    }
  }

  lemma CloseKeepsSendHistory(cfg: Config, c: Conn, h: History, now: Time)
    requires SendHistory(cfg, Live(c, h)) && c.state.Established?
    ensures SendHistory(cfg, Step(cfg, Live(c, h), ActiveClose(now)))
  {
    hide Carried, At, Tiles, Add, Dist;
    AppendInFlight(c.(state := FinWait1(c.state.window)), FinAck, None, now, h.iss, h.sent);
    TruthfulLater(h, [], true);
    assert h.sent + [] == h.sent;
  }

  lemma {:induction false} RunKeepsSendHistory(cfg: Config, w: World, events: seq<Event>)
    requires SendHistory(cfg, w) && AllSound(cfg, w, events)
    ensures SendHistory(cfg, Run(cfg, w, events))
    decreases |events|
  {
    hide Step, SendHistory;
    if events != [] {
      StepKeepsSendHistory(cfg, w, events[0]);
      RunKeepsSendHistory(cfg, Step(cfg, w, events[0]), events[1..]);
    }
  }

  lemma StepKeepsSendHistory(cfg: Config, w: World, e: Event)
    requires SendHistory(cfg, w) && Sound(w, e)
    ensures SendHistory(cfg, Step(cfg, w, e))
  {
    hide SendHistory, HandleKnown, Slip;
    if w.Live? {
      match e
      case Arrive(seg, now) => ArrivalKeepsSendHistory(cfg, w.conn, w.hist, seg, now);
      case Timeout(now) => TimeoutKeepsSendHistory(cfg, w.conn, w.hist, now);
      case ActiveClose(now) =>
        if w.conn.state.Established? {
          CloseKeepsSendHistory(cfg, w.conn, w.hist, now);
        }
    }
  }

  lemma OpenedSends(cfg: Config, iss: SeqPoint, syn: TcpSegment, now: Time)
    ensures SendHistory(cfg, Opened(iss, syn, now))
  {
    hide Carried, InFlight, Add, At;
    assert [] + [] == cfg.app.Respond([]);
  }

  /**
   The incoming stream: what is accepted, and what the application has been handed, is a prefix of
   the client's stream; until we close on our own the two are the same.
   */
  ghost predicate ReceiveHistory(w: World, s: seq<byte>) {
    && w.hist.accepted <= s && w.hist.delivered <= w.hist.accepted
    && (w.Live? ==>
          && BufferInv(w.conn) && ReceiveInv(w.conn, w.hist.irs, s, w.hist.accepted)
          && (!w.conn.state.FinSent() || w.conn.state.LastAck? ==> w.hist.delivered == w.hist.accepted))
  }

  lemma ArrivalKeepsReceiveHistory(cfg: Config, c: Conn, h: History, seg: TcpSegment, now: Time, s: seq<byte>)
    requires ReceiveHistory(Live(c, h), s) && SendHistory(cfg, Live(c, h)) && !Slip(seg, c)
    requires c.state.PeerFin() || FromStream(seg, h.irs, s, |h.accepted|)
    ensures ReceiveHistory(Step(cfg, Live(c, h), Arrive(seg, now)), s)
  {
    hide HandleKnown, SendInv, Slip, Truthful, FromStream, BufferInv, AheadInv, NewBytes;
    ArrivalSends(cfg.app, seg, c, now, h.iss, h.sent);
    ArrivalReceives(cfg.app, seg, c, now, h.irs, s, h.accepted);
    FrontiersFreeze(cfg.app, seg, c, now);
    var r := HandleKnown(cfg.app, seg, c, now);
    if !r.reply.value.remove {
      ArrivalKeepsBuffer(cfg.app, seg, c, now);
      if c.state.PeerFin() {
        assert r.accepted == [];
      }
    }
  }

  lemma StepKeepsReceiveHistory(cfg: Config, w: World, e: Event, s: seq<byte>)
    requires ReceiveHistory(w, s) && SendHistory(cfg, w) && Sound(w, e) && Faithful(w, e, s)
    ensures ReceiveHistory(Step(cfg, w, e), s)
  {
    hide SendHistory, HandleKnown, Slip, FromStream;
    if w.Live? && e.Arrive? {
      ArrivalKeepsReceiveHistory(cfg, w.conn, w.hist, e.seg, e.now, s);
    }
  }

  lemma {:induction false} RunKeepsReceiveHistory(cfg: Config, w: World, events: seq<Event>, s: seq<byte>)
    requires ReceiveHistory(w, s) && SendHistory(cfg, w) && AllSound(cfg, w, events) && AllFaithful(cfg, w, events, s)
    ensures ReceiveHistory(Run(cfg, w, events), s)
    decreases |events|
  {
    hide Step, SendHistory, ReceiveHistory, Faithful;
    if events != [] {
      StepKeepsSendHistory(cfg, w, events[0]);
      StepKeepsReceiveHistory(cfg, w, events[0], s);
      RunKeepsReceiveHistory(cfg, Step(cfg, w, events[0]), events[1..], s);
    }
  }

  lemma OpenedReceives(iss: SeqPoint, syn: TcpSegment, now: Time, s: seq<byte>)
    ensures ReceiveHistory(Opened(iss, syn, now), s)
  {
  }
}
