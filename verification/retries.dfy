/** How often one and the same piece of the outgoing stream is emitted, over a whole run. */
module Retransmissions {
  import opened Base
  import opened SeqSpace
  import opened Segment
  import opened Pending
  import opened State
  import opened SendInfos
  import opened InFlightStream
  import opened SendSide
  import opened Transitions
  import opened Timers
  import opened Runs
  import opened Theorems

  /** A segment that carries data or a FIN, and so is sent again until acknowledged. */
  predicate IsData(info: SendInfo) {
    info.payload != None || info.flags == FinAck
  }

  function StreamEnd(c: Conn, h: History): nat {
    |h.sent| + FinLen(c.state.FinSent())
  }

  /** The offset of a pending segment in the outgoing stream, read off its distance from SND.NXT. */
  function Place(c: Conn, h: History, p: PendingSegment): (e: Emission)
    ensures e.info == p.info
  {
    Emission(StreamEnd(c, h) - Dist(p.info.seqNum, c.sndNxt), p.info)
  }

  /** As a tile at offset `q`, not far from the end. */
  ghost predicate PlacedAt(c: Conn, h: History, p: PendingSegment, q: int) {
    && Carried(p.info, q, h.iss, h.sent, c.state.FinSent()) && Consumed(p.info) > 0
    && StreamEnd(c, h) - 0x4_0000 < q && q + Consumed(p.info) <= StreamEnd(c, h)
  }

  lemma PlaceIs(c: Conn, h: History, p: PendingSegment, q: int)
    requires PlacedAt(c, h, p, q) && c.sndNxt == At(h.iss + 1 + StreamEnd(c, h))
    ensures Place(c, h, p) == Emission(q, p.info)
  {
    hide Carried, At, Dist;
    CarriedAt(p.info, q, h.iss, h.sent, c.state.FinSent());
    DistAt(h.iss + 1 + q, h.iss + 1 + StreamEnd(c, h));
  }

  /** Every tile is placed, and its offset is what its distance from SND.NXT says. */
  lemma {:induction false} TilesPlaced(c: Conn, h: History, pending: seq<PendingSegment>, q: int)
    requires Tiles(pending, q, h.iss, h.sent, c.state.FinSent())
    requires c.sndNxt == At(h.iss + 1 + StreamEnd(c, h)) && StreamEnd(c, h) - 0x4_0000 < q
    ensures forall p :: p in pending ==> PlacedAt(c, h, p, Place(c, h, p).offset) && Place(c, h, p).offset >= q
  {
    hide Carried, At, Dist, PlacedAt, Place;
    if pending != [] {
      var n := Consumed(pending[0].info);
      TilesTotal(pending, q, h.iss, h.sent, c.state.FinSent());
      TilesPlaced(c, h, pending[1..], q + n);
      HeadPlaced(c, h, pending, q);
    }
  }

  lemma HeadPlaced(c: Conn, h: History, pending: seq<PendingSegment>, q: int)
    requires pending != [] && Tiles(pending, q, h.iss, h.sent, c.state.FinSent())
    requires q + TotalConsumed(pending) == StreamEnd(c, h)
    requires c.sndNxt == At(h.iss + 1 + StreamEnd(c, h)) && StreamEnd(c, h) - 0x4_0000 < q
    ensures PlacedAt(c, h, pending[0], q) && Place(c, h, pending[0]) == Emission(q, pending[0].info)
  {
    hide Carried, At, Dist, Place;
    PlaceIs(c, h, pending[0], q);
  }

  lemma PendingPlaced(c: Conn, h: History)
    requires SendInv(c, h.iss, h.sent) && !c.state.SynReceived?
    ensures c.sndNxt == At(h.iss + 1 + StreamEnd(c, h))
    ensures forall p :: p in c.pending ==> PlacedAt(c, h, p, Place(c, h, p).offset)
    ensures c.pending != [] ==> StreamEnd(c, h) - 0x4_0000 < PendingStart(c, h)
    ensures Tiles(c.pending, PendingStart(c, h), h.iss, h.sent, c.state.FinSent())
  {
    hide Carried, At, Tiles, Dist, PlacedAt, Place;
    if c.pending != [] {
      ConsumedBound(c.pending[0].info);
      TilesPlaced(c, h, c.pending, PendingStart(c, h));
    }
  }

  function PendingStart(c: Conn, h: History): int {
    StreamEnd(c, h) - TotalConsumed(c.pending)
  }

  /** A placed segment keeps its place when the connection moves on. */
  lemma PlaceStays(c: Conn, h: History, c': Conn, h': History, p: PendingSegment, q: int, q': int)
    requires PlacedAt(c, h, p, q) && PlacedAt(c', h', p, q')
    requires h'.iss == h.iss && 0 <= StreamEnd(c', h') - StreamEnd(c, h) < 0x4_0000
    ensures q == q'
  {
    hide Carried, At;
    CarriedAt(p.info, q, h.iss, h.sent, c.state.FinSent());
    CarriedAt(p.info, q', h'.iss, h'.sent, c'.state.FinSent());
    SamePlace(h.iss, q, q');
  }

  /** How often `x` has been emitted. */
  function Times(h: History, x: Emission): nat {
    multiset(h.emitted)[x]
  }

  /** Whatever is pending has been emitted once and then once for each retry; nothing more often than allowed. */
  ghost predicate Counted(cfg: Config, w: World) {
    && (forall x :: x in w.hist.emitted && IsData(x.info) ==> Times(w.hist, x) <= cfg.maxRetries + 1)
    && (w.Live? && !w.conn.state.SynReceived? ==>
          forall p :: p in w.conn.pending ==> Times(w.hist, Place(w.conn, w.hist, p)) == p.retries + 1)
  }

  /** Before our FIN nothing with data has been emitted at the end of the stream. */
  lemma EndIsNew(h: History, info: SendInfo)
    requires EmittedTruthful(h) && IsData(info) && (!h.finSent || info.payload != None)
    ensures Emission(|h.sent|, info) !in h.emitted
  {
    var x := Emission(|h.sent|, info);
    if x in h.emitted {
      TruthfulOf(h, x);
    }
  }

  lemma TruthfulOf(h: History, x: Emission)
    requires EmittedTruthful(h) && x in h.emitted
    ensures Truthful(x.info, x.offset, h.iss, h.sent, h.finSent)
  {
  }

  /** Behind our FIN replies are bare. */
  lemma BareBehindFin(app: ServerApp, seg: TcpSegment, c: Conn, now: Time)
    requires c.state.FinSent()
    ensures var info := ReplyOf(HandleKnown(app, seg, c, now)); info.Some? ==> !IsData(info.value)
  {
    hide AckedConn, AckedWindow, CheckSeq;
  }

  lemma TimesAppend(h: History, h': History, added: seq<Emission>, x: Emission)
    requires h'.emitted == h.emitted + added
    ensures Times(h', x) == Times(h, x) + multiset(added)[x]
  {
    assert multiset(h.emitted + added) == multiset(h.emitted) + multiset(added);
  }

  lemma OneEmission(y: Emission, x: Emission)
    ensures multiset([y])[x] == if x == y then 1 else 0
  {
  }

  /** A step that sends `info`, if anything, for the first time keeps the counts. */
  lemma FirstTime(cfg: Config, c: Conn, h: History, c': Conn, h': History, info: Option<SendInfo>)
    requires SendHistory(cfg, Live(c, h)) && Counted(cfg, Live(c, h))
    requires SendInv(c', h.iss, h'.sent)
    requires h'.emitted == h.emitted + if info.Some? then [Emission(|h.sent|, info.value)] else []
    requires h'.iss == h.iss && 0 <= StreamEnd(c', h') - StreamEnd(c, h) < 0x4_0000
    requires info.Some? && IsData(info.value) ==> !c.state.FinSent()
    requires PendingFrom(c, c', info)
    requires info.Some? && IsData(info.value) && !c'.state.SynReceived? ==>
               Truthful(info.value, |h.sent|, h.iss, h'.sent, c'.state.FinSent())
    ensures Counted(cfg, Live(c', h'))
  {
    hide SendInv, Place, Times, Truthful, EmittedTruthful, Carried, Consumed, PlacedAt;
    var added := if info.Some? then [Emission(|h.sent|, info.value)] else [];
    forall x | x in h'.emitted && IsData(x.info)
      ensures Times(h', x) <= cfg.maxRetries + 1
    {
      NewCount(h, h', info, x);
      NeverEmitted(h, x);
    }
    if !c'.state.SynReceived? {
      forall p | p in c'.pending
        ensures Times(h', Place(c', h', p)) == p.retries + 1
      {
        PendingCount(cfg, c, h, c', h', info, p);
      }
    }
  }

  lemma NeverEmitted(h: History, x: Emission)
    ensures x !in h.emitted ==> Times(h, x) == 0
  {
  }

  /** One more emission at the end counts only for itself, and there it is the first. */
  lemma NewCount(h: History, h': History, info: Option<SendInfo>, x: Emission)
    requires EmittedTruthful(h) && IsData(x.info)
    requires h'.emitted == h.emitted + if info.Some? then [Emission(|h.sent|, info.value)] else []
    requires info.Some? && IsData(info.value) ==> !h.finSent
    ensures info.Some? && x == Emission(|h.sent|, info.value) ==> Times(h, x) == 0 && Times(h', x) == 1
    ensures info == None || x != Emission(|h.sent|, info.value) ==> Times(h', x) == Times(h, x)
  {
    hide Truthful;
    var added := if info.Some? then [Emission(|h.sent|, info.value)] else [];
    TimesAppend(h, h', added, x);
    if info.Some? {
      OneEmission(Emission(|h.sent|, info.value), x);
      if IsData(info.value) {
        EndIsNew(h, info.value);
      }
    }
  }

  lemma PendingCount(cfg: Config, c: Conn, h: History, c': Conn, h': History, info: Option<SendInfo>, p: PendingSegment)
    requires SendHistory(cfg, Live(c, h)) && Counted(cfg, Live(c, h))
    requires SendInv(c', h.iss, h'.sent) && !c'.state.SynReceived? && p in c'.pending
    requires h'.emitted == h.emitted + if info.Some? then [Emission(|h.sent|, info.value)] else []
    requires h'.iss == h.iss && 0 <= StreamEnd(c', h') - StreamEnd(c, h) < 0x4_0000
    requires info.Some? && IsData(info.value) ==> !c.state.FinSent()
    requires PendingFrom(c, c', info)
    requires info.Some? && IsData(info.value) ==> Truthful(info.value, |h.sent|, h.iss, h'.sent, c'.state.FinSent())
    ensures Times(h', Place(c', h', p)) == p.retries + 1
  {
    hide SendInv, Times, EmittedTruthful, Place, Truthful;
    PlaceFrom(cfg, c, h, c', h', info, p);
    var x := Place(c', h', p);
    NewCount(h, h', info, x);
    EmittedOnce(h, x);
  }

  /** Where a pending segment lies after a step: where it lay before, or at the end of what was sent then. */
  lemma PlaceFrom(cfg: Config, c: Conn, h: History, c': Conn, h': History, info: Option<SendInfo>, p: PendingSegment)
    requires SendHistory(cfg, Live(c, h))
    requires SendInv(c', h.iss, h'.sent) && !c'.state.SynReceived? && p in c'.pending
    requires h'.iss == h.iss && 0 <= StreamEnd(c', h') - StreamEnd(c, h) < 0x4_0000
    requires info.Some? && IsData(info.value) ==> !c.state.FinSent()
    requires PendingFrom(c, c', info)
    requires info.Some? && IsData(info.value) ==> Truthful(info.value, |h.sent|, h.iss, h'.sent, c'.state.FinSent())
    ensures IsData(p.info)
    ensures p in c.pending ==> !c.state.SynReceived? && Place(c', h', p) == Place(c, h, p)
    ensures p !in c.pending ==> info == Some(p.info) && Place(c', h', p) == Emission(|h.sent|, p.info)
  {
    hide SendInv, Carried, EmittedTruthful, Place, Truthful;
    PendingPlaced(c', h');
    var x := Place(c', h', p);
    CarriedIsData(p.info, x.offset, h'.iss, h'.sent, c'.state.FinSent());
    if p in c.pending {
      NotYetSynced(c, h, p);
      PendingPlaced(c, h);
      PlaceStays(c, h, c', h', p, Place(c, h, p).offset, x.offset);
      assert Place(c, h, p) == x;
    } else {
      NewPlaced(c, h, c', h', p);
      PlaceIs(c', h', p, |h.sent|);
    }
  }

  lemma EmittedOnce(h: History, x: Emission)
    ensures Times(h, x) > 0 ==> x in h.emitted
  {
  }

  lemma CarriedIsData(info: SendInfo, q: int, iss: SeqPoint, sent: seq<byte>, fin: bool)
    requires Carried(info, q, iss, sent, fin) && Consumed(info) > 0
    ensures IsData(info) && info.flags in {Ack, FinAck}
  {
  }

  /** What is pending before the handshake is never pending after it. */
  lemma NotYetSynced(c: Conn, h: History, p: PendingSegment)
    requires SendInv(c, h.iss, h.sent) && p in c.pending && p.info.flags in {Ack, FinAck}
    ensures !c.state.SynReceived?
  {
  }

  lemma NewPlaced(c: Conn, h: History, c': Conn, h': History, p: PendingSegment)
    requires PlacedAt(c', h', p, Place(c', h', p).offset)
    requires Truthful(p.info, |h.sent|, h'.iss, h'.sent, c'.state.FinSent()) && IsData(p.info)
    requires 0 <= StreamEnd(c', h') - StreamEnd(c, h) < 0x4_0000 && !c.state.FinSent()
    ensures PlacedAt(c', h', p, |h.sent|)
  {
    hide At;
    SamePlace(h'.iss, |h.sent|, Place(c', h', p).offset);
  }

  // Timeouts

  ghost predicate IsPlace(c: Conn, h: History, pending: seq<PendingSegment>, x: Emission) {
    exists p :: p in pending && Place(c, h, p) == x
  }

  lemma DueHead(pending: seq<PendingSegment>, q: int, rto: RtoConfig, now: Time, x: Emission)
    requires pending != []
    ensures multiset(DueEmissions(pending, q, rto, now))[x] ==
            (if Due(pending[0], rto, now) && x == Emission(q, pending[0].info) then 1 else 0) +
            multiset(DueEmissions(pending[1..], q + Consumed(pending[0].info), rto, now))[x]
  {
    hide Due, Consumed;
    var head := if Due(pending[0], rto, now) then [Emission(q, pending[0].info)] else [];
    var tail := DueEmissions(pending[1..], q + Consumed(pending[0].info), rto, now);
    assert multiset(head + tail) == multiset(head) + multiset(tail);
    OneEmission(Emission(q, pending[0].info), x);
  }

  lemma NothingDue(q: int, rto: RtoConfig, now: Time)
    ensures DueEmissions([], q, rto, now) == []
  {
  }

  /** A timeout emits each due segment once, at its place, and nothing else. */
  lemma {:induction false} DueOnce(
    c: Conn, h: History, pending: seq<PendingSegment>, q: int, rto: RtoConfig, now: Time, x: Emission)
    requires Tiles(pending, q, h.iss, h.sent, c.state.FinSent())
    requires c.sndNxt == At(h.iss + 1 + StreamEnd(c, h)) && StreamEnd(c, h) - 0x4_0000 < q
    ensures forall p :: p in pending && Place(c, h, p) == x ==>
              multiset(DueEmissions(pending, q, rto, now))[x] == if Due(p, rto, now) then 1 else 0
    ensures !IsPlace(c, h, pending, x) ==> multiset(DueEmissions(pending, q, rto, now))[x] == 0
  {
    hide Carried, At, Dist, PlacedAt, Place, Due, Consumed, DueEmissions;
    if pending == [] {
      NothingDue(q, rto, now);
    } else {
      var first, rest, n := pending[0], pending[1..], Consumed(pending[0].info);
      TilesTotal(pending, q, h.iss, h.sent, c.state.FinSent());
      HeadPlaced(c, h, pending, q);
      TilesPlaced(c, h, rest, q + n);
      DueOnce(c, h, rest, q + n, rto, now, x);
      DueHead(pending, q, rto, now, x);
      assert pending == [first] + rest;
      if x == Emission(q, first.info) {
        assert !IsPlace(c, h, rest, x);
      }
    }
  }

  lemma TimeoutCounts(cfg: Config, c: Conn, h: History, now: Time)
    requires SendHistory(cfg, Live(c, h)) && Counted(cfg, Live(c, h))
    requires !c.state.SynReceived? && !GivesUp(c.pending, cfg.rto, cfg.maxRetries, now)
    ensures Counted(cfg, Step(cfg, Live(c, h), Timeout(now)))
  {
    hide SendHistory, Times, Place, AfterResend, DueEmissions, Due;
    var after := AfterResend(c.pending, cfg.rto, now);
    var w' := Step(cfg, Live(c, h), Timeout(now));
    forall x | x in w'.hist.emitted && IsData(x.info)
      ensures Times(w'.hist, x) <= cfg.maxRetries + 1
    {
      TimesAfterTimeout(cfg, c, h, w'.hist, now, x);
    }
    forall p' | p' in after
      ensures Times(w'.hist, Place(w'.conn, w'.hist, p')) == p'.retries + 1
    {
      var i :| 0 <= i < |after| && after[i] == p';
      ResentCount(cfg, c, h, now, i);
    }
  }

  lemma ResentCount(cfg: Config, c: Conn, h: History, now: Time, i: nat)
    requires SendHistory(cfg, Live(c, h)) && Counted(cfg, Live(c, h)) && i < |c.pending|
    requires !c.state.SynReceived? && !GivesUp(c.pending, cfg.rto, cfg.maxRetries, now)
    ensures var w' := Step(cfg, Live(c, h), Timeout(now));
            var p' := AfterResend(c.pending, cfg.rto, now)[i];
            Times(w'.hist, Place(w'.conn, w'.hist, p')) == p'.retries + 1
  {
    hide SendHistory, Times, Place, AfterResend, DueEmissions, Due;
    var w' := Step(cfg, Live(c, h), Timeout(now));
    var p, p' := c.pending[i], AfterResend(c.pending, cfg.rto, now)[i];
    assert p in c.pending;
    SamePlaceResent(c, h, w'.conn, w'.hist, p, p');
    TimesAfterTimeout(cfg, c, h, w'.hist, now, Place(c, h, p));
  }

  lemma SamePlaceResent(c: Conn, h: History, c': Conn, h': History, p: PendingSegment, p': PendingSegment)
    requires p'.info == p.info && c'.sndNxt == c.sndNxt && StreamEnd(c', h') == StreamEnd(c, h)
    ensures Place(c', h', p') == Place(c, h, p)
  {
  }

  /** How often `x` has been emitted after the timeout. */
  lemma TimesAfterTimeout(cfg: Config, c: Conn, h: History, h': History, now: Time, x: Emission)
    requires SendHistory(cfg, Live(c, h)) && Counted(cfg, Live(c, h))
    requires !c.state.SynReceived? && !GivesUp(c.pending, cfg.rto, cfg.maxRetries, now)
    requires h'.emitted == h.emitted + DueEmissions(c.pending, PendingOffset(c, h), cfg.rto, now)
    ensures forall p :: p in c.pending && Place(c, h, p) == x ==>
              Times(h', x) == p.retries + 1 + (if Due(p, cfg.rto, now) then 1 else 0) <= cfg.maxRetries + 1
    ensures IsData(x.info) ==> Times(h', x) <= cfg.maxRetries + 1
  {
    hide SendInv, Times, Place, EmittedTruthful, DueEmissions, Due, Tiles, PlacedAt;
    PendingPlaced(c, h);
    TimesAppend(h, h', DueEmissions(c.pending, PendingOffset(c, h), cfg.rto, now), x);
    NeverEmitted(h, x);
    if c.pending == [] {
      NothingDue(PendingOffset(c, h), cfg.rto, now);
    } else {
      DueOnce(c, h, c.pending, PendingOffset(c, h), cfg.rto, now, x);
    }
  }

  // Runs

  lemma StepCounts(cfg: Config, w: World, e: Event)
    requires SendHistory(cfg, w) && Sound(w, e) && Counted(cfg, w)
    ensures Counted(cfg, Step(cfg, w, e))
  {
    hide HandleKnown, SendInv, Slip, Times, Place, EmittedTruthful, AfterResend, DueEmissions, GivesUp, Truthful,
         Counted;
    if w.Live? {
      StepKeepsSendHistory(cfg, w, e);
      match e
      case Arrive(seg, now) => ArrivalCounts(cfg, w.conn, w.hist, seg, now);
      case Timeout(now) =>
        if !GivesUp(w.conn.pending, cfg.rto, cfg.maxRetries, now) {
          if w.conn.state.SynReceived? {
            SynTimeoutCounts(cfg, w.conn, w.hist, now);
          } else {
            TimeoutCounts(cfg, w.conn, w.hist, now);
          }
        } else {
          GoneCounts(cfg, w.conn, w.hist);
        }
      case ActiveClose(now) =>
        if w.conn.state.Established? {
          CloseCounts(cfg, w.conn, w.hist, now);
        }
    }
  }

  lemma GoneCounts(cfg: Config, c: Conn, h: History)
    requires Counted(cfg, Live(c, h))
    ensures Counted(cfg, Gone(h))
  {
  }

  lemma ArrivalCounts(cfg: Config, c: Conn, h: History, seg: TcpSegment, now: Time)
    requires SendHistory(cfg, Live(c, h)) && !Slip(seg, c) && Counted(cfg, Live(c, h))
    ensures Counted(cfg, Step(cfg, Live(c, h), Arrive(seg, now)))
  {
    hide HandleKnown, SendInv, Slip, Times, Place, EmittedTruthful, Truthful, Counted;
    var r := HandleKnown(cfg.app, seg, c, now);
    var h' := Recorded(h, seg, c, r);
    ArrivalSends(cfg.app, seg, c, now, h.iss, h.sent);
    PendingIsReply(cfg.app, seg, c, now);
    if c.state.FinSent() {
      BareBehindFin(cfg.app, seg, c, now);
      FrontiersFreeze(cfg.app, seg, c, now);
      assert h.sent + [] == h.sent;
    }
    NewBytesFit(cfg.app, c, r, h.iss, h.sent);
    assert h.emitted + [] == h.emitted;
    if r.reply.value.remove {
      RemovedCounts(cfg, c, h, h', ReplyOf(r));
    } else {
      FirstTime(cfg, c, h, r.conn, h', ReplyOf(r));
    }
  }

  lemma NewBytesFit(app: ServerApp, c: Conn, r: Handled, iss: SeqPoint, sent: seq<byte>)
    requires StepSends(app, c, r, iss, sent)
    ensures |NewBytes(r)| <= MAX_PAYLOAD_LEN
  {
    hide SendInv, Truthful, Dist;
  }

  lemma RemovedCounts(cfg: Config, c: Conn, h: History, h': History, info: Option<SendInfo>)
    requires SendHistory(cfg, Live(c, h)) && Counted(cfg, Live(c, h))
    requires h'.emitted == h.emitted + if info.Some? then [Emission(|h.sent|, info.value)] else []
    requires info.Some? && IsData(info.value) ==> !c.state.FinSent()
    ensures Counted(cfg, Gone(h'))
  {
    hide SendInv, Times, EmittedTruthful;
    forall x | x in h'.emitted && IsData(x.info)
      ensures Times(h', x) <= cfg.maxRetries + 1
    {
      NewCount(h, h', info, x);
      NeverEmitted(h, x);
    }
  }

  lemma CloseCounts(cfg: Config, c: Conn, h: History, now: Time)
    requires SendHistory(cfg, Live(c, h)) && Counted(cfg, Live(c, h)) && c.state.Established?
    requires SendHistory(cfg, Step(cfg, Live(c, h), ActiveClose(now)))
    ensures Counted(cfg, Step(cfg, Live(c, h), ActiveClose(now)))
  {
    hide SendInv, Times, Place, Counted, Carried;
    var w' := Step(cfg, Live(c, h), ActiveClose(now));
    var info := CloseActively(c, now).info;
    assert w'.hist.emitted[|h.emitted|] == Emission(|h.sent|, info) && w'.hist.emitted[|h.emitted|] in w'.hist.emitted;
    FirstTime(cfg, c, h, w'.conn, w'.hist, Some(info));
  }

  /** Before the handshake nothing with data is pending, so none is sent again. */
  lemma SynTimeoutCounts(cfg: Config, c: Conn, h: History, now: Time)
    requires SendHistory(cfg, Live(c, h)) && Counted(cfg, Live(c, h)) && c.state.SynReceived?
    requires !GivesUp(c.pending, cfg.rto, cfg.maxRetries, now)
    ensures Counted(cfg, Step(cfg, Live(c, h), Timeout(now)))
  {
    hide Times, EmittedTruthful, AfterResend, DueEmissions, GivesUp;
    var q := PendingOffset(c, h);
    var due := DueEmissions(c.pending, q, cfg.rto, now);
    var w' := Step(cfg, Live(c, h), Timeout(now));
    PlainResent(c.pending, q, cfg.rto, now);
    forall x | x in w'.hist.emitted && IsData(x.info)
      ensures Times(w'.hist, x) <= cfg.maxRetries + 1
    {
      TimesAppend(h, w'.hist, due, x);
      assert x !in due;
      assert x in h.emitted;
    }
  }

  lemma {:induction false} RunCounts(cfg: Config, w: World, events: seq<Event>)
    requires SendHistory(cfg, w) && AllSound(cfg, w, events) && Counted(cfg, w)
    ensures Counted(cfg, Run(cfg, w, events))
    decreases |events|
  {
    hide Step, SendHistory, Counted, Sound;
    if events != [] {
      StepKeepsSendHistory(cfg, w, events[0]);
      StepCounts(cfg, w, events[0]);
      RunCounts(cfg, Step(cfg, w, events[0]), events[1..]);
    }
  }

  /**
   In every run, no segment with data or a FIN is emitted more often than once and then once for
   each allowed retry; what is still pending has been emitted exactly once more than its counter says.
   */
  lemma EmittedAtMost(cfg: Config, iss: SeqPoint, syn: TcpSegment, now: Time, events: seq<Event>, w: World, x: Emission)
    requires Reachable(cfg, iss, syn, now, events, w) && IsData(x.info)
    ensures multiset(w.hist.emitted)[x] <= cfg.maxRetries + 1
    ensures w.Live? && !w.conn.state.SynReceived? ==>
              forall p :: p in w.conn.pending ==> multiset(w.hist.emitted)[Place(w.conn, w.hist, p)] == p.retries + 1
  {
    hide AllSound, Run, SendHistory, Place;
    OpenedSends(cfg, iss, syn, now);
    OpenedCounts(cfg, iss, syn, now);
    RunCounts(cfg, Opened(iss, syn, now), events);
    NeverEmitted(w.hist, x);
  }

  lemma OpenedCounts(cfg: Config, iss: SeqPoint, syn: TcpSegment, now: Time)
    ensures Counted(cfg, Opened(iss, syn, now))
  {
  }
}
