/** When segments are due, in terms of the clock, and how far apart a run sends them again. */
module Deadlines {
  import opened Base
  import opened SeqSpace
  import opened Segment
  import opened Pending
  import opened State
  import opened SendInfos
  import opened InFlightStream
  import opened SendSide
  import opened ReceiveSide
  import opened Transitions
  import opened Timers
  import opened Runs
  import opened Theorems
  import opened Retransmissions
  import opened OneStep
  import TableRuns

  // One segment

  function Doubled(d: Time, times: nat): Time {
    if times == 0 then d else 2 * Doubled(d, times - 1)
  }

  function Clamp(cfg: RtoConfig, d: Time): Time {
    if d < cfg.min then cfg.min else if d > cfg.max then cfg.max else d
  }

  /**
   How long a segment waits that has been resent `times` times: the initial timeout doubled that often
   (the factor, 32 bits wide, stops one short of 2^32), within the configured range.
   */
  function Backoff(cfg: RtoConfig, times: nat): Time {
    Clamp(cfg, if times < 32 then Doubled(cfg.initial, times) else cfg.initial * 0xFFFF_FFFF)
  }

  lemma {:induction false} DoubledIs(d: Time, times: nat)
    ensures Doubled(d, times) == d * Pow2(times)
  {
    if times > 0 {
      DoubledIs(d, times - 1);
      DoubleProduct(d, Pow2(times - 1));
    }
  }

  lemma FactorIs(times: nat)
    ensures Min(Pow2(times), 0xFFFF_FFFF) == if times < 32 then Pow2(times) else 0xFFFF_FFFF
  {
    assert Pow2(31) == 0x8000_0000 && Pow2(32) == 0x1_0000_0000 by {
      assert Pow2(8) == 0x100;
      assert Pow2(16) == 0x1_0000;
      assert Pow2(24) == 0x100_0000;
    }
    if times < 32 {
      Pow2Monotone(times, 31);
    } else {
      Pow2Monotone(32, times);
    }
  }

  lemma RtoIs(retries: byte, cfg: RtoConfig)
    requires cfg.min <= cfg.max <= DURATION_MAX
    ensures Rto(retries, cfg) == Backoff(cfg, retries)
  {
    hide Pow2, Doubled;
    FactorIs(retries);
    DoubledIs(cfg.initial, retries);
  }

  /** A segment sent at `t` and sent again at each of `times`. */
  function SentAgain(p: PendingSegment, times: seq<Time>): PendingSegment
    decreases |times|
  {
    if times == [] then p else SentAgain(Resent(p, times[0]), times[1..])
  }

  lemma {:induction false} SentAgainIs(p: PendingSegment, times: seq<Time>)
    requires p.retries + |times| <= 255
    ensures var p' := SentAgain(p, times);
            && p' == p.(retries := p.retries + |times|, lastSentAt := p'.lastSentAt)
            && p'.lastSentAt == if times == [] then p.lastSentAt else times[|times| - 1]
    decreases |times|
  {
    if times != [] {
      SentAgainIs(Resent(p, times[0]), times[1..]);
    }
  }

  /**
   The deadline of a segment first sent at `t` and then at each of `times`: the last of these, and the
   initial timeout doubled as often as it was sent again, within the range.
   */
  lemma DueExactly(info: SendInfo, t: Time, times: seq<Time>, cfg: RtoConfig)
    requires cfg.min <= cfg.max <= DURATION_MAX && |times| <= 255
    ensures TimeDue(SentAgain(NewPending(info, t), times), cfg) ==
            (if times == [] then t else times[|times| - 1]) + Backoff(cfg, |times|)
  {
    hide Rto, Backoff;
    SentAgainIs(NewPending(info, t), times);
    RtoIs(|times|, cfg);
  }

  /** So a segment just sent is due one initial timeout later. */
  lemma FirstDue(info: SendInfo, t: Time, cfg: RtoConfig)
    requires cfg.min <= cfg.initial <= cfg.max <= DURATION_MAX
    ensures TimeDue(NewPending(info, t), cfg) == t + cfg.initial
  {
    DueExactly(info, t, [], cfg);
  }

  /** What one timeout does to a segment that is pending, by the clock. */
  function Woken(p: PendingSegment, cfg: RtoConfig, now: Time): PendingSegment {
    if now < p.lastSentAt + Backoff(cfg, p.retries) then p
    else p.(lastSentAt := now, retries := if p.retries < 255 then p.retries + 1 else 255)
  }

  /** The segments whose time has come, in order. */
  function Expired(pending: seq<PendingSegment>, cfg: RtoConfig, now: Time): seq<SendInfo> {
    if pending == [] then []
    else
      (if now < pending[0].lastSentAt + Backoff(cfg, pending[0].retries) then [] else [pending[0].info]) +
      Expired(pending[1..], cfg, now)
  }

  lemma {:induction false} ExpiredIs(pending: seq<PendingSegment>, cfg: RtoConfig, now: Time)
    requires cfg.min <= cfg.max <= DURATION_MAX
    ensures DueInfos(pending, cfg, now) == Expired(pending, cfg, now)
  {
    hide Rto, Backoff;
    if pending != [] {
      RtoIs(pending[0].retries, cfg);
      ExpiredIs(pending[1..], cfg, now);
    }
  }

  /**
   A timeout, by the clock: the connection is removed if and only if a segment whose time has come has
   no retries left; otherwise exactly the segments whose time has come go out, each once and in order,
   wait from now on and have one retry less.
   */
  lemma TimeoutIsExactly(cfg: Config, c: Conn, h: History, now: Time)
    requires cfg.rto.min <= cfg.rto.max <= DURATION_MAX
    ensures var w' := Step(cfg, Live(c, h), Timeout(now));
            && (w'.Gone? <==> exists p :: p in c.pending && p.lastSentAt + Backoff(cfg.rto, p.retries) <= now
                                          && p.retries >= cfg.maxRetries)
            && (w'.Live? ==>
                  && |w'.conn.pending| == |c.pending|
                  && w'.conn == c.(pending := w'.conn.pending)
                  && (forall i :: 0 <= i < |c.pending| ==> w'.conn.pending[i] == Woken(c.pending[i], cfg.rto, now))
                  && h.emitted <= w'.hist.emitted
                  && |w'.hist.emitted| == |h.emitted| + |Expired(c.pending, cfg.rto, now)|
                  && forall i :: 0 <= i < |Expired(c.pending, cfg.rto, now)| ==>
                       w'.hist.emitted[|h.emitted| + i].info == Expired(c.pending, cfg.rto, now)[i])
  {
    hide Backoff, AfterResend, DueEmissions, Expired, DueInfos, PendingOffset, GivesUp, Woken;
    RemovedIs(c.pending, cfg.rto, cfg.maxRetries, now);
    WokenIs(c.pending, cfg.rto, now);
    ExpiredIs(c.pending, cfg.rto, now);
    TableRuns.ResendsAreEmissions(c.pending, PendingOffset(c, h), cfg.rto, now);
  }

  lemma DueIs(p: PendingSegment, cfg: RtoConfig, now: Time)
    requires cfg.min <= cfg.max <= DURATION_MAX
    ensures Due(p, cfg, now) <==> p.lastSentAt + Backoff(cfg, p.retries) <= now
  {
    hide Rto, Backoff;
    RtoIs(p.retries, cfg);
  }

  lemma RemovedIs(pending: seq<PendingSegment>, cfg: RtoConfig, maxRetries: byte, now: Time)
    requires cfg.min <= cfg.max <= DURATION_MAX
    ensures GivesUp(pending, cfg, maxRetries, now) <==>
            exists p :: p in pending && p.lastSentAt + Backoff(cfg, p.retries) <= now && p.retries >= maxRetries
  {
    hide Due, Backoff;
    forall p | p in pending
      ensures Due(p, cfg, now) <==> p.lastSentAt + Backoff(cfg, p.retries) <= now
    {
      DueIs(p, cfg, now);
    }
  }

  lemma WokenIs(pending: seq<PendingSegment>, cfg: RtoConfig, now: Time)
    requires cfg.min <= cfg.max <= DURATION_MAX
    ensures forall i :: 0 <= i < |pending| ==> AfterResend(pending, cfg, now)[i] == Woken(pending[i], cfg, now)
  {
    hide AfterResend, Due, Backoff;
    forall i | 0 <= i < |pending|
      ensures AfterResend(pending, cfg, now)[i] == Woken(pending[i], cfg, now)
    {
      DueIs(pending[i], cfg, now);
    }
  }

  // Whole runs

  /** When each segment of a run went out: at the time of the event that emitted it. */
  ghost function TimesOf(cfg: Config, w: World, events: seq<Event>): seq<Time>
    decreases |events|
  {
    if events == [] then []
    else StepTimes(cfg, w, events[0]) + TimesOf(cfg, Step(cfg, w, events[0]), events[1..])
  }

  ghost function StepTimes(cfg: Config, w: World, e: Event): seq<Time> {
    var n := |Step(cfg, w, e).hist.emitted| - |w.hist.emitted|;
    seq(Max(n, 0), _ => e.now)
  }

  function Occurrences(emitted: seq<Emission>, x: Emission): nat {
    multiset(emitted)[x]
  }

  /** The same data or FIN never goes out again before it has waited as often as it was sent, each time longer. */
  ghost predicate Spaced(cfg: Config, emitted: seq<Emission>, times: seq<Time>)
    requires |times| == |emitted|
  {
    forall i, j :: 0 <= i < j < |emitted| && emitted[i] == emitted[j] && IsData(emitted[i].info) ==>
      Waited(cfg, emitted, times, i, times[j])
  }

  /** By the clock reading `t` emission `i` has waited its turn. */
  ghost predicate Waited(cfg: Config, emitted: seq<Emission>, times: seq<Time>, i: nat, t: Time)
    requires i < |times| == |emitted|
  {
    times[i] + Backoff(cfg.rto, Occurrences(emitted[..i], emitted[i])) <= t
  }

  /** All emissions of the pending `p` have waited their turn once `p` is due. */
  ghost predicate DueLater(cfg: Config, w: World, times: seq<Time>, p: PendingSegment)
    requires w.Live? && |times| == |w.hist.emitted|
  {
    forall i :: 0 <= i < |times| && w.hist.emitted[i] == Place(w.conn, w.hist, p) ==>
      Waited(cfg, w.hist.emitted, times, i, p.lastSentAt + Backoff(cfg.rto, p.retries))
  }

  ghost predicate Timed(cfg: Config, w: World, times: seq<Time>) {
    && |times| == |w.hist.emitted|
    && Spaced(cfg, w.hist.emitted, times)
    && (w.Live? && !w.conn.state.SynReceived? ==>
          forall p :: p in w.conn.pending ==> DueLater(cfg, w, times, p))
  }

  /** Emissions added at the end leave the turns of the earlier ones alone. */
  lemma WaitedStays(
    cfg: Config, emitted: seq<Emission>, times: seq<Time>, more: seq<Emission>, later: seq<Time>, i: nat, t: Time)
    requires i < |times| == |emitted| && |more| == |later|
    ensures Waited(cfg, emitted + more, times + later, i, t) <==> Waited(cfg, emitted, times, i, t)
  {
    assert (emitted + more)[..i] == emitted[..i];
  }

  /** New emissions, none of them out before its turn, keep the spacing. */
  lemma SpacedExtends(
    cfg: Config, emitted: seq<Emission>, times: seq<Time>, more: seq<Emission>, later: seq<Time>)
    requires |times| == |emitted| && |more| == |later| && Spaced(cfg, emitted, times)
    requires forall i, k :: 0 <= i < |emitted| && 0 <= k < |more| && emitted[i] == more[k] && IsData(more[k].info) ==>
               Waited(cfg, emitted, times, i, later[k])
    requires forall k, l :: 0 <= k < l < |more| && IsData(more[k].info) ==> more[k] != more[l]
    ensures Spaced(cfg, emitted + more, times + later)
  {
    hide Waited, Backoff;
    var all, ts := emitted + more, times + later;
    forall i, j | |emitted| <= i < j < |all| && IsData(all[i].info)
      ensures all[i] != all[j]
    {
      assert all[i] == more[i - |emitted|] && all[j] == more[j - |emitted|];
    }
    forall i, j | 0 <= i < |emitted| && i < j < |all| && all[i] == all[j] && IsData(all[i].info)
      ensures Waited(cfg, all, ts, i, ts[j])
    {
      WaitedStays(cfg, emitted, times, more, later, i, ts[j]);
      if j >= |emitted| {
        assert all[j] == more[j - |emitted|] && ts[j] == later[j - |emitted|];
      }
    }
  }

  /** A step that sends `info`, if anything, for the first time. */
  lemma FirstTimeTimed(
    cfg: Config, c: Conn, h: History, c': Conn, h': History, info: Option<SendInfo>, times: seq<Time>, now: Time)
    requires SendHistory(cfg, Live(c, h)) && Counted(cfg, Live(c, h)) && Timed(cfg, Live(c, h), times)
    requires SendInv(c', h.iss, h'.sent)
    requires h'.emitted == h.emitted + if info.Some? then [Emission(|h.sent|, info.value)] else []
    requires h'.iss == h.iss && 0 <= StreamEnd(c', h') - StreamEnd(c, h) < 0x4_0000
    requires info.Some? && IsData(info.value) ==> !c.state.FinSent()
    requires PendingFrom(c, c', info) && forall p :: p in c'.pending && p !in c.pending ==> p.lastSentAt == now
    requires info.Some? && IsData(info.value) && !c'.state.SynReceived? ==>
               Truthful(info.value, |h.sent|, h.iss, h'.sent, c'.state.FinSent())
    ensures Timed(cfg, Live(c', h'), times + if info.Some? then [now] else [])
  {
    hide SendInv, Place, Truthful, EmittedTruthful, Waited, Occurrences, Backoff;
    var more := if info.Some? then [Emission(|h.sent|, info.value)] else [];
    var later := if info.Some? then [now] else [];
    if info.Some? && IsData(info.value) {
      EndIsNew(h, info.value);
    }
    SpacedExtends(cfg, h.emitted, times, more, later);
    if !c'.state.SynReceived? {
      forall p | p in c'.pending
        ensures DueLater(cfg, Live(c', h'), times + later, p)
      {
        PlaceFrom(cfg, c, h, c', h', info, p);
        FirstTimeDue(cfg, c, h, c', h', info, times, now, p);
      }
    }
  }

  lemma FirstTimeDue(
    cfg: Config, c: Conn, h: History, c': Conn, h': History, info: Option<SendInfo>, times: seq<Time>, now: Time,
    p: PendingSegment)
    requires SendHistory(cfg, Live(c, h)) && Counted(cfg, Live(c, h)) && Timed(cfg, Live(c, h), times)
    requires h'.emitted == h.emitted + if info.Some? then [Emission(|h.sent|, info.value)] else []
    requires p in c.pending ==> !c.state.SynReceived? && Place(c', h', p) == Place(c, h, p)
    requires p !in c.pending ==> info == Some(p.info) && Place(c', h', p) == Emission(|h.sent|, p.info)
    requires p !in c.pending ==> p.lastSentAt == now && p.retries == 0
    requires IsData(p.info) && (info.Some? && IsData(info.value) ==> !c.state.FinSent())
    ensures DueLater(cfg, Live(c', h'), times + if info.Some? then [now] else [], p)
  {
    hide SendInv, Place, Truthful, EmittedTruthful, Backoff, Occurrences, Times;
    var more := if info.Some? then [Emission(|h.sent|, info.value)] else [];
    var later := if info.Some? then [now] else [];
    var x := Place(c', h', p);
    if info.Some? && IsData(info.value) {
      EndIsNew(h, info.value);
    }
    forall i | 0 <= i < |times + later| && h'.emitted[i] == x
      ensures Waited(cfg, h'.emitted, times + later, i, p.lastSentAt + Backoff(cfg.rto, p.retries))
    {
      if i < |times| {
        WaitedStays(cfg, h.emitted, times, more, later, i, p.lastSentAt + Backoff(cfg.rto, p.retries));
        assert h.emitted[i] == x && x in h.emitted;
        assert p in c.pending;
      } else {
        assert h'.emitted[..i] == h.emitted;
        if p in c.pending {
          EmittedOnce(h, x);
          assert false;
        }
        NoOccurrence(h.emitted, x);
      }
    }
  }

  lemma NoOccurrence(emitted: seq<Emission>, x: Emission)
    ensures x !in emitted ==> Occurrences(emitted, x) == 0
  {
  }

  /** A timeout sends again only what has waited its turn. */
  lemma TimeoutTimed(cfg: Config, c: Conn, h: History, times: seq<Time>, now: Time)
    requires SendHistory(cfg, Live(c, h)) && Counted(cfg, Live(c, h)) && Timed(cfg, Live(c, h), times)
    requires cfg.rto.min <= cfg.rto.max <= DURATION_MAX
    requires !c.state.SynReceived? && !GivesUp(c.pending, cfg.rto, cfg.maxRetries, now)
    ensures var due := DueEmissions(c.pending, PendingOffset(c, h), cfg.rto, now);
            Timed(cfg, Step(cfg, Live(c, h), Timeout(now)), times + seq(|due|, _ => now))
  {
    hide SendInv, Place, EmittedTruthful, AfterResend, DueEmissions, Due, Tiles, PlacedAt, IsPlace, Waited, Backoff,
         Times, Occurrences, DueLater, Resent, Counted;
    PendingPlaced(c, h);
    var q := PendingOffset(c, h);
    var due := DueEmissions(c.pending, q, cfg.rto, now);
    var later := seq(|due|, _ => now);
    var after := AfterResend(c.pending, cfg.rto, now);
    var w' := Step(cfg, Live(c, h), Timeout(now));
    forall k | 0 <= k < |due|
      ensures exists p :: p in c.pending && Place(c, h, p) == due[k] && Due(p, cfg.rto, now)
      ensures multiset(due)[due[k]] == 1
    {
      DueIsPlace(cfg, c, h, now, k);
    }
    forall i, k | 0 <= i < |h.emitted| && 0 <= k < |due| && h.emitted[i] == due[k] && IsData(due[k].info)
      ensures Waited(cfg, h.emitted, times, i, later[k])
    {
      var p :| p in c.pending && Place(c, h, p) == due[k] && Due(p, cfg.rto, now);
      DueHasWaited(cfg, c, h, times, now, p, i);
    }
    forall k, l | 0 <= k < l < |due|
      ensures due[k] != due[l]
    {
      OnceOnly(due, k, l);
    }
    SpacedExtends(cfg, h.emitted, times, due, later);
    forall p' | p' in after
      ensures DueLater(cfg, w', times + later, p')
    {
      var i :| 0 <= i < |after| && after[i] == p';
      assert c.pending[i] in c.pending;
      ResentTimed(cfg, c, h, times, now, c.pending[i]);
    }
  }

  lemma OnceOnly(due: seq<Emission>, k: nat, l: nat)
    requires k < l < |due|
    ensures multiset(due)[due[k]] == 1 ==> due[k] != due[l]
  {
    if due[k] == due[l] {
      assert due == due[..l] + [due[l]] + due[l + 1..];
      assert due[k] in due[..l];
      assert multiset(due) == multiset(due[..l]) + multiset([due[l]]) + multiset(due[l + 1..]);
    }
  }

  /** What a timeout emits is a due segment at its place, once. */
  lemma DueIsPlace(cfg: Config, c: Conn, h: History, now: Time, k: nat)
    requires SendHistory(cfg, Live(c, h)) && !c.state.SynReceived?
    requires k < |DueEmissions(c.pending, PendingOffset(c, h), cfg.rto, now)|
    ensures var due := DueEmissions(c.pending, PendingOffset(c, h), cfg.rto, now);
            && (exists p :: p in c.pending && Place(c, h, p) == due[k] && Due(p, cfg.rto, now))
            && multiset(due)[due[k]] == 1
  {
    hide SendInv, Place, EmittedTruthful, DueEmissions, Due, Tiles, PlacedAt;
    PendingPlaced(c, h);
    var q := PendingOffset(c, h);
    var due := DueEmissions(c.pending, q, cfg.rto, now);
    assert due[k] in due && multiset(due)[due[k]] > 0;
    if c.pending == [] {
      NothingDue(q, cfg.rto, now);
    } else {
      DueOnce(c, h, c.pending, q, cfg.rto, now, due[k]);
      var p :| p in c.pending && Place(c, h, p) == due[k];
      assert Due(p, cfg.rto, now);
    }
  }

  lemma DueHasWaited(
    cfg: Config, c: Conn, h: History, times: seq<Time>, now: Time, p: PendingSegment, i: nat)
    requires Timed(cfg, Live(c, h), times) && !c.state.SynReceived?
    requires cfg.rto.min <= cfg.rto.max <= DURATION_MAX
    requires p in c.pending && Due(p, cfg.rto, now) && i < |h.emitted| && h.emitted[i] == Place(c, h, p)
    ensures Waited(cfg, h.emitted, times, i, now)
  {
    hide Place, Backoff, Occurrences, Rto;
    RtoIs(p.retries, cfg.rto);
    assert DueLater(cfg, Live(c, h), times, p);
  }

  /** After the timeout every pending segment waits from its latest emission on. */
  lemma ResentTimed(cfg: Config, c: Conn, h: History, times: seq<Time>, now: Time, p: PendingSegment)
    requires SendHistory(cfg, Live(c, h)) && Counted(cfg, Live(c, h)) && Timed(cfg, Live(c, h), times)
    requires cfg.rto.min <= cfg.rto.max <= DURATION_MAX && p in c.pending
    requires !c.state.SynReceived? && !GivesUp(c.pending, cfg.rto, cfg.maxRetries, now)
    ensures var due := DueEmissions(c.pending, PendingOffset(c, h), cfg.rto, now);
            DueLater(cfg, Step(cfg, Live(c, h), Timeout(now)), times + seq(|due|, _ => now),
                     if Due(p, cfg.rto, now) then Resent(p, now) else p)
  {
    hide SendInv, Place, EmittedTruthful, AfterResend, DueEmissions, Tiles, PlacedAt, Backoff, Times, TimeDue;
    var due := DueEmissions(c.pending, PendingOffset(c, h), cfg.rto, now);
    var later := seq(|due|, _ => now);
    var w' := Step(cfg, Live(c, h), Timeout(now));
    var p' := if Due(p, cfg.rto, now) then Resent(p, now) else p;
    SamePlaceResent(c, h, w'.conn, w'.hist, p, p');
    forall i | 0 <= i < |times + later| && w'.hist.emitted[i] == Place(c, h, p)
      ensures Waited(cfg, w'.hist.emitted, times + later, i, p'.lastSentAt + Backoff(cfg.rto, p'.retries))
    {
      ResentWaits(cfg, c, h, times, now, p, i);
    }
  }

  lemma ResentWaits(cfg: Config, c: Conn, h: History, times: seq<Time>, now: Time, p: PendingSegment, i: nat)
    requires SendHistory(cfg, Live(c, h)) && Counted(cfg, Live(c, h)) && Timed(cfg, Live(c, h), times)
    requires cfg.rto.min <= cfg.rto.max <= DURATION_MAX && p in c.pending && |times| == |h.emitted|
    requires !c.state.SynReceived? && !GivesUp(c.pending, cfg.rto, cfg.maxRetries, now)
    requires var due := DueEmissions(c.pending, PendingOffset(c, h), cfg.rto, now);
             i < |h.emitted + due| && (h.emitted + due)[i] == Place(c, h, p)
    ensures var due := DueEmissions(c.pending, PendingOffset(c, h), cfg.rto, now);
            var p' := if Due(p, cfg.rto, now) then Resent(p, now) else p;
            Waited(cfg, h.emitted + due, times + seq(|due|, _ => now), i,
                   p'.lastSentAt + Backoff(cfg.rto, p'.retries))
  {
    hide SendHistory, Place, DueEmissions, Backoff, TimeDue, Counted, Timed, Due, GivesUp, Waited, Resent;
    var due := DueEmissions(c.pending, PendingOffset(c, h), cfg.rto, now);
    var later := seq(|due|, _ => now);
    var p' := if Due(p, cfg.rto, now) then Resent(p, now) else p;
    if i < |h.emitted| {
      EarlierWaits(cfg, c, h, times, now, p, i);
      WaitedStays(cfg, h.emitted, times, due, later, i, p'.lastSentAt + Backoff(cfg.rto, p'.retries));
    } else {
      assert (h.emitted + due)[i] == due[i - |h.emitted|];
      NewestWaits(cfg, c, h, times, now, p, i - |h.emitted|);
    }
  }

  lemma EarlierWaits(cfg: Config, c: Conn, h: History, times: seq<Time>, now: Time, p: PendingSegment, i: nat)
    requires Timed(cfg, Live(c, h), times) && !c.state.SynReceived? && p in c.pending
    requires cfg.rto.min <= cfg.rto.max <= DURATION_MAX
    requires i < |h.emitted| && h.emitted[i] == Place(c, h, p)
    ensures var p' := if Due(p, cfg.rto, now) then Resent(p, now) else p;
            Waited(cfg, h.emitted, times, i, p'.lastSentAt + Backoff(cfg.rto, p'.retries))
  {
    hide Place, Backoff, TimeDue, Occurrences, Spaced;
    if Due(p, cfg.rto, now) {
      DueHasWaited(cfg, c, h, times, now, p, i);
    } else {
      assert DueLater(cfg, Live(c, h), times, p);
    }
  }

  /** The newest emission of a segment is its last, and waits as long as the retries say. */
  lemma NewestWaits(cfg: Config, c: Conn, h: History, times: seq<Time>, now: Time, p: PendingSegment, k: nat)
    requires SendHistory(cfg, Live(c, h)) && Counted(cfg, Live(c, h)) && |times| == |h.emitted|
    requires p in c.pending && !c.state.SynReceived? && !GivesUp(c.pending, cfg.rto, cfg.maxRetries, now)
    requires var due := DueEmissions(c.pending, PendingOffset(c, h), cfg.rto, now);
             k < |due| && due[k] == Place(c, h, p)
    ensures var due := DueEmissions(c.pending, PendingOffset(c, h), cfg.rto, now);
            var p' := if Due(p, cfg.rto, now) then Resent(p, now) else p;
            Waited(cfg, h.emitted + due, times + seq(|due|, _ => now), |h.emitted| + k,
                   p'.lastSentAt + Backoff(cfg.rto, p'.retries))
  {
    hide SendInv, Place, EmittedTruthful, DueEmissions, Tiles, PlacedAt, Backoff, TimeDue;
    var due := DueEmissions(c.pending, PendingOffset(c, h), cfg.rto, now);
    PendingPlaced(c, h);
    DueIsPlace(cfg, c, h, now, k);
    if c.pending != [] {
      DueOnce(c, h, c.pending, PendingOffset(c, h), cfg.rto, now, due[k]);
    }
    assert Due(p, cfg.rto, now);
    NotExhausted(cfg, c, p, now);
    OccurrencesBefore(h.emitted, due, k);
  }

  lemma NotExhausted(cfg: Config, c: Conn, p: PendingSegment, now: Time)
    requires !GivesUp(c.pending, cfg.rto, cfg.maxRetries, now) && p in c.pending && Due(p, cfg.rto, now)
    ensures p.retries < 255
  {
  }

  lemma OccurrencesBefore(emitted: seq<Emission>, due: seq<Emission>, k: nat)
    requires k < |due| && multiset(due)[due[k]] == 1
    ensures Occurrences((emitted + due)[..|emitted| + k], due[k]) == Occurrences(emitted, due[k])
  {
    assert (emitted + due)[..|emitted| + k] == emitted + due[..k];
    assert multiset(emitted + due[..k]) == multiset(emitted) + multiset(due[..k]);
    assert due == due[..k] + [due[k]] + due[k + 1..];
    assert multiset(due) == multiset(due[..k]) + multiset([due[k]]) + multiset(due[k + 1..]);
  }

  lemma {:induction false} EndingAfterStays(pending: seq<PendingSegment>, ack: SeqPoint)
    ensures forall p :: p in EndingAfter(pending, ack) ==> p in pending
  {
    hide Dist;
    if pending != [] {
      EndingAfterStays(pending[1..], ack);
    }
  }

  /** Whatever a segment makes pending is pending from now on. */
  lemma PendingFromNow(app: ServerApp, seg: TcpSegment, c: Conn, now: Time, iss: SeqPoint, sent: seq<byte>)
    requires SendInv(c, iss, sent) && BufferInv(c) && !Slip(seg, c)
    ensures forall p :: p in HandleKnown(app, seg, c, now).conn.pending && p !in c.pending ==>
              p.lastSentAt == now && p.retries == 0
  {
    hide SendInv, BufferInv, Slip, HandleKnown, ReplyTo, StateAfter, BuffersRight, AcceptedBytes, DeliveredBytes,
         TakesFin, Sends, WindowAfter, UnaAfter, EndingAfter, Opens, Heeded, Covers, Dist, Add, Keeps, Allowed;
    StepIsExactly(app, seg, c, now, iss, sent);
    EndingAfterStays(c.pending, seg.ackNum);
  }

  lemma ArrivalTimed(cfg: Config, c: Conn, h: History, seg: TcpSegment, times: seq<Time>, now: Time)
    requires SendHistory(cfg, Live(c, h)) && !Slip(seg, c) && BufferInv(c)
    requires Counted(cfg, Live(c, h)) && Timed(cfg, Live(c, h), times)
    ensures Timed(cfg, Step(cfg, Live(c, h), Arrive(seg, now)), times + StepTimes(cfg, Live(c, h), Arrive(seg, now)))
  {
    hide HandleKnown, SendInv, Slip, Place, EmittedTruthful, Truthful, Counted, Timed, BufferInv;
    var r := HandleKnown(cfg.app, seg, c, now);
    var h' := Recorded(h, seg, c, r);
    ArrivalSends(cfg.app, seg, c, now, h.iss, h.sent);
    PendingIsReply(cfg.app, seg, c, now);
    PendingFromNow(cfg.app, seg, c, now, h.iss, h.sent);
    if c.state.FinSent() {
      BareBehindFin(cfg.app, seg, c, now);
      FrontiersFreeze(cfg.app, seg, c, now);
      assert h.sent + [] == h.sent;
    }
    NewBytesFit(cfg.app, c, r, h.iss, h.sent);
    assert h.emitted + [] == h.emitted && times + [] == times;
    assert StepTimes(cfg, Live(c, h), Arrive(seg, now)) == if ReplyOf(r).Some? then [now] else [];
    if r.reply.value.remove {
      GoneTimed(cfg, c, h, h', ReplyOf(r), times, now);
    } else {
      FirstTimeTimed(cfg, c, h, r.conn, h', ReplyOf(r), times, now);
    }
  }

  lemma GoneTimed(cfg: Config, c: Conn, h: History, h': History, info: Option<SendInfo>, times: seq<Time>, now: Time)
    requires SendHistory(cfg, Live(c, h)) && Timed(cfg, Live(c, h), times)
    requires h'.emitted == h.emitted + if info.Some? then [Emission(|h.sent|, info.value)] else []
    requires info.Some? && IsData(info.value) ==> !c.state.FinSent()
    ensures Timed(cfg, Gone(h'), times + if info.Some? then [now] else [])
  {
    hide SendInv, Waited, Backoff, DueLater, EmittedTruthful;
    var more := if info.Some? then [Emission(|h.sent|, info.value)] else [];
    if info.Some? && IsData(info.value) {
      EndIsNew(h, info.value);
    }
    SpacedExtends(cfg, h.emitted, times, more, if info.Some? then [now] else []);
  }

  lemma CloseTimed(cfg: Config, c: Conn, h: History, times: seq<Time>, now: Time)
    requires SendHistory(cfg, Live(c, h)) && c.state.Established?
    requires Counted(cfg, Live(c, h)) && Timed(cfg, Live(c, h), times)
    ensures Timed(cfg, Step(cfg, Live(c, h), ActiveClose(now)), times + StepTimes(cfg, Live(c, h), ActiveClose(now)))
  {
    hide SendInv, Place, Counted, Carried, Timed, EmittedTruthful;
    CloseKeepsSendHistory(cfg, c, h, now);
    var w' := Step(cfg, Live(c, h), ActiveClose(now));
    var info := CloseActively(c, now).info;
    assert StepTimes(cfg, Live(c, h), ActiveClose(now)) == [now];
    CloseIsTruthful(cfg, c, h, now);
    FirstTimeTimed(cfg, c, h, w'.conn, w'.hist, Some(info), times, now);
  }

  lemma CloseIsTruthful(cfg: Config, c: Conn, h: History, now: Time)
    requires c.state.Established? && SendHistory(cfg, Step(cfg, Live(c, h), ActiveClose(now)))
    ensures Truthful(CloseActively(c, now).info, |h.sent|, h.iss, h.sent, true)
  {
    hide SendInv, Truthful;
    var w' := Step(cfg, Live(c, h), ActiveClose(now));
    assert w'.hist.emitted[|h.emitted|] == Emission(|h.sent|, CloseActively(c, now).info);
    assert w'.hist.emitted[|h.emitted|] in w'.hist.emitted;
  }

  /** Before the handshake only SYN-ACKs are sent again. */
  lemma SynTimeoutTimed(cfg: Config, c: Conn, h: History, times: seq<Time>, now: Time)
    requires SendHistory(cfg, Live(c, h)) && Timed(cfg, Live(c, h), times) && c.state.SynReceived?
    requires !GivesUp(c.pending, cfg.rto, cfg.maxRetries, now)
    ensures var due := DueEmissions(c.pending, PendingOffset(c, h), cfg.rto, now);
            Timed(cfg, Step(cfg, Live(c, h), Timeout(now)), times + seq(|due|, _ => now))
  {
    hide Waited, Backoff, EmittedTruthful, AfterResend, DueEmissions, GivesUp;
    var due := DueEmissions(c.pending, PendingOffset(c, h), cfg.rto, now);
    PlainResent(c.pending, PendingOffset(c, h), cfg.rto, now);
    assert forall k :: 0 <= k < |due| ==> due[k] in due;
    SpacedExtends(cfg, h.emitted, times, due, seq(|due|, _ => now));
  }

  lemma StepTimed(cfg: Config, w: World, e: Event, times: seq<Time>)
    requires SendHistory(cfg, w) && Sound(w, e) && Counted(cfg, w) && (w.Live? ==> BufferInv(w.conn))
    requires Timed(cfg, w, times) && cfg.rto.min <= cfg.rto.max <= DURATION_MAX
    ensures Timed(cfg, Step(cfg, w, e), times + StepTimes(cfg, w, e))
  {
    hide HandleKnown, SendInv, Slip, EmittedTruthful, AfterResend, DueEmissions, GivesUp, Truthful, Counted, BufferInv,
         Timed;
    QuietTimes(cfg, w, e, times);
    if w.Live? {
      match e
      case Arrive(seg, now) => ArrivalTimed(cfg, w.conn, w.hist, seg, times, now);
      case Timeout(now) =>
        if !GivesUp(w.conn.pending, cfg.rto, cfg.maxRetries, now) {
          var due := DueEmissions(w.conn.pending, PendingOffset(w.conn, w.hist), cfg.rto, now);
          assert StepTimes(cfg, w, e) == seq(|due|, _ => now);
          if w.conn.state.SynReceived? {
            SynTimeoutTimed(cfg, w.conn, w.hist, times, now);
          } else {
            TimeoutTimed(cfg, w.conn, w.hist, times, now);
          }
        } else {
          GivenUpTimed(cfg, w.conn, w.hist, times);
        }
      case ActiveClose(now) =>
        if w.conn.state.Established? {
          CloseTimed(cfg, w.conn, w.hist, times, now);
        }
    }
  }

  lemma QuietTimes(cfg: Config, w: World, e: Event, times: seq<Time>)
    ensures Step(cfg, w, e).hist.emitted == w.hist.emitted ==> times + StepTimes(cfg, w, e) == times
  {
    hide Step;
  }

  lemma GivenUpTimed(cfg: Config, c: Conn, h: History, times: seq<Time>)
    requires Timed(cfg, Live(c, h), times)
    ensures Timed(cfg, Gone(h), times)
  {
  }

  lemma {:induction false} RunTimed(cfg: Config, w: World, events: seq<Event>, times: seq<Time>)
    requires SendHistory(cfg, w) && AllSound(cfg, w, events) && Counted(cfg, w) && (w.Live? ==> BufferInv(w.conn))
    requires Timed(cfg, w, times) && cfg.rto.min <= cfg.rto.max <= DURATION_MAX
    ensures Timed(cfg, Run(cfg, w, events), times + TimesOf(cfg, w, events))
    decreases |events|
  {
    hide Step, SendHistory, Counted, Sound, BufferInv, Timed, StepTimes;
    if events == [] {
      assert TimesOf(cfg, w, events) == [] && times + [] == times;
    } else {
      var e, w1 := events[0], Step(cfg, w, events[0]);
      StepKeepsSendHistory(cfg, w, e);
      StepCounts(cfg, w, e);
      if w.Live? {
        StepKeepsBuffer(cfg, w.conn, w.hist, e);
      }
      GoneStaysGone(cfg, w, e);
      StepTimed(cfg, w, e, times);
      RunTimed(cfg, w1, events[1..], times + StepTimes(cfg, w, e));
      assert TimesOf(cfg, w, events) == StepTimes(cfg, w, e) + TimesOf(cfg, w1, events[1..]);
      assert times + StepTimes(cfg, w, e) + TimesOf(cfg, w1, events[1..]) ==
             times + (StepTimes(cfg, w, e) + TimesOf(cfg, w1, events[1..]));
    }
  }

  lemma GoneStaysGone(cfg: Config, w: World, e: Event)
    ensures w.Gone? ==> Step(cfg, w, e) == w
  {
  }

  /**
   Over every run: between two emissions of the same data or FIN, the first of them its `n`th
   retransmission (or, with n == 0, its first transmission), at least the initial timeout doubled `n`
   times goes by, within the configured range. The times are those of the events, whatever clock they
   come from.
   */
  lemma ResendsBackOff(
    cfg: Config, iss: SeqPoint, syn: TcpSegment, now: Time, events: seq<Event>, w: World, i: nat, j: nat)
    requires Reachable(cfg, iss, syn, now, events, w) && cfg.rto.min <= cfg.rto.max <= DURATION_MAX
    requires i < j < |w.hist.emitted| && w.hist.emitted[i] == w.hist.emitted[j] && IsData(w.hist.emitted[i].info)
    ensures var times := [now] + TimesOf(cfg, Opened(iss, syn, now), events);
            var n := multiset(w.hist.emitted[..i])[w.hist.emitted[i]];
            |times| == |w.hist.emitted| && times[i] + Backoff(cfg.rto, n) <= times[j]
  {
    hide AllSound, Run, SendHistory, Counted, BufferInv, Backoff;
    var start := Opened(iss, syn, now);
    OpenedSends(cfg, iss, syn, now);
    OpenedCounts(cfg, iss, syn, now);
    NothingBufferedYet(iss, syn, now);
    RunTimed(cfg, start, events, [now]);
    assert Waited(cfg, w.hist.emitted, [now] + TimesOf(cfg, start, events), i,
                  ([now] + TimesOf(cfg, start, events))[j]);
  }

  lemma NothingBufferedYet(iss: SeqPoint, syn: TcpSegment, now: Time)
    ensures BufferInv(Opened(iss, syn, now).conn)
  {
  }
}
