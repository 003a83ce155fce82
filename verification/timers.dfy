/** Retransmission of one connection's pending segments when the clock reads `now`. */
module Timers {
  import opened Base
  import opened Segment
  import opened Pending

  predicate Due(s: PendingSegment, cfg: RtoConfig, now: Time) {
    TimeDue(s, cfg) <= now
  }

  predicate AnyDue(pending: seq<PendingSegment>, cfg: RtoConfig, now: Time) {
    exists s :: s in pending && Due(s, cfg, now)
  }

  /** A due segment has used up its retries: the whole connection is given up. */
  predicate GivesUp(pending: seq<PendingSegment>, cfg: RtoConfig, maxRetries: byte, now: Time) {
    exists s :: s in pending && Due(s, cfg, now) && ExhaustedRetries(s, maxRetries)
  }

  /** The pending segments once every due one has been sent again. */
  function AfterResend(pending: seq<PendingSegment>, cfg: RtoConfig, now: Time): (after: seq<PendingSegment>)
    ensures |after| == |pending|
    ensures forall i :: 0 <= i < |pending| ==>
              after[i] == if Due(pending[i], cfg, now) then Resent(pending[i], now) else pending[i]
  {
    if pending == [] then []
    else
      [if Due(pending[0], cfg, now) then Resent(pending[0], now) else pending[0]] +
      AfterResend(pending[1..], cfg, now)
  }

  /** What goes out again, in order. */
  function DueInfos(pending: seq<PendingSegment>, cfg: RtoConfig, now: Time): seq<SendInfo> {
    if pending == [] then []
    else (if Due(pending[0], cfg, now) then [pending[0].info] else []) + DueInfos(pending[1..], cfg, now)
  }

  ghost predicate RetriesWithin(pending: seq<PendingSegment>, maxRetries: byte) {
    forall s :: s in pending ==> s.retries <= maxRetries
  }

  /** The retries a connection's pending segments still have. */
  function RetriesLeft(pending: seq<PendingSegment>, maxRetries: byte): nat {
    if pending == [] then 0
    else Max(maxRetries - pending[0].retries, 0) + RetriesLeft(pending[1..], maxRetries)
  }

  /** The earliest time at which a pending segment becomes due. */
  function Deadline(pending: seq<PendingSegment>, cfg: RtoConfig): (d: Option<Time>)
    ensures d == None <==> pending == []
    ensures d.Some? ==> (forall s :: s in pending ==> d.value <= TimeDue(s, cfg)) &&
                        exists s :: s in pending && TimeDue(s, cfg) == d.value
  {
    if pending == [] then None
    else
      var rest := Deadline(pending[1..], cfg);
      var first := TimeDue(pending[0], cfg);
      assert pending[0] in pending && pending == [pending[0]] + pending[1..];
      if rest == None || first <= rest.value then Some(first) else rest
  }

  /** Right after a resend every deadline lies ahead, so resending cannot make the caller spin. */
  lemma ResendMovesOn(pending: seq<PendingSegment>, cfg: RtoConfig, now: Time)
    requires 0 < cfg.min <= cfg.max
    ensures !AnyDue(AfterResend(pending, cfg, now), cfg, now)
    ensures pending != [] ==> Deadline(AfterResend(pending, cfg, now), cfg).value > now
  {
    var after := AfterResend(pending, cfg, now);
    forall s | s in after
      ensures !Due(s, cfg, now)
    {
      var i :| 0 <= i < |after| && after[i] == s;
      RtoSound(s.retries, s.retries, cfg);
    }
  }

  /** Something is due at the deadline and nothing is due before it. */
  lemma DeadlineExact(pending: seq<PendingSegment>, cfg: RtoConfig, now: Time)
    ensures AnyDue(pending, cfg, now) <==> pending != [] && Deadline(pending, cfg).value <= now
  {
    if pending != [] && Deadline(pending, cfg).value <= now {
      var s :| s in pending && TimeDue(s, cfg) == Deadline(pending, cfg).value;
      assert Due(s, cfg, now);
    }
  }

  /** A timeout that does not give up leaves every retry counter within the limit. */
  lemma RetriesStayWithin(pending: seq<PendingSegment>, cfg: RtoConfig, maxRetries: byte, now: Time)
    requires RetriesWithin(pending, maxRetries) && !GivesUp(pending, cfg, maxRetries, now)
    ensures RetriesWithin(AfterResend(pending, cfg, now), maxRetries)
  {
    var after := AfterResend(pending, cfg, now);
    forall s | s in after
      ensures s.retries <= maxRetries
    {
      var i :| 0 <= i < |after| && after[i] == s;
      assert pending[i] in pending;
    }
  }

  /** A timeout that resends anything uses up retries. */
  lemma {:induction false} RetriesRunOut(pending: seq<PendingSegment>, cfg: RtoConfig, maxRetries: byte, now: Time)
    requires !GivesUp(pending, cfg, maxRetries, now)
    ensures RetriesLeft(AfterResend(pending, cfg, now), maxRetries) + |DueInfos(pending, cfg, now)| ==
            RetriesLeft(pending, maxRetries)
    ensures AnyDue(pending, cfg, now) <==> DueInfos(pending, cfg, now) != []
  {
    if pending != [] {
      var first, rest := pending[0], pending[1..];
      assert pending == [first] + rest && first in pending;
      assert forall s :: s in rest ==> s in pending;
      RetriesRunOut(rest, cfg, maxRetries, now);
      assert AfterResend(pending, cfg, now)[1..] == AfterResend(rest, cfg, now);
    }
  }

  /** The outcome of several timeouts with nothing heard from the peer: what is pending, or `None` once given up. */
  function AfterTimeouts(
    pending: seq<PendingSegment>, times: seq<Time>, cfg: RtoConfig, maxRetries: byte): Option<seq<PendingSegment>>
    decreases |times|
  {
    if times == [] then Some(pending)
    else if GivesUp(pending, cfg, maxRetries, times[0]) then None
    else AfterTimeouts(AfterResend(pending, cfg, times[0]), times[1..], cfg, maxRetries)
  }

  /** Each timeout comes when something is due, as the caller's poll loop arranges. */
  ghost predicate EachDue(pending: seq<PendingSegment>, times: seq<Time>, cfg: RtoConfig)
    decreases |times|
  {
    times != [] ==> AnyDue(pending, cfg, times[0]) && EachDue(AfterResend(pending, cfg, times[0]), times[1..], cfg)
  }

  /** With a silent peer a connection that has anything pending is given up after a bounded number of timeouts. */
  lemma {:induction false} SilentPeerGivenUp(
    pending: seq<PendingSegment>, times: seq<Time>, cfg: RtoConfig, maxRetries: byte)
    requires EachDue(pending, times, cfg) && |times| > RetriesLeft(pending, maxRetries)
    ensures AfterTimeouts(pending, times, cfg, maxRetries) == None
    decreases |times|
  {
    if !GivesUp(pending, cfg, maxRetries, times[0]) {
      RetriesRunOut(pending, cfg, maxRetries, times[0]);
      SilentPeerGivenUp(AfterResend(pending, cfg, times[0]), times[1..], cfg, maxRetries);
    }
  }

  lemma {:induction false} RetriesLeftBound(pending: seq<PendingSegment>, maxRetries: byte)
    ensures RetriesLeft(pending, maxRetries) <= |pending| * maxRetries
  {
    if pending != [] {
      RetriesLeftBound(pending[1..], maxRetries);
      assert |pending| * maxRetries == |pending[1..]| * maxRetries + maxRetries;
    }
  }

  /**
   The caller wakes at each deadline, or at once if it has already passed at `from`, as long as the
   connection is not given up; after every wake that does not give it up there is a next deadline.
   */
  ghost predicate AtDeadlines(
    pending: seq<PendingSegment>, from: Time, times: seq<Time>, cfg: RtoConfig, maxRetries: byte)
    decreases |times|
  {
    times != [] ==>
      && pending != [] && times[0] == Max(Deadline(pending, cfg).value, from)
      && (if GivesUp(pending, cfg, maxRetries, times[0]) then |times| == 1
          else |times| > 1 && AtDeadlines(AfterResend(pending, cfg, times[0]), times[0], times[1..], cfg, maxRetries))
  }

  /** When the first pending segment alone would have run out of retries, at the slowest backoff. */
  function LatestEnd(p: PendingSegment, from: Time, cfg: RtoConfig, maxRetries: byte): int {
    Max(from, p.lastSentAt + cfg.max) + (maxRetries - p.retries) * cfg.max
  }

  lemma LatestEndHolds(p: PendingSegment, from: Time, t: Time, cfg: RtoConfig, maxRetries: byte)
    requires cfg.min <= cfg.max && from <= t <= Max(from, TimeDue(p, cfg)) && p.retries <= maxRetries
    ensures t <= LatestEnd(p, from, cfg, maxRetries)
    ensures !Due(p, cfg, t) ==> LatestEnd(p, t, cfg, maxRetries) <= LatestEnd(p, from, cfg, maxRetries)
    ensures p.retries < maxRetries ==>
              LatestEnd(Resent(p, t), t, cfg, maxRetries) <= LatestEnd(p, from, cfg, maxRetries)
  {
    hide Rto;
    RtoSound(p.retries, p.retries, cfg);
    assert 0 <= (maxRetries - p.retries) * cfg.max;
    if p.retries < maxRetries {
      assert (maxRetries - p.retries) * cfg.max == (maxRetries - (p.retries + 1)) * cfg.max + cfg.max;
    }
  }

  /** With a silent peer, waking at the deadlines gives the connection up by a bounded clock time. */
  lemma {:induction false} SilentPeerTimes(pending: seq<PendingSegment>, from: Time, cfg: RtoConfig, maxRetries: byte)
    returns (times: seq<Time>)
    requires pending != [] && RetriesWithin(pending, maxRetries) && cfg.min <= cfg.max
    ensures times != [] && AtDeadlines(pending, from, times, cfg, maxRetries)
    ensures AfterTimeouts(pending, times, cfg, maxRetries) == None
    ensures times[|times| - 1] <= LatestEnd(pending[0], from, cfg, maxRetries)
    decreases RetriesLeft(pending, maxRetries)
  {
    hide Rto, TimeDue, GivesUp, AnyDue, Due, Resent, LatestEnd, RetriesWithin, RetriesLeft, AfterResend, AtDeadlines,
         AfterTimeouts;
    var t := WakeTime(pending, from, cfg);
    var first := pending[0];
    FirstWithin(pending, maxRetries);
    LatestEndHolds(first, from, t, cfg, maxRetries);
    if GivesUp(pending, cfg, maxRetries, t) {
      times := [t];
      LastWake(pending, from, cfg, maxRetries);
    } else {
      var after := AfterResend(pending, cfg, t);
      assert after[0] == if Due(first, cfg, t) then Resent(first, t) else first;
      RetriesRunOut(pending, cfg, maxRetries, t);
      RetriesStayWithin(pending, cfg, maxRetries, t);
      FirstNotExhausted(pending, cfg, maxRetries, t);
      var rest := SilentPeerTimes(after, t, cfg, maxRetries);
      times := [t] + rest;
      EarlierWake(pending, from, t, after, rest, cfg, maxRetries);
      assert times[|times| - 1] == rest[|rest| - 1];
    }
  }

  lemma WakeTime(pending: seq<PendingSegment>, from: Time, cfg: RtoConfig) returns (t: Time)
    requires pending != []
    ensures t == Max(Deadline(pending, cfg).value, from) && AnyDue(pending, cfg, t)
    ensures from <= t <= Max(from, TimeDue(pending[0], cfg))
  {
    hide TimeDue;
    t := Max(Deadline(pending, cfg).value, from);
    assert pending[0] in pending;
    DeadlineExact(pending, cfg, t);
  }

  lemma LastWake(pending: seq<PendingSegment>, from: Time, cfg: RtoConfig, maxRetries: byte)
    requires pending != [] && GivesUp(pending, cfg, maxRetries, Max(Deadline(pending, cfg).value, from))
    ensures var times := [Max(Deadline(pending, cfg).value, from)];
            AtDeadlines(pending, from, times, cfg, maxRetries) && AfterTimeouts(pending, times, cfg, maxRetries) == None
  {
    hide GivesUp;
  }

  lemma EarlierWake(
    pending: seq<PendingSegment>, from: Time, t: Time, after: seq<PendingSegment>, rest: seq<Time>, cfg: RtoConfig,
    maxRetries: byte)
    requires pending != [] && rest != [] && t == Max(Deadline(pending, cfg).value, from)
    requires !GivesUp(pending, cfg, maxRetries, t) && after == AfterResend(pending, cfg, t)
    requires AtDeadlines(after, t, rest, cfg, maxRetries) && AfterTimeouts(after, rest, cfg, maxRetries) == None
    ensures AtDeadlines(pending, from, [t] + rest, cfg, maxRetries)
    ensures AfterTimeouts(pending, [t] + rest, cfg, maxRetries) == None
  {
    hide GivesUp, AfterResend, Deadline;
    assert ([t] + rest)[1..] == rest;
  }

  lemma FirstWithin(pending: seq<PendingSegment>, maxRetries: byte)
    requires pending != [] && RetriesWithin(pending, maxRetries)
    ensures pending[0].retries <= maxRetries
  {
  }

  lemma FirstNotExhausted(pending: seq<PendingSegment>, cfg: RtoConfig, maxRetries: byte, now: Time)
    requires pending != [] && !GivesUp(pending, cfg, maxRetries, now)
    ensures Due(pending[0], cfg, now) ==> pending[0].retries < maxRetries
  {
    assert pending[0] in pending;
  }
}
