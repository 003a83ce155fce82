/** A sent segment that consumed sequence numbers and is not yet acknowledged. */
module Pending {
  import opened Base
  import opened SeqSpace
  import opened Segment

  /** Time points and durations, in nanoseconds. */
  type Time = nat

  const DURATION_MAX: Time := 0x1_0000_0000_0000_0000 * 1_000_000_000 - 1
  const TCP_RTO_MIN: Time := 200_000_000
  const TCP_RTO_MAX: Time := 120_000_000_000

  datatype RtoConfig = RtoConfig(initial: Time, min: Time, max: Time)

  datatype PendingSegment = PendingSegment(info: SendInfo, endSeq: SeqPoint, lastSentAt: Time, retries: byte)

  function NewPending(info: SendInfo, sentAt: Time): PendingSegment {
    PendingSegment(info, Add(info.seqNum, Consumed(info)), sentAt, 0)
  }

  function Pow2(e: nat): (p: nat)
    ensures p >= 1
  {
    if e == 0 then 1 else 2 * Pow2(e - 1)
  }

  /** Exponential backoff: saturating at each step, then clamped to the configured range. */
  function Rto(retries: byte, cfg: RtoConfig): Time {
    var factor := Min(Pow2(retries), 0xFFFF_FFFF);
    Max(cfg.min, Min(cfg.max, Min(cfg.initial * factor, DURATION_MAX)))
  }

  function TimeDue(s: PendingSegment, cfg: RtoConfig): Time {
    s.lastSentAt + Rto(s.retries, cfg)
  }

  predicate CoveredBy(s: PendingSegment, ack: SeqPoint) {
    PrecedesOrEq(s.endSeq, ack)
  }

  predicate ExhaustedRetries(s: PendingSegment, maxRetries: byte) {
    s.retries >= maxRetries
  }

  /** The segment once it has been sent again at `now`; what it carries never changes. */
  function Resent(s: PendingSegment, now: Time): PendingSegment {
    s.(retries := if s.retries == 255 then 255 else s.retries + 1, lastSentAt := now)
  }

  /** The pending segments a cumulative acknowledgment leaves behind, in order. */
  function Uncovered(pending: seq<PendingSegment>, ack: SeqPoint): (kept: seq<PendingSegment>)
    ensures forall s :: s in kept <==> s in pending && !CoveredBy(s, ack)
  {
    if pending == [] then []
    else if CoveredBy(pending[0], ack) then Uncovered(pending[1..], ack)
    else [pending[0]] + Uncovered(pending[1..], ack)
  }

  lemma {:induction false} UncoveredAppend(pending: seq<PendingSegment>, last: PendingSegment, ack: SeqPoint)
    ensures Uncovered(pending + [last], ack) == Uncovered(pending, ack) + if CoveredBy(last, ack) then [] else [last]
  {
    hide CoveredBy;
    if pending == [] {
      assert pending + [last] == [last] && [last][1..] == [];
    } else {
      assert (pending + [last])[1..] == pending[1..] + [last];
      UncoveredAppend(pending[1..], last, ack);
    }
  }

  lemma UncoveredNext(pending: seq<PendingSegment>, i: nat, ack: SeqPoint)
    ensures Uncovered(pending[..0], ack) == []
    ensures i < |pending| ==>
              Uncovered(pending[..i + 1], ack) ==
              Uncovered(pending[..i], ack) + if CoveredBy(pending[i], ack) then [] else [pending[i]]
  {
    hide CoveredBy;
    if i < |pending| {
      UncoveredAppend(pending[..i], pending[i], ack);
      assert pending[..i + 1] == pending[..i] + [pending[i]];
    }
  }

  lemma {:induction false} Pow2Monotone(e: nat, f: nat)
    requires e <= f
    ensures Pow2(e) <= Pow2(f)
    decreases f
  {
    if e < f {
      Pow2Monotone(e, f - 1);
    }
  }

  /** The timeout stays within the configured range and never shrinks from one retry to the next. */
  lemma RtoSound(r: byte, s: byte, cfg: RtoConfig)
    requires r <= s && cfg.min <= cfg.max
    ensures cfg.min <= Rto(r, cfg) <= Rto(s, cfg) <= cfg.max
  {
    hide Pow2;
    Pow2Monotone(r, s);
    ProductMonotone(cfg.initial, Min(Pow2(r), 0xFFFF_FFFF), Min(Pow2(s), 0xFFFF_FFFF));
  }

  lemma ProductMonotone(a: nat, b: nat, c: nat)
    requires b <= c
    ensures a * b <= a * c
  {
  }

  /** Backoff doubles exactly while neither the 32-bit factor nor a bound of the range is met. */
  lemma RtoDoubles(r: byte, cfg: RtoConfig)
    requires r < 255 && Pow2(r + 1) <= 0xFFFF_FFFF
    requires cfg.min <= cfg.initial * Pow2(r) && cfg.initial * Pow2(r + 1) <= cfg.max <= DURATION_MAX
    ensures Rto(r + 1, cfg) == 2 * Rto(r, cfg)
  {
    var base := cfg.initial * Pow2(r);
    assert cfg.initial * Pow2(r + 1) == 2 * base by {
      assert Pow2(r + 1) == 2 * Pow2(r);
      DoubleProduct(cfg.initial, Pow2(r));
    }
    assert Min(Pow2(r), 0xFFFF_FFFF) == Pow2(r);
  }

  lemma DoubleProduct(a: nat, b: nat)
    ensures a * (2 * b) == 2 * (a * b)
  {
  }
}
