/**
 The unacknowledged part of the outgoing stream. Data offset `q` is the byte with sequence number
 ISS + 1 + q; our FIN, once sent, has the offset right after the last byte.
 */
module InFlightStream {
  import opened Base
  import opened SeqSpace
  import opened Segment
  import opened Pending
  import opened Reassembly
  import opened State

  function FinLen(fin: bool): nat {
    if fin then 1 else 0
  }

  /**
   `info` carries at most a packet's worth, exactly the bytes of the stream at offset `q`, and a FIN
   only where it ends.
   */
  ghost predicate Carried(info: SendInfo, q: int, iss: SeqPoint, sent: seq<byte>, fin: bool) {
    && info.seqNum == At(iss + 1 + q) && Len(info.payload) <= MAX_PAYLOAD_LEN
    && PieceOf(sent, q, Bytes(info.payload))
    && (info.flags == Ack || (info.flags == FinAck && fin && q + Len(info.payload) == |sent|))
  }

  /** The pending segments, in order, cover the stream from offset `q` to its end without gap or overlap. */
  ghost predicate Tiles(pending: seq<PendingSegment>, q: int, iss: SeqPoint, sent: seq<byte>, fin: bool) {
    if pending == [] then q == |sent| + FinLen(fin)
    else
      var n := Consumed(pending[0].info);
      && Carried(pending[0].info, q, iss, sent, fin)
      && n > 0 && pending[0].endSeq == At(iss + 1 + q + n)
      && Tiles(pending[1..], q + n, iss, sent, fin)
  }

  function TotalConsumed(pending: seq<PendingSegment>): nat {
    if pending == [] then 0 else Consumed(pending[0].info) + TotalConsumed(pending[1..])
  }

  /** Between SND.UNA and SND.NXT lies exactly what the pending segments cover, the first one perhaps in part. */
  ghost predicate InFlight(
    una: SeqPoint, nxt: SeqPoint, pending: seq<PendingSegment>, iss: SeqPoint, sent: seq<byte>, fin: bool)
  {
    var end := |sent| + FinLen(fin);
    var n := Dist(una, nxt);
    var start := end - TotalConsumed(pending);
    && nxt == At(iss + 1 + end) && n <= end && n <= 0xFFFF + FinLen(fin)
    && Tiles(pending, start, iss, sent, fin)
    && (pending == [] <==> una == nxt)
    && (pending != [] ==> start <= end - n < start + Consumed(pending[0].info))
  }

  lemma {:induction false} TilesTotal(pending: seq<PendingSegment>, q: int, iss: SeqPoint, sent: seq<byte>, fin: bool)
    requires Tiles(pending, q, iss, sent, fin)
    ensures q + TotalConsumed(pending) == |sent| + FinLen(fin)
  {
    if pending != [] {
      TilesTotal(pending[1..], q + Consumed(pending[0].info), iss, sent, fin);
    }
  }

  /** The first of the pending segments, and the distances its end lies at. */
  lemma TilesHead(pending: seq<PendingSegment>, q: int, a: int, iss: SeqPoint, sent: seq<byte>, fin: bool)
    requires Tiles(pending, q, iss, sent, fin)
    requires |sent| + FinLen(fin) - Min(q, a) < HALF && (a <= q || a <= |sent| + FinLen(fin))
    ensures q + TotalConsumed(pending) == |sent| + FinLen(fin)
    ensures pending == [] ==> q == |sent| + FinLen(fin)
    ensures pending != [] ==>
              var n := Consumed(pending[0].info);
              && n > 0 && Tiles(pending[1..], q + n, iss, sent, fin) && q + n <= |sent| + FinLen(fin)
              && (CoveredBy(pending[0], At(iss + 1 + a)) <==> q + n <= a)
  {
    hide At, PrecedesOrEq, Carried;
    TilesTotal(pending, q, iss, sent, fin);
    if pending != [] {
      PrecedesAgrees(iss + 1 + q + Consumed(pending[0].info), iss + 1 + a);
    }
  }

  /** Nothing that starts at or after the acknowledged offset `a` is covered. */
  lemma {:induction false} NothingCovered(
    pending: seq<PendingSegment>, q: int, a: int, iss: SeqPoint, sent: seq<byte>, fin: bool)
    requires Tiles(pending, q, iss, sent, fin)
    requires a <= q && |sent| + FinLen(fin) - a < HALF
    ensures Uncovered(pending, At(iss + 1 + a)) == pending
  {
    hide At, CoveredBy, Tiles;
    TilesHead(pending, q, a, iss, sent, fin);
    if pending != [] {
      var n := Consumed(pending[0].info);
      NothingCovered(pending[1..], q + n, a, iss, sent, fin);
    }
  }

  lemma UncoveredStep(pending: seq<PendingSegment>, ack: SeqPoint)
    requires pending != []
    ensures var rest := Uncovered(pending[1..], ack);
            && (CoveredBy(pending[0], ack) ==> Uncovered(pending, ack) == rest)
            && (!CoveredBy(pending[0], ack) && rest == pending[1..] ==> Uncovered(pending, ack) == pending)
  {
  }

  lemma SuffixOfRest(pending: seq<PendingSegment>, kept: seq<PendingSegment>)
    requires |kept| < |pending| && kept == pending[1..][|pending| - 1 - |kept|..]
    ensures kept == pending[|pending| - |kept|..]
  {
  }

  lemma NoneUncovered(q: int, iss: SeqPoint, sent: seq<byte>, fin: bool, ack: SeqPoint)
    requires Tiles([], q, iss, sent, fin)
    ensures Uncovered([], ack) == [] && TotalConsumed([]) == 0
  {
  }

  /** Pruning by circular comparison removes exactly a prefix: up to the segment that holds offset `a`. */
  lemma {:induction false} PruneIsPrefix(
    pending: seq<PendingSegment>, q: int, a: int, iss: SeqPoint, sent: seq<byte>, fin: bool)
    requires Tiles(pending, q, iss, sent, fin)
    requires q <= a <= |sent| + FinLen(fin) && |sent| + FinLen(fin) - q < HALF
    ensures var kept := Uncovered(pending, At(iss + 1 + a));
            var start := |sent| + FinLen(fin) - TotalConsumed(kept);
            && |kept| <= |pending| && kept == pending[|pending| - |kept|..]
            && Tiles(kept, start, iss, sent, fin)
            && (kept == [] <==> a == |sent| + FinLen(fin))
            && (kept != [] ==> start <= a < start + Consumed(kept[0].info))
  {
    hide At, CoveredBy, Tiles, Uncovered, TotalConsumed, Consumed;
    var ack := At(iss + 1 + a);
    TilesHead(pending, q, a, iss, sent, fin);
    if pending == [] {
      NoneUncovered(q, iss, sent, fin, ack);
    } else {
      var n := Consumed(pending[0].info);
      UncoveredStep(pending, ack);
      if q + n <= a {
        PruneIsPrefix(pending[1..], q + n, a, iss, sent, fin);
        SuffixOfRest(pending, Uncovered(pending[1..], ack));
      } else {
        NothingCovered(pending[1..], q + n, a, iss, sent, fin);
      }
    }
  }

  /** The one acknowledgment the circular test gets wrong: half the space past SND.UNA, with nothing outstanding. */
  predicate Antipode(una: SeqPoint, ack: SeqPoint, nxt: SeqPoint) {
    una == nxt && ack == Add(una, HALF)
  }

  /** The unbounded distances behind an acknowledgment the update acts on. */
  lemma AckAdvances(una: SeqPoint, ack: SeqPoint, nxt: SeqPoint)
    requires Dist(una, nxt) < HALF && !Antipode(una, ack, nxt)
    ensures AckInRange(una, ack, nxt) <==> Dist(una, ack) <= Dist(una, nxt)
    ensures AckInRange(una, ack, nxt) && Precedes(una, ack) <==> 1 <= Dist(una, ack) <= Dist(una, nxt)
    ensures Dist(una, ack) <= Dist(una, nxt) ==> Dist(ack, nxt) == Dist(una, nxt) - Dist(una, ack)
    ensures Dist(una, ack) == 0 <==> una == ack
    ensures Dist(ack, nxt) == 0 <==> ack == nxt
  {
    hide AckInRange, Precedes, Dist, Add;
    AckTestExact(una, ack, nxt);
    PrecedesByDist(una, ack);
    DistBetween(una, ack, nxt);
    DistBetween(una, nxt, nxt);
    DistBetween(ack, nxt, nxt);
  }

  lemma AckPosition(iss: SeqPoint, end: nat, ack: SeqPoint, nxt: SeqPoint)
    requires nxt == At(iss + 1 + end)
    ensures ack == At(iss + 1 + end - Dist(ack, nxt))
  {
  }

  /** An acknowledgment keeps the tiling, moves SND.UNA only forward, and leaves nothing pending iff it covers all. */
  lemma AckKeepsInFlight(c: Conn, ack: SeqPoint, iss: SeqPoint, sent: seq<byte>, fin: bool)
    requires InFlight(c.sndUna, c.sndNxt, c.pending, iss, sent, fin)
    requires !Antipode(c.sndUna, ack, c.sndNxt)
    ensures var c' := AckedConn(c, ack);
            && InFlight(c'.sndUna, c'.sndNxt, c'.pending, iss, sent, fin)
            && Dist(c'.sndUna, c'.sndNxt) <= Dist(c.sndUna, c.sndNxt)
            && (c'.sndUna == c'.sndNxt <==> c.sndUna == c.sndNxt || ack == c.sndNxt)
  {
    hide AckInRange, Precedes, Antipode, At, Carried, Dist, Uncovered;
    AckAdvances(c.sndUna, ack, c.sndNxt);
    AckAdvances(c.sndUna, c.sndNxt, c.sndNxt) by { NotAntipode(c.sndUna, c.sndNxt); }
    if Acceptable(c, ack) && Precedes(c.sndUna, ack) {
      var end := |sent| + FinLen(fin);
      AckPosition(iss, end, ack, c.sndNxt);
      PruneIsPrefix(c.pending, end - TotalConsumed(c.pending), end - Dist(ack, c.sndNxt), iss, sent, fin);
    }
  }

  lemma NotAntipode(una: SeqPoint, nxt: SeqPoint)
    ensures !Antipode(una, nxt, nxt)
  {
  }

  /** The antipode, acted on, puts SND.UNA out of reach of SND.NXT. */
  lemma AntipodeBreaks(c: Conn, ack: SeqPoint)
    requires Antipode(c.sndUna, ack, c.sndNxt)
    ensures AckedConn(c, ack).sndUna == ack && Dist(ack, c.sndNxt) == HALF && Sub(c.sndNxt, ack) < 0
  {
  }

  lemma {:induction false} TilesExtend(
    pending: seq<PendingSegment>, q: int, iss: SeqPoint, sent: seq<byte>, info: SendInfo, now: Time)
    requires Tiles(pending, q, iss, sent, false)
    requires info.seqNum == At(iss + 1 + |sent|) && Consumed(info) > 0 && info.flags in {Ack, FinAck}
    requires Len(info.payload) <= MAX_PAYLOAD_LEN
    ensures Tiles(pending + [NewPending(info, now)], q, iss, sent + Bytes(info.payload), info.flags == FinAck)
    ensures TotalConsumed(pending + [NewPending(info, now)]) == TotalConsumed(pending) + Consumed(info)
  {
    hide At, Add, Carried;
    var data := Bytes(info.payload);
    var p := NewPending(info, now);
    if pending == [] {
      AddAt(iss + 1 + |sent|, Consumed(info));
      CarriedAtEnd(info, iss, sent);
      assert (pending + [p])[1..] == [];
    } else {
      assert (pending + [p])[0] == pending[0];
      var first := pending[0].info;
      assert (pending + [p])[1..] == pending[1..] + [p];
      CarriedExtends(first, q, iss, sent, data, info.flags == FinAck);
      TilesExtend(pending[1..], q + Consumed(first), iss, sent, info, now);
    }
  }

  lemma CarriedAtEnd(info: SendInfo, iss: SeqPoint, sent: seq<byte>)
    requires info.seqNum == At(iss + 1 + |sent|) && info.flags in {Ack, FinAck} && Len(info.payload) <= MAX_PAYLOAD_LEN
    ensures Carried(info, |sent|, iss, sent + Bytes(info.payload), info.flags == FinAck)
  {
    hide At;
  }

  lemma CarriedExtends(info: SendInfo, q: int, iss: SeqPoint, sent: seq<byte>, data: seq<byte>, fin: bool)
    requires Carried(info, q, iss, sent, false)
    ensures Carried(info, q, iss, sent + data, fin)
  {
  }
}
