/**
 TCP sequence-number space: 32-bit points that wrap around, compared by signed difference
 (section 3.4 of RFC 9293). Unbounded positions are carried beside the points; `At` maps a
 position to the point that represents it on the wire, and the lemmas say when the circular
 tests of the code agree with the order of the positions.
 */
module SeqSpace {
  import opened Base

  const MODULUS := 0x1_0000_0000
  const HALF := 0x8000_0000

  type SeqPoint = u32

  /** Wrapping addition of an offset. */
  function Add(p: SeqPoint, n: nat): SeqPoint {
    (p + n) % MODULUS
  }

  /** Signed 32-bit offset of `p` past `q`. */
  function Sub(p: SeqPoint, q: SeqPoint): int {
    var d := (p - q) % MODULUS;
    if d < HALF then d else d - MODULUS
  }

  predicate Precedes(p: SeqPoint, q: SeqPoint) {
    Sub(p, q) < 0
  }

  predicate PrecedesOrEq(p: SeqPoint, q: SeqPoint) {
    p == q || Precedes(p, q)
  }

  /** Whether `p` lies in the window of `len` points that begins at `start`. */
  predicate InWindow(p: SeqPoint, start: SeqPoint, len: nat) {
    PrecedesOrEq(start, p) && Precedes(p, Add(start, len))
  }

  /** How many steps forward lead from one point to another. */
  function Dist(from: SeqPoint, to: SeqPoint): (d: SeqPoint) {
    (to - from) % MODULUS
  }

  /** The point on the wire that stands for an unbounded position. */
  function At(pos: int): SeqPoint {
    pos % MODULUS
  }

  lemma DistAdd(p: SeqPoint, n: nat)
    requires n < MODULUS
    ensures Dist(p, Add(p, n)) == n
    ensures Add(p, n) == p <==> n == 0
  {
  }

  lemma AddAt(pos: int, n: nat)
    ensures Add(At(pos), n) == At(pos + n)
  {
  }

  lemma AddAdd(p: SeqPoint, m: nat, n: nat)
    ensures Add(Add(p, m), n) == Add(p, m + n)
  {
  }

  lemma DistAt(from: int, to: int)
    ensures Dist(At(from), At(to)) == (to - from) % MODULUS
    ensures 0 <= to - from < MODULUS ==> Dist(At(from), At(to)) == to - from
  {
  }

  /** The circular order, in terms of the forward distance: the antipode counts on both sides. */
  lemma PrecedesByDist(p: SeqPoint, q: SeqPoint)
    ensures Precedes(p, q) <==> 1 <= Dist(p, q) <= HALF
    ensures PrecedesOrEq(p, q) <==> Dist(p, q) <= HALF
  {
  }

  /** Positions less than half the space apart compare on the wire as they do unbounded. */
  lemma PrecedesAgrees(p: int, q: int)
    requires -HALF < p - q < HALF
    ensures Precedes(At(p), At(q)) <==> p < q
    ensures PrecedesOrEq(At(p), At(q)) <==> p <= q
    ensures Sub(At(p), At(q)) == p - q
  {
    hide Dist, At;
    SubByDist(At(p), At(q));
    DistAt(q, p);
    BackByOne(p - q);
  }

  /** The signed difference, in terms of the forward distance. */
  lemma SubByDist(p: SeqPoint, q: SeqPoint)
    ensures Sub(p, q) == if Dist(q, p) < HALF then Dist(q, p) else Dist(q, p) - MODULUS
    ensures Dist(q, p) == 0 <==> p == q
  {
  }

  lemma BackByOne(d: int)
    requires -HALF < d < HALF
    ensures d % MODULUS == if d >= 0 then d else d + MODULUS
  {
  }

  /** Distances from one point on, whichever of the other two comes first. */
  lemma DistBetween(from: SeqPoint, mid: SeqPoint, to: SeqPoint)
    ensures Dist(mid, to) == if Dist(from, mid) <= Dist(from, to) then Dist(from, to) - Dist(from, mid)
                             else Dist(from, to) - Dist(from, mid) + MODULUS
    ensures Dist(from, mid) == 0 <==> from == mid
    ensures mid == Add(from, Dist(from, mid))
  {
    hide Dist, Add;
    DistIs(from, mid);
    DistIs(from, to);
    DistIs(mid, to);
    AddDist(from, mid);
  }

  lemma DistIs(p: SeqPoint, q: SeqPoint)
    ensures Dist(p, q) == if p <= q then q - p else q - p + MODULUS
  {
  }

  lemma AddDist(p: SeqPoint, q: SeqPoint)
    ensures Add(p, Dist(p, q)) == q
  {
  }

  /** Moving the far end forward, short of a whole wrap. */
  lemma DistGrows(from: SeqPoint, to: SeqPoint, n: nat)
    requires Dist(from, to) + n < MODULUS
    ensures Dist(from, Add(to, n)) == Dist(from, to) + n
    ensures Dist(from, Add(to, n)) == 0 <==> from == Add(to, n)
    ensures Dist(from, to) == 0 <==> from == to
  {
    hide Dist, Add;
    DistIs(from, to);
    AddIs(to, n);
    DistIs(from, Add(to, n));
  }

  lemma AddIs(p: SeqPoint, n: nat)
    requires n < MODULUS
    ensures Add(p, n) == if p + n < MODULUS then p + n else p + n - MODULUS
  {
  }

  /** The two comparisons that make the window test accept exactly the window, up to half the space. */
  lemma InWindowExact(p: SeqPoint, start: SeqPoint, len: nat)
    requires 1 <= len <= HALF
    ensures InWindow(p, start, len) <==> Dist(start, p) < len
  {
    hide Dist, Add, Precedes, PrecedesOrEq;
    DistAdd(start, len);
    PrecedesByDist(start, p);
    PrecedesByDist(p, Add(start, len));
    DistBetween(start, p, Add(start, len));
  }

  /** The acknowledgment test UNA <= ACK <= NXT, exactly as the code evaluates it. */
  predicate AckInRange(una: SeqPoint, ack: SeqPoint, nxt: SeqPoint) {
    PrecedesOrEq(una, ack) && PrecedesOrEq(ack, nxt)
  }

  /**
   With something outstanding the test is exact; with nothing outstanding it also lets the
   antipode of UNA through, which section 3.2 of RFC 1982 leaves undefined.
   */
  lemma AckTestExact(una: SeqPoint, ack: SeqPoint, nxt: SeqPoint)
    requires Dist(una, nxt) < HALF
    ensures una != nxt ==> (AckInRange(una, ack, nxt) <==> Dist(una, ack) <= Dist(una, nxt))
    ensures una == nxt ==> (AckInRange(una, ack, nxt) <==> Dist(una, ack) in {0, HALF})
    ensures una != nxt ==>
              (Precedes(una, ack) && PrecedesOrEq(ack, nxt) <==> 1 <= Dist(una, ack) <= Dist(una, nxt))
  {
    hide Dist, Add, Precedes, PrecedesOrEq;
    PrecedesByDist(una, ack);
    PrecedesByDist(ack, nxt);
    DistBetween(una, ack, nxt);
    DistBetween(una, nxt, nxt);
  }

  /** The order is not transitive: three points, each before the next, the last before the first. */
  lemma PrecedesNotTransitive()
    ensures exists p: SeqPoint, q: SeqPoint, r: SeqPoint ::
              Precedes(p, q) && Precedes(q, r) && !Precedes(p, r)
  {
    assert Precedes(0, 0x6000_0000) && Precedes(0x6000_0000, 0xC000_0000) && !Precedes(0, 0xC000_0000);
  }
}
