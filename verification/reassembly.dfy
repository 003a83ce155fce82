/**
 Segments that arrived ahead of RCV.NXT. The code keeps them in arrival order in a vector; all
 that matters about them is the map from start to payload, and that is what the vector scan is
 proved against.
 */
module Reassembly {
  import opened Base
  import opened SeqSpace
  import opened Segment

  datatype Buffered = Buffered(start: SeqPoint, payload: Payload)

  /** The vector after buffering a payload: the first segment with the same start gives way to a longer one. */
  function InsertedInto(segments: seq<Buffered>, start: SeqPoint, payload: Payload): seq<Buffered> {
    if segments == [] then [Buffered(start, payload)]
    else if segments[0].start == start then
      if |payload| > |segments[0].payload| then [Buffered(start, payload)] + segments[1..] else segments
    else [segments[0]] + InsertedInto(segments[1..], start, payload)
  }

  datatype Scan = Scan(rest: seq<Buffered>, taken: Option<Payload>)

  /**
   One pass over the vector: segments at or before `rcv` are dropped until one that starts exactly
   at `rcv` is met and taken; from there on the vector is left alone.
   */
  function Pass(segments: seq<Buffered>, rcv: SeqPoint): (p: Scan)
    ensures |p.rest| <= |segments| && (p.taken.Some? ==> |p.rest| < |segments|)
  {
    if segments == [] then Scan([], None)
    else if segments[0].start == rcv then Scan(segments[1..], Some(segments[0].payload))
    else if PrecedesOrEq(segments[0].start, rcv) then Pass(segments[1..], rcv)
    else
      var p := Pass(segments[1..], rcv);
      p.(rest := [segments[0]] + p.rest)
  }

  datatype Drained = Drained(bytes: seq<byte>, rcvNxt: SeqPoint, rest: seq<Buffered>) {
    /** The same outcome with `earlier` bytes in front. */
    function After(earlier: seq<byte>): Drained {
      this.(bytes := earlier + bytes)
    }
  }

  lemma AfterAfter(d: Drained, front: seq<byte>, next: seq<byte>)
    ensures d.After(next).After(front) == d.After(front + next)
    ensures d.After([]) == d
  {
    assert front + (next + d.bytes) == (front + next) + d.bytes;
    assert [] + d.bytes == d.bytes;
  }

  /** Passes repeated until one takes nothing, with `rcv` moved past each payload taken. */
  function Drain(segments: seq<Buffered>, rcv: SeqPoint): (d: Drained)
    decreases |segments|
  {
    var p := Pass(segments, rcv);
    if p.taken == None then Drained([], rcv, p.rest)
    else
      var d := Drain(p.rest, Add(rcv, |p.taken.value|));
      d.After(p.taken.value)
  }

  type Buffer = map<SeqPoint, Payload>

  /** Buffering a payload: of two that start at the same point the longer one is kept. */
  function Inserted(m: Buffer, start: SeqPoint, payload: Payload): Buffer {
    if start in m && |payload| <= |m[start]| then m else m[start := payload]
  }

  /** The bytes reached from `rcv` by segments that each start exactly where the previous one ends. */
  function ChainFrom(m: Buffer, rcv: SeqPoint): (bytes: seq<byte>)
    decreases |m|
  {
    if rcv in m then m[rcv] + ChainFrom(m - {rcv}, Add(rcv, |m[rcv]|)) else []
  }

  /** What is left once everything at or before `rcv` is dropped. */
  function After(m: Buffer, rcv: SeqPoint): Buffer {
    map s | s in m && !PrecedesOrEq(s, rcv) :: m[s]
  }

  /** A quarter of half the space: buffered starts this close to RCV.NXT compare without ambiguity. */
  const NEAR := 0x2000_0000

  ghost predicate Near(m: Buffer, rcv: SeqPoint) {
    forall s :: s in m ==> -NEAR < Sub(s, rcv) < NEAR
  }

  lemma SubAdd(base: SeqPoint, adv: nat)
    requires adv < HALF
    ensures Sub(Add(base, adv), base) == adv
  {
  }

  /** A chain depends only on the segments that start at or after its own start. */
  lemma {:induction false} ChainIgnoresStale(m: Buffer, m': Buffer, base: SeqPoint, adv: nat)
    requires Near(m, base) && Near(m', base) && adv < 2 * NEAR
    requires forall s :: s in m && Sub(s, base) >= adv ==> s in m' && m'[s] == m[s]
    requires forall s :: s in m' && Sub(s, base) >= adv ==> s in m
    ensures ChainFrom(m, Add(base, adv)) == ChainFrom(m', Add(base, adv))
    decreases |m|
  {
    hide Add, Sub;
    var rcv := Add(base, adv);
    SubAdd(base, adv);
    if rcv in m {
      var n := |m[rcv]|;
      AddAdd(base, adv, n);
      ChainIgnoresStale(m - {rcv}, m' - {rcv}, base, adv + n);
    }
  }

  /** A chain over near segments ends near: at most one payload past the last start. */
  lemma {:induction false} ChainLength(m: Buffer, base: SeqPoint, adv: nat, bound: nat)
    requires bound <= NEAR && adv < bound + MAX_PAYLOAD
    requires forall s :: s in m ==> -NEAR < Sub(s, base) < bound
    ensures adv + |ChainFrom(m, Add(base, adv))| < bound + MAX_PAYLOAD
    decreases |m|
  {
    hide Add, Sub;
    var rcv := Add(base, adv);
    SubAdd(base, adv);
    if rcv in m {
      var n := |m[rcv]|;
      AddAdd(base, adv, n);
      ChainLength(m - {rcv}, base, adv + n, bound);
    }
  }

  /** The payloads buffered under `starts`, one after the other. */
  function Joined(m: Buffer, starts: seq<SeqPoint>): seq<byte>
    requires forall s :: s in starts ==> s in m
  {
    if starts == [] then [] else m[starts[0]] + Joined(m, starts[1..])
  }

  /** Each start is where the payload before it ends, the first one being `rcv`. */
  predicate Linked(m: Buffer, starts: seq<SeqPoint>, rcv: SeqPoint)
    requires forall s :: s in starts ==> s in m
  {
    starts != [] ==> starts[0] == rcv && Linked(m, starts[1..], Add(rcv, |m[rcv]|))
  }

  lemma {:induction false} JoinedStays(m: Buffer, m': Buffer, starts: seq<SeqPoint>, rcv: SeqPoint)
    requires forall s :: s in starts ==> s in m && s in m' && m[s] == m'[s]
    ensures Joined(m, starts) == Joined(m', starts) && (Linked(m, starts, rcv) <==> Linked(m', starts, rcv))
  {
    if starts != [] {
      JoinedStays(m, m', starts[1..], Add(rcv, |m[starts[0]]|));
      assert Linked(m, starts, rcv) <==> starts[0] == rcv && Linked(m, starts[1..], Add(rcv, |m[starts[0]]|));
    }
  }

  /**
   What a chain is: buffered payloads, each starting exactly where the one before it ends, as far as that
   goes; at its end no buffered segment starts.
   */
  lemma {:induction false} ChainLinks(m: Buffer, base: SeqPoint, adv: nat, bound: nat) returns (starts: seq<SeqPoint>)
    requires bound <= NEAR && adv < bound + MAX_PAYLOAD
    requires forall s :: s in m ==> -NEAR < Sub(s, base) < bound
    ensures forall s :: s in starts ==> s in m
    ensures Linked(m, starts, Add(base, adv)) && ChainFrom(m, Add(base, adv)) == Joined(m, starts)
    ensures forall s :: s in m ==> Sub(s, base) != adv + |ChainFrom(m, Add(base, adv))|
    decreases |m|
  {
    hide Add, Sub;
    var rcv := Add(base, adv);
    SubAdd(base, adv);
    if rcv in m {
      var n := |m[rcv]|;
      AddAdd(base, adv, n);
      var rest := ChainLinks(m - {rcv}, base, adv + n, bound);
      starts := [rcv] + rest;
      JoinedStays(m - {rcv}, m, rest, Add(rcv, n));
      assert starts[1..] == rest;
    } else {
      starts := [];
      forall s | s in m
        ensures Sub(s, base) != adv
      {
        PointOf(s, base);
      }
    }
  }

  lemma PointOf(s: SeqPoint, base: SeqPoint)
    ensures Sub(s, base) >= 0 ==> s == Add(base, Sub(s, base))
  {
  }

  /** `payload` is what the stream carries at offset `pos`. */
  ghost predicate PieceOf(stream: seq<byte>, pos: int, payload: seq<byte>) {
    0 <= pos && pos + |payload| <= |stream| && stream[pos..pos + |payload|] == payload
  }

  /** Every buffered segment is a piece of the stream, with offset `k` of the stream at `rcv`. */
  ghost predicate FollowsStream(m: Buffer, stream: seq<byte>, rcv: SeqPoint, k: int) {
    forall s :: s in m ==> PieceOf(stream, k + Sub(s, rcv), m[s])
  }

  lemma PieceEmpty(stream: seq<byte>, pos: nat)
    requires pos <= |stream|
    ensures PieceOf(stream, pos, [])
  {
  }

  lemma PieceFits(stream: seq<byte>, pos: int, payload: seq<byte>)
    requires PieceOf(stream, pos, payload)
    ensures 0 <= pos && pos + |payload| <= |stream|
  {
  }

  lemma PieceConcat(stream: seq<byte>, pos: int, a: seq<byte>, b: seq<byte>)
    ensures PieceOf(stream, pos, a) && PieceOf(stream, pos + |a|, b) <==> PieceOf(stream, pos, a + b)
  {
    var mid, end := pos + |a|, pos + |a| + |b|;
    if 0 <= pos && end <= |stream| {
      assert stream[pos..end] == stream[pos..mid] + stream[mid..end];
      assert (a + b)[..|a|] == a && (a + b)[|a|..] == b;
    }
  }

  /** Whatever is buffered and in whichever order it came, a chain is the next stretch of the stream. */
  lemma {:induction false} ChainFollowsStream(m: Buffer, stream: seq<byte>, base: SeqPoint, k: nat, adv: nat)
    requires Near(m, base) && adv < 2 * NEAR && k + adv <= |stream|
    requires FollowsStream(m, stream, base, k)
    ensures PieceOf(stream, k + adv, ChainFrom(m, Add(base, adv)))
    decreases |m|
  {
    hide Add, Sub, PieceOf;
    var rcv := Add(base, adv);
    SubAdd(base, adv);
    PieceEmpty(stream, k + adv);
    if rcv in m {
      var n := |m[rcv]|;
      AddAdd(base, adv, n);
      PieceFits(stream, k + adv, m[rcv]);
      ChainFollowsStream(m - {rcv}, stream, base, k, adv + n);
      PieceConcat(stream, k + adv, m[rcv], ChainFrom(m - {rcv}, Add(rcv, n)));
    }
  }

  function InsertedAll(m: Buffer, arrivals: seq<Buffered>): Buffer {
    if arrivals == [] then m
    else
      var last := |arrivals| - 1;
      Inserted(InsertedAll(m, arrivals[..last]), arrivals[last].start, arrivals[last].payload)
  }

  ghost predicate Agree(arrivals: seq<Buffered>) {
    forall a, b :: a in arrivals && b in arrivals && a.start == b.start && |a.payload| == |b.payload| ==> a == b
  }

  /** After any arrivals, each start holds one of the longest payloads that arrived for it. */
  lemma {:induction false} InsertedAllLongest(arrivals: seq<Buffered>)
    ensures forall s :: s in InsertedAll(map[], arrivals) ==> Buffered(s, InsertedAll(map[], arrivals)[s]) in arrivals
    ensures forall a :: a in arrivals ==>
              a.start in InsertedAll(map[], arrivals) && |a.payload| <= |InsertedAll(map[], arrivals)[a.start]|
  {
    if arrivals != [] {
      var last := |arrivals| - 1;
      InsertedAllLongest(arrivals[..last]);
      assert arrivals == arrivals[..last] + [arrivals[last]];
      forall a | a in arrivals
        ensures a.start in InsertedAll(map[], arrivals) && |a.payload| <= |InsertedAll(map[], arrivals)[a.start]|
      {
        assert a in arrivals[..last] || a == arrivals[last];
      }
    }
  }

  /** As a map, what is buffered depends on neither the order nor the repetition of arrivals. */
  lemma SameBuffer(xs: seq<Buffered>, ys: seq<Buffered>)
    requires forall a :: a in xs <==> a in ys
    requires Agree(xs)
    ensures InsertedAll(map[], xs) == InsertedAll(map[], ys)
  {
    hide *;
    InsertedAllLongest(xs);
    InsertedAllLongest(ys);
    var mx, my := InsertedAll(map[], xs), InsertedAll(map[], ys);
    forall s | s in mx || s in my
      ensures s in mx && s in my && mx[s] == my[s]
    {
      assert s in mx ==> Buffered(s, mx[s]) in ys;
      assert s in my ==> Buffered(s, my[s]) in xs;
      assert |mx[s]| <= |my[s]| && |my[s]| <= |mx[s]|;
      AgreeAt(xs, Buffered(s, mx[s]), Buffered(s, my[s]));
    }
  }

  lemma AgreeAt(arrivals: seq<Buffered>, a: Buffered, b: Buffered)
    requires Agree(arrivals) && a in arrivals && b in arrivals && a.start == b.start && |a.payload| == |b.payload|
    ensures a == b
  {
  }

  ghost predicate Submap(m: Buffer, m0: Buffer) {
    forall s :: s in m ==> s in m0 && m[s] == m0[s]
  }

  /** `m` is what a drain of `m0` still holds once it has advanced by `adv`, give or take stale entries. */
  ghost predicate DrainedTo(m0: Buffer, m: Buffer, base: SeqPoint, adv: nat) {
    && Near(m0, base) && adv < NEAR + MAX_PAYLOAD && Submap(m, m0)
    && forall s :: s in m0 && Sub(s, base) >= adv ==> s in m
  }

  /** One pass of the scan leaves out the segment at `rcv` and otherwise only stale ones. */
  ghost predicate Passed(m: Buffer, m': Buffer, rcv: SeqPoint) {
    && rcv !in m' && Submap(m', m)
    && forall s :: s in m && !PrecedesOrEq(s, rcv) ==> s in m'
  }

  lemma DrainSteps(m0: Buffer, m: Buffer, m': Buffer, base: SeqPoint, adv: nat)
    requires DrainedTo(m0, m, base, adv)
    requires Add(base, adv) in m && Passed(m, m', Add(base, adv))
    ensures var payload := m[Add(base, adv)];
            DrainedTo(m0, m', base, adv + |payload|) &&
            ChainFrom(m, Add(base, adv)) == payload + ChainFrom(m', Add(base, adv + |payload|))
  {
    hide Add, Sub, PrecedesOrEq;
    var rcv := Add(base, adv);
    var payload := m[rcv];
    SubAdd(base, adv);
    StaleIsBefore(m0, base, adv);
    AddAdd(base, adv, |payload|);
    ChainIgnoresStale(m - {rcv}, m', base, adv + |payload|);
  }

  lemma DrainEnds(m0: Buffer, m: Buffer, m': Buffer, base: SeqPoint, adv: nat)
    requires DrainedTo(m0, m, base, adv)
    requires Add(base, adv) !in m && Passed(m, m', Add(base, adv))
    requires forall s :: s in m' ==> !PrecedesOrEq(s, Add(base, adv))
    ensures ChainFrom(m, Add(base, adv)) == []
    ensures m' == After(m0, Add(base, adv))
  {
    hide Add, Sub, PrecedesOrEq;
    StaleIsBefore(m0, base, adv);
  }

  ghost predicate Distinct(segments: seq<Buffered>) {
    forall i, j :: 0 <= i < j < |segments| ==> segments[i].start != segments[j].start
  }

  ghost function ToMap(segments: seq<Buffered>): Buffer
    requires Distinct(segments)
  {
    map b | b in segments :: b.start := b.payload
  }

  lemma AtIsNotAfter(p: SeqPoint)
    ensures PrecedesOrEq(p, p)
  {
  }

  lemma DistinctTail(segments: seq<Buffered>)
    requires Distinct(segments) && segments != []
    ensures Distinct(segments[1..])
    ensures forall b :: b in segments <==> b == segments[0] || b in segments[1..]
    ensures forall b :: b in segments[1..] ==> b.start != segments[0].start
  {
    assert segments == [segments[0]] + segments[1..];
  }

  lemma DistinctCons(b: Buffered, segments: seq<Buffered>)
    requires Distinct(segments)
    ensures (forall c :: c in segments ==> c.start != b.start) ==> Distinct([b] + segments)
  {
    if forall c :: c in segments ==> c.start != b.start {
      assert forall i :: 0 <= i < |segments| ==> segments[i] in segments;
    }
  }

  /** What one pass does to the vector: the segment at `rcv` is taken, and only stale ones are lost. */
  lemma {:induction false} PassOnVector(segments: seq<Buffered>, rcv: SeqPoint)
    requires Distinct(segments)
    ensures var p := Pass(segments, rcv);
            && (forall b :: b in p.rest ==> b in segments)
            && (forall b :: b in segments && !PrecedesOrEq(b.start, rcv) ==> b in p.rest)
            && Distinct(p.rest)
            && (forall b :: b in p.rest ==> b.start != rcv)
            && (p.taken.Some? ==> Buffered(rcv, p.taken.value) in segments)
            && (p.taken == None ==> forall b :: b in segments ==> b.start != rcv)
            && (p.taken == None ==> forall b :: b in p.rest ==> !PrecedesOrEq(b.start, rcv))
  {
    hide PrecedesOrEq, Distinct;
    if segments != [] {
      var others := segments[1..];
      DistinctTail(segments);
      AtIsNotAfter(rcv);
      PassOnVector(others, rcv);
      DistinctCons(segments[0], Pass(others, rcv).rest);
    }
  }

  lemma PassOnMap(segments: seq<Buffered>, rcv: SeqPoint)
    requires Distinct(segments)
    ensures var p := Pass(segments, rcv);
            && Distinct(p.rest) && Passed(ToMap(segments), ToMap(p.rest), rcv)
            && (p.taken.Some? <==> rcv in ToMap(segments))
            && (p.taken.Some? ==> p.taken.value == ToMap(segments)[rcv])
            && (p.taken == None ==> forall s :: s in ToMap(p.rest) ==> !PrecedesOrEq(s, rcv))
  {
    hide PrecedesOrEq, Distinct, Pass;
    PassOnVector(segments, rcv);
    ToMapMembers(segments);
    ToMapMembers(Pass(segments, rcv).rest);
  }

  /** The vector scan computes the chain: same bytes, and exactly the later segments stay. */
  lemma {:induction false} DrainIsChain(segments: seq<Buffered>, base: SeqPoint, adv: nat, m0: Buffer)
    requires Distinct(segments) && DrainedTo(m0, ToMap(segments), base, adv)
    ensures var d := Drain(segments, Add(base, adv));
            && d.bytes == ChainFrom(ToMap(segments), Add(base, adv))
            && d.rcvNxt == Add(base, adv + |d.bytes|)
            && Distinct(d.rest) && ToMap(d.rest) == After(m0, d.rcvNxt)
    decreases |segments|
  {
    hide Add, Sub, PrecedesOrEq, Distinct, ToMap, DrainedTo, After, Passed, Pass, ChainFrom;
    var rcv := Add(base, adv);
    var p := Pass(segments, rcv);
    PassOnMap(segments, rcv);
    if p.taken == None {
      DrainEnds(m0, ToMap(segments), ToMap(p.rest), base, adv);
    } else {
      var n := |p.taken.value|;
      DrainSteps(m0, ToMap(segments), ToMap(p.rest), base, adv);
      AddAdd(base, adv, n);
      DrainIsChain(p.rest, base, adv + n, m0);
    }
  }

  function Flatten(payloads: seq<Payload>): seq<byte> {
    if payloads == [] then [] else Flatten(payloads[..|payloads| - 1]) + payloads[|payloads| - 1]
  }

  lemma FlattenAppend(payloads: seq<Payload>, payload: Payload)
    ensures Flatten(payloads + [payload]) == Flatten(payloads) + payload
  {
    assert (payloads + [payload])[..|payloads|] == payloads;
  }

  /** Buffering, when `i` is the first position that holds `start` or the length of the vector. */
  lemma {:induction false} InsertedIntoAt(segments: seq<Buffered>, i: nat, start: SeqPoint, payload: Payload)
    requires i <= |segments| && (forall j :: 0 <= j < i ==> segments[j].start != start)
    requires i < |segments| ==> segments[i].start == start
    ensures InsertedInto(segments, start, payload) ==
            if i == |segments| then segments + [Buffered(start, payload)]
            else if |payload| > |segments[i].payload| then segments[i := Buffered(start, payload)]
            else segments
  {
    if i > 0 {
      InsertedIntoAt(segments[1..], i - 1, start, payload);
    }
  }

  class TcpReassembly {
    var segments: seq<Buffered>
    var finSeq: Option<SeqPoint>

    constructor ()
      ensures segments == [] && finSeq == None
    {
      segments := [];
      finSeq := None;
    }

    /** The first FIN position recorded is kept. */
    method MarkFin(fin: SeqPoint)
      modifies this`finSeq
      ensures finSeq == if old(finSeq) == None then Some(fin) else old(finSeq)
    {
      if finSeq == None {
        finSeq := Some(fin);
      }
    }

    predicate FinReached(rcvNxt: SeqPoint)
      reads this
    {
      finSeq.Some? && PrecedesOrEq(finSeq.value, rcvNxt)
    }

    method Insert(start: SeqPoint, payload: Payload)
      modifies this`segments
      ensures segments == InsertedInto(old(segments), start, payload)
    {
      hide InsertedInto;
      var i := 0;
      while i < |segments| && segments[i].start != start
        invariant 0 <= i <= |segments|
        invariant forall j :: 0 <= j < i ==> segments[j].start != start
      {
        i := i + 1;
      }
      InsertedIntoAt(segments, i, start, payload);
      if i == |segments| {
        segments := segments + [Buffered(start, payload)];
      } else if |payload| > |segments[i].payload| {
        segments := segments[i := Buffered(start, payload)];
      }
    }

    /** Takes the payloads that now continue RCV.NXT, one pass over the vector for each. */
    method DrainContiguous(rcvNxt: SeqPoint) returns (out: seq<Payload>, rcvNxt': SeqPoint)
      modifies this`segments
      ensures Drained(Flatten(out), rcvNxt', segments) == Drain(old(segments), rcvNxt)
    {
      out, rcvNxt' := [], rcvNxt;
      while true
        invariant Drain(old(segments), rcvNxt) == Drain(segments, rcvNxt').After(Flatten(out))
        decreases |segments|
      {
        var taken := ExtractUpTo(rcvNxt');
        if taken == None {
          break;
        }
        FlattenAppend(out, taken.value);
        AfterAfter(Drain(segments, Add(rcvNxt', |taken.value|)), Flatten(out), taken.value);
        out, rcvNxt' := out + [taken.value], Add(rcvNxt', |taken.value|);
      }
    }

    /** One pass in place, from the front of the vector. */
    method ExtractUpTo(rcv: SeqPoint) returns (taken: Option<Payload>)
      modifies this`segments
      ensures Scan(segments, taken) == Pass(old(segments), rcv)
    {
      var i := 0;
      while i < |segments|
        invariant 0 <= i <= |segments|
        invariant Pass(old(segments), rcv) ==
                  var p := Pass(segments[i..], rcv); p.(rest := segments[..i] + p.rest)
        decreases |segments| - i
      {
        var b := segments[i];
        if PrecedesOrEq(b.start, rcv) {
          segments := segments[..i] + segments[i + 1..];
          if b.start == rcv {
            return Some(b.payload);
          }
        } else {
          i := i + 1;
        }
      }
      return None;
    }
  }

  lemma ToMapAt(segments: seq<Buffered>, i: nat)
    requires Distinct(segments) && i < |segments|
    ensures segments[i].start in ToMap(segments) && ToMap(segments)[segments[i].start] == segments[i].payload
  {
    assert segments[i] in segments;
  }

  lemma ToMapMembers(segments: seq<Buffered>)
    requires Distinct(segments)
    ensures forall b :: b in segments <==> b.start in ToMap(segments) && ToMap(segments)[b.start] == b.payload
  {
    forall b | b in segments
      ensures b.start in ToMap(segments) && ToMap(segments)[b.start] == b.payload
    {
      var i :| 0 <= i < |segments| && segments[i] == b;
      ToMapAt(segments, i);
    }
  }

  lemma ToMapUpdated(segments: seq<Buffered>, segments': seq<Buffered>, b: Buffered)
    requires Distinct(segments) && Distinct(segments') && b in segments'
    requires forall c: Buffered :: c.start != b.start ==> (c in segments' <==> c in segments)
    ensures ToMap(segments') == ToMap(segments)[b.start := b.payload]
  {
    var i :| 0 <= i < |segments'| && segments'[i] == b;
    ToMapAt(segments', i);
    hide Distinct;
    var m, m' := ToMap(segments), ToMap(segments');
    forall s | s in m && s != b.start
      ensures s in m' && m'[s] == m[s]
    {
      var c :| c in segments && c.start == s;
      assert c in segments';
    }
    forall s | s in m' && s != b.start
      ensures s in m
    {
      var c :| c in segments' && c.start == s;
      assert c in segments;
    }
  }

  /** Near RCV.NXT, "at or before" on the wire is "at or before" as offsets. */
  lemma StaleIsBefore(m: Buffer, base: SeqPoint, adv: nat)
    requires Near(m, base) && adv < 2 * NEAR
    ensures forall s :: s in m ==> (PrecedesOrEq(s, Add(base, adv)) <==> Sub(s, base) <= adv)
  {
    hide PrecedesOrEq, Add, Sub;
    forall s | s in m
      ensures PrecedesOrEq(s, Add(base, adv)) <==> Sub(s, base) <= adv
    {
      StaleAt(s, base, adv);
    }
  }

  lemma StaleAt(s: SeqPoint, base: SeqPoint, adv: nat)
    requires -NEAR < Sub(s, base) < NEAR && adv < 2 * NEAR
    ensures PrecedesOrEq(s, Add(base, adv)) <==> Sub(s, base) <= adv
  {
  }

  /** Buffering in the vector is buffering in the map, and starts stay pairwise distinct. */
  lemma InsertedIntoMap(segments: seq<Buffered>, start: SeqPoint, payload: Payload)
    requires Distinct(segments)
    ensures Distinct(InsertedInto(segments, start, payload))
    ensures ToMap(InsertedInto(segments, start, payload)) == Inserted(ToMap(segments), start, payload)
  {
    hide Distinct, ToMap, InsertedInto;
    var kept := InsertedIntoVector(segments, start, payload);
    ToMapMembers(segments);
    ToMapUpdated(segments, InsertedInto(segments, start, payload), Buffered(start, kept));
    var m := ToMap(segments);
    if start in m {
      assert Buffered(start, m[start]) in segments;
      assert kept == if |payload| > |m[start]| then payload else m[start];
      assert m[start := m[start]] == m;
    } else {
      assert Buffered(start, kept) !in segments;
    }
  }

  lemma {:induction false} InsertedIntoVector(segments: seq<Buffered>, start: SeqPoint, payload: Payload)
    returns (kept: Payload)
    requires Distinct(segments)
    ensures var after := InsertedInto(segments, start, payload);
            && Distinct(after) && Buffered(start, kept) in after
            && (forall c: Buffered :: c.start != start ==> (c in after <==> c in segments))
            && (kept == payload || Buffered(start, kept) in segments)
            && |kept| >= |payload|
            && (forall c :: c in segments && c.start == start ==>
                  kept == if |payload| > |c.payload| then payload else c.payload)
  {
    hide Distinct;
    if segments == [] {
      kept := payload;
      assert InsertedInto(segments, start, payload) == [Buffered(start, kept)] + [];
      EmptyVector();
      DistinctCons(Buffered(start, kept), []);
    } else {
      var first, others := segments[0], segments[1..];
      assert segments == [first] + others;
      DistinctTail(segments);
      if first.start == start {
        kept := if |payload| > |first.payload| then payload else first.payload;
        DistinctCons(Buffered(start, kept), others);
        assert InsertedInto(segments, start, payload) == [Buffered(start, kept)] + others;
      } else {
        kept := InsertedIntoVector(others, start, payload);
        DistinctCons(first, InsertedInto(others, start, payload));
        assert first !in others;
      }
    }
  }

  /** The vector after buffering segments in order of arrival, from empty. */
  function VectorAfter(arrivals: seq<Buffered>): seq<Buffered> {
    if arrivals == [] then []
    else
      var last := |arrivals| - 1;
      InsertedInto(VectorAfter(arrivals[..last]), arrivals[last].start, arrivals[last].payload)
  }

  lemma {:induction false} VectorIsMap(arrivals: seq<Buffered>)
    ensures Distinct(VectorAfter(arrivals)) && ToMap(VectorAfter(arrivals)) == InsertedAll(map[], arrivals)
  {
    hide InsertedInto, Inserted, Distinct, ToMap;
    if arrivals == [] {
      EmptyVector();
    } else {
      var last := |arrivals| - 1;
      VectorIsMap(arrivals[..last]);
      InsertedIntoMap(VectorAfter(arrivals[..last]), arrivals[last].start, arrivals[last].payload);
    }
  }

  lemma EmptyVector()
    ensures Distinct([]) && ToMap([]) == map[]
  {
  }

  /** Draining a vector at `rcv`, with all starts near it, in terms of the map. */
  lemma DrainOfMap(segments: seq<Buffered>, rcv: SeqPoint)
    requires Distinct(segments) && Near(ToMap(segments), rcv)
    ensures var d := Drain(segments, rcv);
            && d.bytes == ChainFrom(ToMap(segments), rcv) && d.rcvNxt == Add(rcv, |d.bytes|)
            && Distinct(d.rest) && ToMap(d.rest) == After(ToMap(segments), d.rcvNxt)
  {
    hide Distinct, ToMap, Drain, ChainFrom, After;
    assert Add(rcv, 0) == rcv;
    DrainIsChain(segments, rcv, 0, ToMap(segments));
  }

  /**
   Neither the order nor the repetition of consistent arrivals changes what the vector gives back:
   the same bytes, the same RCV.NXT, and the same segments left.
   */
  lemma OrderIndependent(xs: seq<Buffered>, ys: seq<Buffered>, rcv: SeqPoint)
    requires (forall a :: a in xs <==> a in ys) && Agree(xs)
    requires forall a :: a in xs ==> -NEAR < Sub(a.start, rcv) < NEAR
    ensures var d, d' := Drain(VectorAfter(xs), rcv), Drain(VectorAfter(ys), rcv);
            && d.bytes == d'.bytes && d.rcvNxt == d'.rcvNxt
            && Distinct(d.rest) && Distinct(d'.rest) && ToMap(d.rest) == ToMap(d'.rest)
  {
    hide Distinct, ToMap, Drain, ChainFrom, After, Agree, VectorAfter, InsertedAll, Sub;
    SameBuffer(xs, ys);
    VectorIsMap(xs);
    VectorIsMap(ys);
    InsertedAllLongest(xs);
    DrainOfMap(VectorAfter(xs), rcv);
    DrainOfMap(VectorAfter(ys), rcv);
  }
}
