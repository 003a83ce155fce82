/** Every connection in the table of a running engine is in the run its own signals make up. */
module TableRuns {
  import opened Base
  import opened SeqSpace
  import opened Segment
  import opened Pending
  import opened SendInfos
  import opened SendSide
  import opened Timers
  import opened Runs
  import opened Coverage
  import opened Theorems
  import opened Connections
  import opened Engines

  function ConfigOf(s: Setup): Config {
    Config(s.app, s.rto, s.maxRetries)
  }

  /** What a signal to the engine is for the connection under `k`, if anything. */
  function EventFor(st: EngineState, e: Signal, k: ConnKey): Option<Event> {
    match e
    case Packet(seg, _, now) => if KeyOf(seg) == k then Some(Arrive(seg, now)) else None
    case Wake(now) => Some(Timeout(now))
    case Shutdown(now) => if st.deadline == None then Some(ActiveClose(now)) else None
  }

  /** A signal moves each entry exactly as its event moves the connection on its own; no entry affects another. */
  lemma EntryFollowsRun(s: Setup, st: EngineState, e: Signal, k: ConnKey, h: History)
    requires k in st.table
    ensures var w := Live(st.table[k], h);
            var w' := if EventFor(st, e, k) == None then w else Step(ConfigOf(s), w, EventFor(st, e, k).value);
            var t := EngineStep(s, st, e).table;
            (k in t <==> w'.Live?) && (k in t ==> t[k] == w'.conn)
  {
    hide HandleKnown, GivesUp, AfterResend, DueEmissions, KeyOf;
  }

  /** The only entries that appear are answered SYNs. */
  lemma NewEntryIsOpened(s: Setup, st: EngineState, e: Signal, k: ConnKey)
    requires k !in st.table && k in EngineStep(s, st, e).table
    ensures e.Packet? && e.seg.flags == Syn && KeyOf(e.seg) == k
    ensures EngineStep(s, st, e).table[k] == Opened(e.isn, e.seg, e.now).conn
  {
    hide HandleKnown, GivesUp, AfterResend, KeyOf;
  }

  /** What the table sends again for a connection is what the run of that connection emits. */
  lemma {:induction false} ResendsAreEmissions(pending: seq<PendingSegment>, q: int, rto: RtoConfig, now: Time)
    ensures |DueEmissions(pending, q, rto, now)| == |DueInfos(pending, rto, now)|
    ensures forall i :: 0 <= i < |DueInfos(pending, rto, now)| ==>
              DueEmissions(pending, q, rto, now)[i].info == DueInfos(pending, rto, now)[i]
  {
    if pending != [] {
      ResendsAreEmissions(pending[1..], q + Consumed(pending[0].info), rto, now);
    }
  }

  lemma RunAppend(cfg: Config, w: World, events: seq<Event>, e: Event)
    ensures Run(cfg, w, events + [e]) == Step(cfg, Run(cfg, w, events), e)
    ensures AllSound(cfg, w, events + [e]) <==> AllSound(cfg, w, events) && Sound(Run(cfg, w, events), e)
  {
    hide Run, AllSound, Step, Sound;
    RunConcat(cfg, w, events, [e]);
    RunOne(cfg, Run(cfg, w, events), e);
  }

  function Infos(emitted: seq<Emission>): (infos: seq<SendInfo>)
    ensures |infos| == |emitted|
  {
    seq(|emitted|, i requires 0 <= i < |emitted| => emitted[i].info)
  }

  lemma SegmentsConcat(k: ConnKey, emitted: seq<Emission>, added: seq<Emission>)
    ensures SegmentsFor(k, Infos(emitted + added)) == SegmentsFor(k, Infos(emitted)) + SegmentsFor(k, Infos(added))
  {
  }

  /** What the engine sends to the client of `k` on one signal. */
  function OutTo(s: Setup, st: EngineState, e: Signal, k: ConnKey): seq<TcpSegment> {
    match e
    case Packet(seg, isn, now) =>
      var reply := Decide(s.app, seg, st.table, isn, now).reply;
      if KeyOf(seg) == k && reply.Ok? && reply.value.Some? then [SegmentFor(k, reply.value.value)] else []
    case Wake(now) => Resends(st.table, k, s.rto, s.maxRetries, now)
    case Shutdown(now) => if st.deadline == None then Fins(st.table, k, now) else []
  }

  /** A reply goes to the client whose segment it answers. */
  lemma ReplyGoesBack(seg: TcpSegment, info: SendInfo)
    ensures SegmentFor(KeyOf(seg), info) == FromPairsAndInfo(seg.ipPair.Swapped(), seg.ports.Swapped(), info)
  {
  }

  /** A signal makes the engine send to the client of an entry exactly what the entry's own step emits. */
  lemma StepEmits(s: Setup, st: EngineState, e: Signal, k: ConnKey, h: History)
    requires k in st.table && EventFor(st, e, k).Some?
    ensures SegmentsFor(k, Infos(Step(ConfigOf(s), Live(st.table[k], h), EventFor(st, e, k).value).hist.emitted)) ==
            SegmentsFor(k, Infos(h.emitted)) + OutTo(s, st, e, k)
  {
    hide HandleKnown, GivesUp, AfterResend, DueEmissions, DueInfos, KeyOf, SegmentsFor, Infos;
    var c := st.table[k];
    var h' := Step(ConfigOf(s), Live(c, h), EventFor(st, e, k).value).hist;
    NothingToSend(k);
    match e
    case Packet(seg, isn, now) =>
      var r := HandleKnown(s.app, seg, c, now);
      if r.reply.Ok? && r.reply.value.info.Some? {
        OneToSend(k, |h.sent|, r.reply.value.info.value);
        SegmentsConcat(k, h.emitted, [Emission(|h.sent|, r.reply.value.info.value)]);
      } else {
        assert h.emitted + [] == h.emitted;
      }
    case Wake(now) =>
      if !GivesUp(c.pending, s.rto, s.maxRetries, now) {
        var q := PendingOffset(c, h);
        ResendsAreEmissions(c.pending, q, s.rto, now);
        InfosOfDue(c.pending, q, s.rto, now);
        SegmentsConcat(k, h.emitted, DueEmissions(c.pending, q, s.rto, now));
      }
    case Shutdown(now) =>
      if c.state.Established? {
        OneToSend(k, |h.sent|, CloseActively(c, now).info);
        SegmentsConcat(k, h.emitted, [Emission(|h.sent|, CloseActively(c, now).info)]);
      }
  }

  lemma NothingToSend(k: ConnKey)
    ensures SegmentsFor(k, Infos([])) == []
    ensures SegmentsFor(k, []) == []
  {
  }

  lemma OneToSend(k: ConnKey, offset: int, info: SendInfo)
    ensures SegmentsFor(k, Infos([Emission(offset, info)])) == [SegmentFor(k, info)]
  {
  }

  lemma InfosOfDue(pending: seq<PendingSegment>, q: int, rto: RtoConfig, now: Time)
    ensures Infos(DueEmissions(pending, q, rto, now)) == DueInfos(pending, rto, now)
  {
    hide DueEmissions, DueInfos;
    ResendsAreEmissions(pending, q, rto, now);
  }

  /** The SYN that opened a connection, the number it was answered with, and the events it has seen since. */
  datatype Track = Track(iss: SeqPoint, syn: TcpSegment, now: Time, events: seq<Event>)

  /**
   The latest connection under a key, if there has been one, and all that has been sent to its client:
   before its SYN, while its entry existed, and since that is gone.
   */
  datatype Followed = Followed(
    track: Option<Track>,
    before: seq<TcpSegment>,
    out: seq<TcpSegment>,
    after: seq<TcpSegment>)
  {
    function All(): seq<TcpSegment> {
      before + out + after
    }
  }

  /** Nobody is followed yet. */
  const NOBODY := Followed(None, [], [], [])

  ghost function FollowStep(s: Setup, st: EngineState, e: Signal, k: ConnKey, f: Followed): Followed {
    if k in st.table then
      if f.track == None || EventFor(st, e, k) == None then f
      else
        var track := f.track.value;
        f.(track := Some(track.(events := track.events + [EventFor(st, e, k).value])),
           out := f.out + OutTo(s, st, e, k))
    else if k in EngineStep(s, st, e).table && e.Packet? then
      Followed(Some(Track(e.isn, e.seg, e.now, [])), f.All(), OutTo(s, st, e, k), [])
    else f.(after := f.after + OutTo(s, st, e, k))
  }

  /** The signals of a run that concern `k`, since its latest SYN. */
  ghost function Follow(s: Setup, st: EngineState, signals: seq<Signal>, k: ConnKey, f: Followed): Followed
    decreases |signals|
  {
    if signals == [] then f
    else Follow(s, EngineStep(s, st, signals[0]), signals[1..], k, FollowStep(s, st, signals[0], k, f))
  }

  ghost function WorldOf(s: Setup, track: Track): World {
    Run(ConfigOf(s), Opened(track.iss, track.syn, track.now), track.events)
  }

  /** Everything the engine sends to the client of `k` in a run, in order. */
  ghost function SentTo(s: Setup, st: EngineState, signals: seq<Signal>, k: ConnKey): seq<TcpSegment>
    decreases |signals|
  {
    if signals == [] then []
    else OutTo(s, st, signals[0], k) + SentTo(s, EngineStep(s, st, signals[0]), signals[1..], k)
  }

  /** A reset for a segment that belongs to no connection. */
  predicate BareReset(seg: TcpSegment) {
    seg.flags == Rst && seg.payload == None
  }

  /**
   The entry under `k` is where its own run has led, and while it existed its client has been sent what
   that run emitted, in order; without an entry the client is sent nothing but bare resets.
   */
  ghost predicate InStep(s: Setup, st: EngineState, k: ConnKey, f: Followed) {
    && (forall seg :: seg in f.after ==> BareReset(seg))
    && (k in st.table ==> f.after == [])
    && if f.track == None then k !in st.table && f.out == []
       else
         var w := WorldOf(s, f.track.value);
         && (k in st.table <==> w.Live?) && (w.Live? && k in st.table ==> st.table[k] == w.conn)
         && f.out == SegmentsFor(k, Infos(w.hist.emitted))
  }

  /** Without an entry there is nothing to send but a SYN-ACK, which makes one, or a bare reset. */
  lemma NoEntryOnlyResets(s: Setup, st: EngineState, e: Signal, k: ConnKey)
    requires k !in st.table && k !in EngineStep(s, st, e).table
    ensures forall seg :: seg in OutTo(s, st, e, k) ==> BareReset(seg)
  {
    hide HandleKnown, GivesUp, AfterResend;
  }

  lemma NoEventNothingSent(s: Setup, st: EngineState, e: Signal, k: ConnKey)
    requires EventFor(st, e, k) == None
    ensures OutTo(s, st, e, k) == []
  {
    hide HandleKnown;
  }

  lemma StepStaysInStep(s: Setup, st: EngineState, e: Signal, k: ConnKey, f: Followed)
    requires InStep(s, st, k, f)
    ensures InStep(s, EngineStep(s, st, e), k, FollowStep(s, st, e, k, f))
    ensures FollowStep(s, st, e, k, f).All() == f.All() + OutTo(s, st, e, k)
  {
    hide EngineStep, Step, SegmentsFor, Infos, OutTo, Run;
    if k in st.table {
      assert f.before + (f.out + OutTo(s, st, e, k)) + [] == f.before + f.out + [] + OutTo(s, st, e, k);
      EntryStaysInStep(s, st, e, k, f);
    } else if k in EngineStep(s, st, e).table {
      NewEntryIsOpened(s, st, e, k);
      OpenedEmits(s, st, e, k);
    } else {
      assert f.before + f.out + (f.after + OutTo(s, st, e, k)) == f.before + f.out + f.after + OutTo(s, st, e, k);
      NoEntryOnlyResets(s, st, e, k);
    }
  }

  lemma EntryStaysInStep(s: Setup, st: EngineState, e: Signal, k: ConnKey, f: Followed)
    requires InStep(s, st, k, f) && k in st.table
    ensures InStep(s, EngineStep(s, st, e), k, FollowStep(s, st, e, k, f))
    ensures EventFor(st, e, k) == None ==> OutTo(s, st, e, k) == []
  {
    hide EngineStep, Step, SegmentsFor, Infos, OutTo, Run;
    var w := WorldOf(s, f.track.value);
    EntryFollowsRun(s, st, e, k, w.hist);
    if EventFor(st, e, k).Some? {
      var track := f.track.value;
      RunAppend(ConfigOf(s), Opened(track.iss, track.syn, track.now), track.events, EventFor(st, e, k).value);
      StepEmits(s, st, e, k, w.hist);
    } else {
      NoEventNothingSent(s, st, e, k);
    }
  }

  lemma OpenedEmits(s: Setup, st: EngineState, e: Signal, k: ConnKey)
    requires k !in st.table && e.Packet? && e.seg.flags == Syn && KeyOf(e.seg) == k
    ensures Run(ConfigOf(s), Opened(e.isn, e.seg, e.now), []) == Opened(e.isn, e.seg, e.now)
    ensures OutTo(s, st, e, k) == SegmentsFor(k, Infos(Opened(e.isn, e.seg, e.now).hist.emitted))
  {
    hide HandleKnown, SegmentsFor, Infos, KeyOf;
    OneToSend(k, 0, SendInfo(e.isn, Add(e.seg.seqNum, 1), SynAck, None));
  }

  lemma {:induction false} RunStaysInStep(s: Setup, st: EngineState, signals: seq<Signal>, k: ConnKey, f: Followed)
    requires InStep(s, st, k, f)
    ensures InStep(s, EngineRun(s, st, signals), k, Follow(s, st, signals, k, f))
    ensures Follow(s, st, signals, k, f).All() == f.All() + SentTo(s, st, signals, k)
    decreases |signals|
  {
    hide InStep, EngineStep, FollowStep, OutTo, Followed.All;
    if signals == [] {
      assert f.All() + [] == f.All();
    } else {
      var f1, st1 := FollowStep(s, st, signals[0], k, f), EngineStep(s, st, signals[0]);
      StepStaysInStep(s, st, signals[0], k, f);
      RunStaysInStep(s, st1, signals[1..], k, f1);
      assert f.All() + OutTo(s, st, signals[0], k) + SentTo(s, st1, signals[1..], k) ==
             f.All() + (OutTo(s, st, signals[0], k) + SentTo(s, st1, signals[1..], k));
    }
  }

  /**
   In every run of an engine, from an empty table on: the entry under any key is exactly where the
   run of the signals it has received since its SYN has led. All that its client has ever been sent
   is what was sent before that SYN, exactly the segments that run emitted, in order, and, once the
   entry is gone, bare resets.
   */
  lemma EntryIsItsRun(s: Setup, deadline: Option<Time>, signals: seq<Signal>, k: ConnKey)
    ensures var start := EngineState(map[], deadline);
            var f := Follow(s, start, signals, k, NOBODY);
            InStep(s, EngineRun(s, start, signals), k, f) && f.All() == SentTo(s, start, signals, k)
  {
    var start := EngineState(map[], deadline);
    RunStaysInStep(s, start, signals, k, NOBODY);
    assert NOBODY.All() + SentTo(s, start, signals, k) == SentTo(s, start, signals, k);
  }

  /** No packet of the run slips on the connection it is for. */
  ghost predicate NoSlips(s: Setup, st: EngineState, signals: seq<Signal>)
    decreases |signals|
  {
    signals != [] ==>
      && (signals[0].Packet? && KeyOf(signals[0].seg) in st.table ==>
            !Slip(signals[0].seg, st.table[KeyOf(signals[0].seg)]))
      && NoSlips(s, EngineStep(s, st, signals[0]), signals[1..])
  }

  ghost predicate TrackSound(s: Setup, f: Followed) {
    f.track.Some? ==>
      var track := f.track.value;
      AllSound(ConfigOf(s), Opened(track.iss, track.syn, track.now), track.events)
  }

  lemma {:induction false} FollowedIsSound(s: Setup, st: EngineState, signals: seq<Signal>, k: ConnKey, f: Followed)
    requires InStep(s, st, k, f) && TrackSound(s, f) && NoSlips(s, st, signals)
    ensures TrackSound(s, Follow(s, st, signals, k, f))
    decreases |signals|
  {
    hide InStep, EngineStep, FollowStep, TrackSound, Slip, KeyOf;
    if signals != [] {
      StepStaysInStep(s, st, signals[0], k, f);
      StepIsSound(s, st, signals[0], k, f);
      FollowedIsSound(s, EngineStep(s, st, signals[0]), signals[1..], k, FollowStep(s, st, signals[0], k, f));
    }
  }

  lemma StepIsSound(s: Setup, st: EngineState, e: Signal, k: ConnKey, f: Followed)
    requires InStep(s, st, k, f) && TrackSound(s, f)
    requires e.Packet? && KeyOf(e.seg) in st.table ==> !Slip(e.seg, st.table[KeyOf(e.seg)])
    ensures TrackSound(s, FollowStep(s, st, e, k, f))
  {
    hide EngineStep, Step, SegmentsFor, Infos, OutTo, Run, KeyOf, Slip;
    if k in st.table && f.track.Some? && EventFor(st, e, k).Some? {
      var track := f.track.value;
      RunAppend(ConfigOf(s), Opened(track.iss, track.syn, track.now), track.events, EventFor(st, e, k).value);
    }
  }

  /** The client's own segments are consistent with its stream. */
  ghost predicate TrackFaithful(s: Setup, f: Followed, stream: seq<byte>) {
    f.track.Some? ==>
      var track := f.track.value;
      AllFaithful(ConfigOf(s), Opened(track.iss, track.syn, track.now), track.events, stream)
  }

  /** Some segment among `out` is our FIN behind a stream of `n` bytes that starts after `iss`. */
  ghost predicate FinSent(out: seq<TcpSegment>, n: nat, iss: SeqPoint) {
    exists seg :: seg in out && seg.flags == FinAck && Add(seg.seqNum, Len(seg.payload)) == At(iss + 1 + n)
  }

  /** Some segment among `out` carries `b` at the place of byte `i` of the stream that starts after `iss`. */
  ghost predicate ByteSent(out: seq<TcpSegment>, i: nat, b: byte, iss: SeqPoint) {
    exists seg, j: nat ::
      && seg in out && j < Len(seg.payload)
      && Bytes(seg.payload)[j] == b && Add(seg.seqNum, j) == At(iss + 1 + i)
  }

  /**
   The echo, seen from a client of a running engine: once its connection is in LAST-ACK, the segments
   sent to it since its SYN carry every byte of the response to its whole stream at the right place,
   and its FIN right behind, whatever else the engine has been doing. Only its own acknowledgments
   must not slip.
   */
  lemma ClientGetsResponse(s: Setup, deadline: Option<Time>, signals: seq<Signal>, k: ConnKey, stream: seq<byte>)
    requires var start := EngineState(map[], deadline);
             var f := Follow(s, start, signals, k, NOBODY);
             && k in EngineRun(s, start, signals).table && EngineRun(s, start, signals).table[k].state.LastAck?
             && TrackSound(s, f) && TrackFaithful(s, f, stream)
    ensures var f := Follow(s, EngineState(map[], deadline), signals, k, NOBODY);
            && f.track.Some? && WorldOf(s, f.track.value).hist.delivered == stream
            && (forall i: nat :: i < |stream| ==> ByteSent(f.out, i, s.app.RespondByte(stream[i]), f.track.value.iss))
            && FinSent(f.out, |stream|, f.track.value.iss)
  {
    hide EngineStep, EngineRun, Follow, Run, AllFaithful, AllSound, SegmentsFor, Infos, Add, At;
    var start := EngineState(map[], deadline);
    var f := Follow(s, start, signals, k, NOBODY);
    EntryIsItsRun(s, deadline, signals, k);
    TrackGetsResponse(s, k, f.track.value, stream);
  }

  lemma TrackGetsResponse(s: Setup, k: ConnKey, track: Track, stream: seq<byte>)
    requires var cfg, w0 := ConfigOf(s), Opened(track.iss, track.syn, track.now);
             AllSound(cfg, w0, track.events) && AllFaithful(cfg, w0, track.events, stream)
    requires WorldOf(s, track).Live? && WorldOf(s, track).conn.state.LastAck?
    ensures var w := WorldOf(s, track);
            var out := SegmentsFor(k, Infos(w.hist.emitted));
            && w.hist.delivered == stream
            && (forall i: nat :: i < |stream| ==> ByteSent(out, i, s.app.RespondByte(stream[i]), track.iss))
            && FinSent(out, |stream|, track.iss)
  {
    hide AllSound, AllFaithful, Run, Add, At, SegmentsFor, Infos, Responds, ByteEmitted, FinEmitted, SendHistory,
         ByteSent;
    var cfg, w := ConfigOf(s), WorldOf(s, track);
    NoEvents(cfg, w);
    PassiveEcho(cfg, track.iss, track.syn, track.now, track.events, w, [], stream);
    forall i: nat | i < |stream|
      ensures ByteSent(SegmentsFor(k, Infos(w.hist.emitted)), i, s.app.RespondByte(stream[i]), track.iss)
    {
      EmittedByteIsSent(s.app, w.hist, k, stream, track.iss, i);
    }
    EmittedFinIsSent(w.hist, k);
  }

  lemma EmittedByteIsSent(app: ServerApp, h: History, k: ConnKey, stream: seq<byte>, iss: SeqPoint, i: nat)
    requires i < |stream| && ByteEmitted(h, i)
    requires forall e :: e in h.emitted ==> Responds(app, e, stream, iss)
    ensures ByteSent(SegmentsFor(k, Infos(h.emitted)), i, app.RespondByte(stream[i]), iss)
  {
    hide Add, At, SegmentsFor, Infos, ServerApp.RespondByte;
    var e :| e in h.emitted && e.offset <= i < e.offset + Len(e.info.payload);
    SentSegment(h, k, e);
    assert RespondsAt(app, e, stream, iss, i - e.offset);
    var seg := SegmentFor(k, e.info);
    assert seg.payload == e.info.payload && seg.seqNum == e.info.seqNum;
  }

  lemma EmittedFinIsSent(h: History, k: ConnKey)
    requires FinEmitted(h)
    ensures exists e :: e in h.emitted && e.info.flags == FinAck
              && SegmentFor(k, e.info) in SegmentsFor(k, Infos(h.emitted))
    ensures forall info :: SegmentFor(k, info).flags == info.flags && SegmentFor(k, info).payload == info.payload
                           && SegmentFor(k, info).seqNum == info.seqNum
  {
    var e :| e in h.emitted && e.info.flags == FinAck;
    SentSegment(h, k, e);
  }

  lemma NoEvents(cfg: Config, w: World)
    ensures AllSound(cfg, w, []) && Run(cfg, w, []) == w
  {
  }

  lemma SentSegment(h: History, k: ConnKey, e: Emission)
    requires e in h.emitted
    ensures SegmentFor(k, e.info) in SegmentsFor(k, Infos(h.emitted))
  {
    var i :| 0 <= i < |h.emitted| && h.emitted[i] == e;
    assert SegmentsFor(k, Infos(h.emitted))[i] == SegmentFor(k, e.info);
  }
}
