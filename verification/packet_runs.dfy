/** A running engine as the network sees it: packets in, packets out. */
module PacketRuns {
  import opened Base
  import opened SeqSpace
  import opened Segment
  import opened Pending
  import opened State
  import opened SendInfos
  import opened Transitions
  import SendSide
  import Clients
  import opened Timers
  import opened Runs
  import opened Theorems
  import opened Connections
  import opened Packets = Packet
  import IcmpWire
  import opened Engines
  import opened TableRuns

  // Packets in

  /** What can happen to an engine: bytes arrive, a deadline passes, a shutdown is asked for. */
  datatype Input = Data(data: seq<byte>, isn: SeqPoint, now: Time) | Deadline(now: Time) | Interrupt(now: Time)

  /** What an input is to the connections; only a TCP packet that parses is anything to them. */
  function SignalsOf(i: Input): seq<Signal> {
    match i
    case Data(data, isn, now) =>
      (match ParsePacket(data)
       case Ok(TcpRouter(seg)) => [Packet(seg, isn, now)]
       case Ok(_) => []
       case Err => [])
    case Deadline(now) => [Wake(now)]
    case Interrupt(now) => [Shutdown(now)]
  }

  function AllSignals(inputs: seq<Input>): seq<Signal> {
    if inputs == [] then [] else SignalsOf(inputs[0]) + AllSignals(inputs[1..])
  }

  ghost function InputStep(s: Setup, st: EngineState, i: Input): EngineState {
    match i
    case Data(data, isn, now) => st.(table := PacketHandled(s.app, data, st.table, isn, now).table)
    case Deadline(now) => EngineStep(s, st, Wake(now))
    case Interrupt(now) => EngineStep(s, st, Shutdown(now))
  }

  ghost function InputRun(s: Setup, st: EngineState, inputs: seq<Input>): EngineState
    decreases |inputs|
  {
    if inputs == [] then st else InputRun(s, InputStep(s, st, inputs[0]), inputs[1..])
  }

  /**
   A packet that does not parse, or is not TCP, changes nothing; whatever comes of a packet, only its
   own entry can change.
   */
  lemma OnlyItsOwnEntry(s: Setup, st: EngineState, data: seq<byte>, isn: SeqPoint, now: Time, k: ConnKey)
    ensures var t := InputStep(s, st, Data(data, isn, now)).table;
            match ParsePacket(data)
            case Ok(TcpRouter(seg)) =>
              k != KeyOf(seg) ==> (k in t <==> k in st.table) && (k in t ==> t[k] == st.table[k])
            case Ok(_) => t == st.table
            case Err => t == st.table && PacketHandled(s.app, data, st.table, isn, now).outcome == Err
  {
    hide ParsePacket, HandleKnown, StatelessReply, ResetFor;
  }

  /** What is sent back for a packet: by the same protocol, the other way around, and saying what it should. */
  predicate Answers(app: ServerApp, incoming: Router, reply: Router) {
    && reply.IpPair() == incoming.IpPair().Swapped()
    && match incoming
       case TcpRouter(seg) => reply.TcpRouter? && reply.seg.ports == seg.ports.Swapped() && Fits(reply.seg)
       case UdpRouter(dgram) =>
         && reply.UdpRouter? && reply.dgram.ports == dgram.ports.Swapped()
         && |reply.dgram.payload| == |dgram.payload|
         && forall i :: 0 <= i < |dgram.payload| ==> reply.dgram.payload[i] == app.RespondByte(dgram.payload[i])
       case IcmpRouter(msg) =>
         reply.IcmpRouter? && reply.msg == msg.(ipPair := msg.ipPair.Swapped(), icmpType := IcmpWire.ECHO_REPLY)
  }

  /**
   Every reply answers the packet it is for. A datagram or echo request always gets one, unless the
   length of the reply with its header exceeds 16 bits, and a segment the one its connection decides on;
   handling fails only then, on a packet that does not parse, and where the connection fails.
   */
  lemma RepliesAnswer(app: ServerApp, data: seq<byte>, t: Table, isn: SeqPoint, now: Time)
    requires TableFits(t)
    ensures var r := PacketHandled(app, data, t, isn, now).outcome;
            && (r.Ok? ==> ParsePacket(data) == Ok(r.value.incoming))
            && (r.Ok? && r.value.reply.Some? ==> Answers(app, r.value.incoming, r.value.reply.value))
            && match ParsePacket(data)
               case Err => r.Err?
               case Ok(TcpRouter(seg)) =>
                 var reply := Decide(app, seg, t, isn, now).reply;
                 && (r.Err? <==> reply.Err?)
                 && (r.Ok? ==> (r.value.reply.Some? <==> reply.value.Some?))
               case Ok(incoming) =>
                 && (r.Err? <==> IPV4_HDR_MIN_LEN + incoming.Length() > 0xFFFF)
                 && (r.Ok? ==> r.value.reply.Some?)
  {
    hide ParsePacket, Decide, TableFits;
    if ParsePacket(data).Ok? && ParsePacket(data).value.TcpRouter? {
      DecidedFits(app, ParsePacket(data).value.seg, t, isn, now);
    }
  }

  /** A run on inputs is the engine's run on the signals they amount to. */
  lemma {:induction false} InputRunIsEngineRun(s: Setup, st: EngineState, inputs: seq<Input>)
    ensures InputRun(s, st, inputs) == EngineRun(s, st, AllSignals(inputs))
    decreases |inputs|
  {
    hide EngineStep, InputStep, SignalsOf;
    if inputs != [] {
      var signals := SignalsOf(inputs[0]);
      OneSignalAtMost(s, st, inputs[0]);
      InputRunIsEngineRun(s, InputStep(s, st, inputs[0]), inputs[1..]);
      assert signals + AllSignals(inputs[1..]) == if signals == [] then AllSignals(inputs[1..]) else AllSignals(inputs);
      assert signals != [] ==> AllSignals(inputs)[1..] == AllSignals(inputs[1..]);
    }
  }

  lemma OneSignalAtMost(s: Setup, st: EngineState, i: Input)
    ensures |SignalsOf(i)| <= 1
    ensures InputStep(s, st, i) == if SignalsOf(i) == [] then st else EngineStep(s, st, SignalsOf(i)[0])
  {
    hide ParsePacket, Decide, StatelessReply, TimedOut, ShutDown;
  }

  // Packets out

  /** What goes out for segments; one that does not fit a packet cannot be written. */
  function OnWire(segs: seq<TcpSegment>): seq<seq<byte>> {
    if segs == [] then []
    else
      var bytes := EncodePacket(TcpRouter(segs[0]));
      (if bytes.Ok? then [bytes.value] else []) + OnWire(segs[1..])
  }

  /** The TCP packets that the engine sends to the client of `k` on one input. */
  function PacketsTo(s: Setup, st: EngineState, i: Input, k: ConnKey): seq<seq<byte>> {
    match i
    case Data(data, isn, now) => RepliesTo(PacketHandled(s.app, data, st.table, isn, now).outcome, k)
    case Deadline(now) => OnWire(Resends(st.table, k, s.rto, s.maxRetries, now))
    case Interrupt(now) => if st.deadline == None then OnWire(Fins(st.table, k, now)) else []
  }

  function RepliesTo(outcome: Result<PacketOutcome>, k: ConnKey): seq<seq<byte>> {
    match outcome
    case Ok(PacketOutcome(TcpRouter(seg), Some(TcpRouter(reply)))) => if KeyOf(seg) == k then OnWire([reply]) else []
    case Ok(_) => []
    case Err => []
  }

  ghost function AllPackets(s: Setup, st: EngineState, inputs: seq<Input>, k: ConnKey): seq<seq<byte>>
    decreases |inputs|
  {
    if inputs == [] then []
    else PacketsTo(s, st, inputs[0], k) + AllPackets(s, InputStep(s, st, inputs[0]), inputs[1..], k)
  }

  /** What a client gets out of packets: the segments of those it can parse. */
  function Received(packets: seq<seq<byte>>): seq<TcpSegment> {
    if packets == [] then []
    else
      (match ParsePacket(packets[0])
       case Ok(TcpRouter(seg)) => [seg]
       case Ok(_) => []
       case Err => []) + Received(packets[1..])
  }

  /** A segment that fits a packet and has no options. */
  predicate Fits(seg: TcpSegment) {
    Len(seg.payload) <= MAX_PAYLOAD_LEN && seg.offsetBytes == TCP_HDR_MIN_LEN
  }

  /** Segments that fit arrive as they were sent. */
  lemma {:induction false} FittingArrive(segs: seq<TcpSegment>)
    requires forall seg :: seg in segs ==> Fits(seg)
    ensures Received(OnWire(segs)) == segs
  {
    hide ParsePacket, EncodePacket;
    if segs != [] {
      var first := TcpRouter(segs[0]);
      assert segs[0] in segs;
      PacketRoundTrip(first);
      FittingArrive(segs[1..]);
      var bytes := EncodePacket(first).value;
      assert ([bytes] + OnWire(segs[1..]))[1..] == OnWire(segs[1..]);
    }
  }

  lemma {:induction false} OnWireConcat(a: seq<TcpSegment>, b: seq<TcpSegment>)
    ensures OnWire(a + b) == OnWire(a) + OnWire(b)
  {
    hide EncodePacket;
    if a == [] {
      assert a + b == b;
    } else {
      var bytes := EncodePacket(TcpRouter(a[0]));
      var head := if bytes.Ok? then [bytes.value] else [];
      assert (a + b)[0] == a[0] && (a + b)[1..] == a[1..] + b;
      OnWireConcat(a[1..], b);
      assert head + (OnWire(a[1..]) + OnWire(b)) == (head + OnWire(a[1..])) + OnWire(b);
    }
  }

  /** Nothing pending is too long for a packet. */
  ghost predicate PendingFits(pending: seq<PendingSegment>) {
    forall p :: p in pending ==> Len(p.info.payload) <= MAX_PAYLOAD_LEN
  }

  ghost predicate TableFits(t: Table) {
    forall k :: k in t ==> PendingFits(t[k].pending)
  }

  lemma SendingFits(c: Conn, w: WindowState, payload: Option<Payload>, now: Time)
    ensures Len(payload) <= MAX_PAYLOAD_LEN ==> Len(DataOrAck(c, payload, now).info.payload) <= MAX_PAYLOAD_LEN
    ensures DrainTransmittable(c, w).Ok? ==> Len(DrainTransmittable(c, w).value.payload) <= MAX_PAYLOAD_LEN
    ensures CloseWaitOrLastAck(c, w, now).info.Ok? ==>
              Len(CloseWaitOrLastAck(c, w, now).info.value.payload) <= MAX_PAYLOAD_LEN
  {
  }

  /** Whatever is replied to, no reply is too long for a packet. */
  lemma ReplyFits(app: ServerApp, seg: TcpSegment, c: Conn, now: Time)
    ensures var info := ReplyOf(HandleKnown(app, seg, c, now)); info.Some? ==>
              Len(info.value.payload) <= MAX_PAYLOAD_LEN
  {
    hide DataOrAck, DrainTransmittable, CloseWaitOrLastAck, AckedConn, AckedWindow, CheckSeq, DeliverBuffered,
         Deliver, FinReached, BufferSegment, Precedes, PrecedesOrEq, HandleSynRcv, HandleEstablished;
    if c.state.SynReceived? {
      SynRcvFits(app, seg, c, now);
    } else if c.state.Established? {
      EstablishedFits(app, seg, c, now);
    } else {
      SendingFits(AckedConn(c, seg.ackNum), AckedWindow(c, c.state.window, seg), None, now);
    }
  }

  /** What is sent once a stretch has been delivered, or a FIN closes the connection. */
  lemma OpenFits(app: ServerApp, seg: TcpSegment, c: Conn, w: WindowState, now: Time)
    ensures var c3 := DeliverBuffered(app, Deliver(app, c, Bytes(seg.payload)));
            && (DrainTransmittable(c3, w).Ok? ==>
                  var t := DrainTransmittable(c3, w).value;
                  Len(DataOrAck(t.conn, t.payload, now).info.payload) <= MAX_PAYLOAD_LEN)
            && (var r := CloseWaitOrLastAck(ConsumeFin(c3), w, now);
                r.info.Ok? ==> Len(r.info.value.payload) <= MAX_PAYLOAD_LEN)
    ensures var r := CloseOnInOrderFin(app, seg, c, w, now);
            r.reply.Ok? && r.reply.value.info.Some? ==> Len(r.reply.value.info.value.payload) <= MAX_PAYLOAD_LEN
  {
    hide DataOrAck, DrainTransmittable, CloseWaitOrLastAck, AckedConn, AckedWindow, DeliverBuffered, Deliver;
    var c3 := DeliverBuffered(app, Deliver(app, c, Bytes(seg.payload)));
    SendingFits(c3, w, None, now);
    if DrainTransmittable(c3, w).Ok? {
      SendingFits(DrainTransmittable(c3, w).value.conn, w, DrainTransmittable(c3, w).value.payload, now);
    }
    SendingFits(ConsumeFin(c3), w, None, now);
    var c2 := ConsumeFin(Deliver(app, c, Bytes(seg.payload)));
    SendingFits(AckedConn(c2, seg.ackNum), AckedWindow(c2, w, seg), None, now);
  }

  lemma SynRcvFits(app: ServerApp, seg: TcpSegment, c: Conn, now: Time)
    ensures var info := ReplyOf(HandleSynRcv(app, seg, c, now)); info.Some? ==>
              Len(info.value.payload) <= MAX_PAYLOAD_LEN
  {
    hide DataOrAck, DrainTransmittable, CloseWaitOrLastAck, AckedConn, AckedWindow, CheckSeq, DeliverBuffered,
         Deliver, FinReached, BufferSegment, Precedes, PrecedesOrEq, CloseOnInOrderFin;
    OpenFits(app, seg, CompleteHandshake(seg, c), CompleteHandshake(seg, c).state.window, now);
  }

  lemma EstablishedFits(app: ServerApp, seg: TcpSegment, c: Conn, now: Time)
    requires c.state.Established?
    ensures var info := ReplyOf(HandleEstablished(app, seg, c, now)); info.Some? ==>
              Len(info.value.payload) <= MAX_PAYLOAD_LEN
  {
    hide DataOrAck, DrainTransmittable, CloseWaitOrLastAck, AckedConn, AckedWindow, CheckSeq, DeliverBuffered,
         Deliver, FinReached, BufferSegment, Precedes, PrecedesOrEq, CloseOnInOrderFin;
    var w1 := AckedWindow(c, c.state.window, seg);
    var c1 := AckedConn(c, seg.ackNum).(state := Established(w1));
    SendingFits(c1, w1, None, now);
    OpenFits(app, seg, c1, w1, now);
    OpenFits(app, seg, c, c.state.window, now);
  }

  lemma {:induction false} DueFits(pending: seq<PendingSegment>, rto: RtoConfig, now: Time)
    requires PendingFits(pending)
    ensures forall info :: info in DueInfos(pending, rto, now) ==> Len(info.payload) <= MAX_PAYLOAD_LEN
  {
    hide Due;
    if pending != [] {
      assert pending[0] in pending;
      DueFits(pending[1..], rto, now);
    }
  }

  lemma ResentFits(pending: seq<PendingSegment>, rto: RtoConfig, now: Time)
    requires PendingFits(pending)
    ensures PendingFits(AfterResend(pending, rto, now))
  {
    hide Due, AfterResend;
    var after := AfterResend(pending, rto, now);
    forall p | p in after
      ensures Len(p.info.payload) <= MAX_PAYLOAD_LEN
    {
      var i :| 0 <= i < |after| && after[i] == p;
      assert pending[i] in pending;
    }
  }

  /** A packet leaves the table with nothing too long pending, and its reply is not too long either. */
  lemma DecidedFits(app: ServerApp, seg: TcpSegment, t: Table, isn: SeqPoint, now: Time)
    requires TableFits(t)
    ensures var d := Decide(app, seg, t, isn, now);
            && TableFits(d.table)
            && (d.reply.Ok? && d.reply.value.Some? ==> Len(d.reply.value.value.payload) <= MAX_PAYLOAD_LEN)
  {
    hide HandleKnown, KeyOf;
    if KeyOf(seg) in t {
      ReplyFits(app, seg, t[KeyOf(seg)], now);
      PendingIsReply(app, seg, t[KeyOf(seg)], now);
    }
  }

  lemma StepFits(s: Setup, st: EngineState, e: Signal, k: ConnKey)
    requires TableFits(st.table)
    ensures TableFits(EngineStep(s, st, e).table)
    ensures forall seg :: seg in OutTo(s, st, e, k) ==> Fits(seg)
  {
    hide Decide, GivesUp, AfterResend, DueInfos, PendingFits;
    match e
    case Packet(seg, isn, now) => DecidedFits(s.app, seg, st.table, isn, now);
    case Wake(now) => WakeFits(s, st, now, k);
    case Shutdown(now) => ShutdownFits(s, st, now, k);
  }

  lemma WakeFits(s: Setup, st: EngineState, now: Time, k: ConnKey)
    requires TableFits(st.table)
    ensures TableFits(TimedOut(st.table, s.rto, s.maxRetries, now))
    ensures forall seg :: seg in Resends(st.table, k, s.rto, s.maxRetries, now) ==> Fits(seg)
  {
    hide GivesUp, AfterResend, DueInfos, PendingFits;
    forall l | l in TimedOut(st.table, s.rto, s.maxRetries, now)
      ensures PendingFits(TimedOut(st.table, s.rto, s.maxRetries, now)[l].pending)
    {
      ResentFits(st.table[l].pending, s.rto, now);
    }
    if k in st.table {
      DueFits(st.table[k].pending, s.rto, now);
    }
  }

  lemma ShutdownFits(s: Setup, st: EngineState, now: Time, k: ConnKey)
    requires TableFits(st.table)
    ensures TableFits(ShutDown(st, s.grace, now).table)
    ensures forall seg :: seg in Fins(st.table, k, now) ==> Fits(seg)
  {
  }

  /** The packets that an input sends to a client are those of the segments its signal sends. */
  lemma PacketsAreSegments(s: Setup, st: EngineState, i: Input, k: ConnKey)
    requires TableFits(st.table)
    ensures PacketsTo(s, st, i, k) == if SignalsOf(i) == [] then [] else OnWire(OutTo(s, st, SignalsOf(i)[0], k))
  {
    hide Decide, ParsePacket, Resends, Fins, StatelessReply, EncodePacket;
    if i.Data? && SignalsOf(i) != [] {
      var seg := ParsePacket(i.data).value.seg;
      DecidedFits(s.app, seg, st.table, i.isn, i.now);
      var reply := Decide(s.app, seg, st.table, i.isn, i.now).reply;
      if reply.Ok? && reply.value.Some? {
        ReplyGoesBack(seg, reply.value.value);
      }
    }
  }

  lemma {:induction false} PacketsAreOnWire(s: Setup, st: EngineState, inputs: seq<Input>, k: ConnKey)
    requires TableFits(st.table)
    ensures AllPackets(s, st, inputs, k) == OnWire(SentTo(s, st, AllSignals(inputs), k))
    ensures forall seg :: seg in SentTo(s, st, AllSignals(inputs), k) ==> Fits(seg)
    decreases |inputs|
  {
    hide EngineStep, InputStep, SignalsOf, PacketsTo, OutTo, TableFits, Fits, OnWire;
    if inputs == [] {
      NothingOnWire();
    } else {
      var signals, rest := SignalsOf(inputs[0]), AllSignals(inputs[1..]);
      OneSignalAtMost(s, st, inputs[0]);
      PacketsAreSegments(s, st, inputs[0], k);
      if signals == [] {
        assert AllSignals(inputs) == rest;
      } else {
        StepFits(s, st, signals[0], k);
        assert AllSignals(inputs)[0] == signals[0] && AllSignals(inputs)[1..] == rest;
        OnWireConcat(OutTo(s, st, signals[0], k), SentTo(s, EngineStep(s, st, signals[0]), rest, k));
      }
      PacketsAreOnWire(s, InputStep(s, st, inputs[0]), inputs[1..], k);
    }
  }

  lemma NothingOnWire()
    ensures OnWire([]) == []
  {
  }

  /**
   In every run of an engine, from an empty table on and whatever bytes come in: what the client under
   a key can parse of the packets it has been sent is, one for one and in order, the segments the
   connections have decided to send it.
   */
  lemma PacketsCarrySegments(s: Setup, deadline: Option<Time>, inputs: seq<Input>, k: ConnKey)
    ensures var start := EngineState(map[], deadline);
            Received(AllPackets(s, start, inputs, k)) == SentTo(s, start, AllSignals(inputs), k)
  {
    var start := EngineState(map[], deadline);
    PacketsAreOnWire(s, start, inputs, k);
    FittingArrive(SentTo(s, start, AllSignals(inputs), k));
  }

  /**
   The echo, from bytes to bytes: for a client that sends its stream and acknowledges only what it was
   sent, once its connection is in LAST-ACK, the packets the engine has sent to it carry every byte of
   the response to its whole stream at the right place, and the FIN right behind, whatever other
   packets, deadlines and interrupts there have been.
   */
  lemma ClientGetsPackets(s: Setup, deadline: Option<Time>, inputs: seq<Input>, k: ConnKey, stream: seq<byte>)
    requires var start := EngineState(map[], deadline);
             var f := Follow(s, start, AllSignals(inputs), k, NOBODY);
             && k in InputRun(s, start, inputs).table && InputRun(s, start, inputs).table[k].state.LastAck?
             && TrackAcksSent(s, f) && TrackFaithful(s, f, stream)
    ensures var start := EngineState(map[], deadline);
            var got := Received(AllPackets(s, start, inputs, k));
            var track := Follow(s, start, AllSignals(inputs), k, NOBODY).track;
            && track.Some?
            && (forall i: nat :: i < |stream| ==> ByteSent(got, i, s.app.RespondByte(stream[i]), track.value.iss))
            && FinSent(got, |stream|, track.value.iss)
  {
    hide EngineRun, InputRun, Follow, AllPackets, Received, SentTo, AllSignals, InStep, ByteSent, FinSent,
         TrackFaithful, TrackAcksSent, TrackSound, Followed.All, ServerApp.RespondByte;
    var start := EngineState(map[], deadline);
    var f := Follow(s, start, AllSignals(inputs), k, NOBODY);
    InputRunIsEngineRun(s, start, inputs);
    TrackAcksAreSound(s, f);
    ClientGetsResponse(s, deadline, AllSignals(inputs), k, stream);
    EntryIsItsRun(s, deadline, AllSignals(inputs), k);
    PacketsCarrySegments(s, deadline, inputs, k);
    SentAmong(f, f.track.value.iss);
  }

  /** The client acknowledges only what it was sent. */
  ghost predicate TrackAcksSent(s: Setup, f: Followed) {
    f.track.Some? ==>
      var track := f.track.value;
      Clients.AllAcksSent(ConfigOf(s), Opened(track.iss, track.syn, track.now), track.events)
  }

  lemma TrackAcksAreSound(s: Setup, f: Followed)
    requires TrackAcksSent(s, f)
    ensures TrackSound(s, f)
  {
    hide AllSound, Clients.AllAcksSent, SendHistory;
    if f.track.Some? {
      var track := f.track.value;
      OpenedSends(ConfigOf(s), track.iss, track.syn, track.now);
      Clients.AcksOfSentAreSound(ConfigOf(s), Opened(track.iss, track.syn, track.now), track.events);
    }
  }

  lemma SentAmong(f: Followed, iss: SeqPoint)
    ensures forall i: nat, b :: ByteSent(f.out, i, b, iss) ==> ByteSent(f.All(), i, b, iss)
    ensures forall n: nat :: FinSent(f.out, n, iss) ==> FinSent(f.All(), n, iss)
  {
    hide Add, At;
    assert forall seg :: seg in f.out ==> seg in f.All();
  }

  /**
   The same for a single connection: every segment its run emits fits a packet, and the peer that
   parses that packet gets the segment with exactly the sequence number, acknowledgment, flags and
   data that were decided.
   */
  lemma EmittedArriveIntact(
    cfg: Config, iss: SeqPoint, syn: TcpSegment, now: Time, events: seq<Event>, w: World, e: Emission, ipPair: AddrPair,
    ports: PortPair)
    requires Reachable(cfg, iss, syn, now, events, w) && e in w.hist.emitted
    ensures var seg := FromPairsAndInfo(ipPair, ports, e.info);
            Fits(seg) && ParsePacket(EncodePacket(TcpRouter(seg)).value) == Ok(TcpRouter(seg))
  {
    hide AllSound, Run, SendSide.SendInv, ParsePacket, EncodePacket, At;
    ReachableSends(cfg, iss, syn, now, events, w);
    PacketRoundTrip(TcpRouter(FromPairsAndInfo(ipPair, ports, e.info)));
  }
}
