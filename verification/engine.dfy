/** The engine around the table: packets, shutdown, draining and how long the caller may block. */
module Engines {
  import opened Base
  import opened SeqSpace
  import opened Segment
  import opened Pending
  import opened SendInfos
  import opened Timers
  import opened Connections
  import opened Packets = Packet

  datatype PacketOutcome = PacketOutcome(incoming: Router, reply: Option<Router>)

  datatype HandledPacket = HandledPacket(table: Table, outcome: Result<PacketOutcome>)

  /** The outcome with a reply, unless that is too long to have a header. */
  function WithReply(incoming: Router, reply: Router): Result<PacketOutcome> {
    if reply.Header().Err? then Err else Ok(PacketOutcome(incoming, Some(reply)))
  }

  /** The table and the outcome after a packet of any kind has come in. */
  function PacketHandled(app: ServerApp, data: seq<byte>, t: Table, isn: SeqPoint, now: Time): HandledPacket {
    match ParsePacket(data)
    case Err => HandledPacket(t, Err)
    case Ok(TcpRouter(seg)) =>
      var d := Decide(app, seg, t, isn, now);
      HandledPacket(d.table, SegmentOutcome(seg, d.reply))
    case Ok(incoming) => HandledPacket(t, WithReply(incoming, StatelessReply(app, incoming)))
  }

  function SegmentOutcome(seg: TcpSegment, reply: Result<Option<SendInfo>>): Result<PacketOutcome> {
    match reply
    case Err => Err
    case Ok(None) => Ok(PacketOutcome(TcpRouter(seg), None))
    case Ok(Some(info)) =>
      WithReply(TcpRouter(seg), TcpRouter(FromPairsAndInfo(seg.ipPair.Swapped(), seg.ports.Swapped(), info)))
  }

  datatype ShutdownOutcome =
    | AlreadyDraining(timeLeft: Time)
    | BeganDraining(toSend: seq<TcpSegment>)
    | NoConnections

  function Until(deadline: Time, now: Time): Time {
    Max(deadline - now, 0)
  }

  class Engine {
    const app: ServerApp
    const tcp: TcpConnections
    const shutdownGracePeriod: Time
    var shutdownDeadline: Option<Time>

    ghost predicate Valid()
      reads this, tcp, tcp.table.Values
    {
      tcp.Valid()
    }

    constructor (app: ServerApp, initialRto: Time, maxRetries: byte, shutdownGracePeriod: Time)
      ensures Valid() && tcp.View() == map[] && shutdownDeadline == None
      ensures this.app == app && this.shutdownGracePeriod == shutdownGracePeriod
    {
      this.app := app;
      this.shutdownGracePeriod := shutdownGracePeriod;
      shutdownDeadline := None;
      tcp := new TcpConnections(initialRto, maxRetries);
    }

    /** Parses a packet, lets its protocol decide on a reply, and puts a header in front of that. */
    method HandlePacket(data: seq<byte>, isn: SeqPoint, now: Time) returns (r: Result<PacketOutcome>)
      requires Valid()
      modifies tcp`table, tcp.table.Values, tcp.Parts()
      ensures Valid() && shutdownDeadline == old(shutdownDeadline)
      ensures HandledPacket(tcp.View(), r) == PacketHandled(app, data, old(tcp.View()), isn, now)
    {
      hide ParsePacket, Decide, TcpConnections.View, TcpConnections.Valid, TcpConnections.Parts, Router.Header,
           StatelessReply;
      var incoming := ParsePacket(data);
      if incoming == Err {
        return Err;
      }
      match incoming.value
      case TcpRouter(seg) =>
        var reply := tcp.DecideReply(app, seg, isn, now);
        r := SegmentOutcome(seg, reply);
      case UdpRouter(_) | IcmpRouter(_) => r := WithReply(incoming.value, StatelessReply(app, incoming.value));
    }

    method SetDeadline(deadline: Time)
      requires Valid()
      modifies this`shutdownDeadline
      ensures Valid() && shutdownDeadline == Some(deadline) && tcp.View() == old(tcp.View())
    {
      shutdownDeadline := Some(deadline);
    }

    /** Closes every established connection, once; later signals only report the time left. */
    method HandleShutdown(now: Time) returns (r: ShutdownOutcome)
      requires Valid()
      modifies this`shutdownDeadline, tcp.table.Values
      ensures Valid()
      ensures EngineState(tcp.View(), shutdownDeadline) ==
              ShutDown(old(EngineState(tcp.View(), shutdownDeadline)), shutdownGracePeriod, now)
      ensures match old(shutdownDeadline)
              case Some(deadline) => r.AlreadyDraining? && now + r.timeLeft == Max(now, deadline)
              case None =>
                if Begins(old(EngineState(tcp.View(), shutdownDeadline)), now)
                then r.BeganDraining? && forall k :: ForKey(r.toSend, k) == Fins(old(tcp.View()), k, now)
                else r == NoConnections && tcp.View() == old(tcp.View())
    {
      hide ClosedActively, ForKey, Fins, SomeMidClose, TcpConnections.View, TcpConnections.Valid,
           TcpConnections.ClosingInProgress;
      ghost var t := tcp.View();
      if shutdownDeadline.Some? {
        return AlreadyDraining(Until(shutdownDeadline.value, now));
      }
      var toSend := tcp.CloseEstablished(now);
      InProgressIs(tcp);
      NoneClosingUnchanged(t, now);
      if tcp.ClosingInProgress() {
        SetDeadline(now + shutdownGracePeriod);
        r := BeganDraining(toSend);
      } else {
        r := NoConnections;
      }
    }

    /** The shutdown deadline, or that of a pending segment. */
    ghost predicate IsDeadline(d: Time)
      reads this, tcp, tcp.table.Values
    {
      || shutdownDeadline == Some(d)
      || exists k, s :: k in tcp.table && s in tcp.table[k].pending && d == TimeDue(s, tcp.rto)
    }

    /** The time left until the earliest deadline of any kind, or `None` if there is none. */
    method PollTimeout(now: Time) returns (r: Option<Time>)
      requires Valid()
      ensures r == None <==> shutdownDeadline == None && forall k :: k in tcp.table ==> tcp.table[k].pending == []
      ensures r.Some? ==> exists d: Time :: IsDeadline(d) && (forall e: Time :: IsDeadline(e) ==> d <= e)
                                      && now + r.value == Max(now, d)
    {
      hide TimeDue;
      var next := tcp.NextRetransmitDeadline();
      var earliest := if shutdownDeadline == None then next
                      else if next == None then shutdownDeadline
                      else Some(Min(shutdownDeadline.value, next.value));
      r := if earliest == None then None else Some(Until(earliest.value, now));
      assert earliest.Some? ==> IsDeadline(earliest.value);
    }

    /** The caller may give up draining. */
    predicate GracePeriodElapsed(now: Time)
      reads this
    {
      shutdownDeadline.Some? && shutdownDeadline.value <= now
    }

    /** The caller is done draining. */
    predicate DrainingComplete()
      reads this, tcp, tcp.table.Values
    {
      shutdownDeadline.Some? && !tcp.ClosingInProgress()
    }
  }

  /** The engine as a value. */
  datatype EngineState = EngineState(table: Table, deadline: Option<Time>)

  ghost predicate SomeMidClose(t: Table) {
    exists k :: k in t && MidClose(t[k].state)
  }

  lemma InProgressIs(tcp: TcpConnections)
    ensures tcp.ClosingInProgress() <==> SomeMidClose(tcp.View())
  {
    tcp.ViewStates();
    if tcp.ClosingInProgress() {
      var k :| k in tcp.table && MidClose(tcp.table[k].tcpState);
      assert k in tcp.View() && MidClose(tcp.View()[k].state);
    }
  }

  /** Whether a shutdown signal at this moment starts draining. */
  ghost predicate Begins(st: EngineState, now: Time) {
    st.deadline == None && SomeMidClose(ClosedActively(st.table, now))
  }

  ghost function ShutDown(st: EngineState, grace: Time, now: Time): EngineState {
    if st.deadline.Some? then st
    else EngineState(ClosedActively(st.table, now), if Begins(st, now) then Some(now + grace) else None)
  }

  /** Without any connection mid-close after the close, there was nothing to close. */
  lemma NoneClosingUnchanged(t: Table, now: Time)
    ensures ClosedActively(t, now).Keys == t.Keys
    ensures !SomeMidClose(ClosedActively(t, now)) ==> ClosedActively(t, now) == t
    ensures SomeMidClose(ClosedActively(t, now)) <==>
            exists k :: k in t && (t[k].state.Established? || MidClose(t[k].state))
  {
    var t' := ClosedActively(t, now);
    forall k | k in t
      ensures MidClose(t'[k].state) <==> t[k].state.Established? || MidClose(t[k].state)
    {
    }
    if !SomeMidClose(t') {
      forall k | k in t
        ensures t'[k] == t[k]
      {
      }
    }
  }

  ghost predicate Elapsed(st: EngineState, now: Time) {
    st.deadline.Some? && st.deadline.value <= now
  }

  ghost predicate Complete(st: EngineState) {
    st.deadline.Some? && !SomeMidClose(st.table)
  }

  /** The two queries of a running engine, as statements about its state. */
  lemma QueriesAre(engine: Engine, now: Time)
    ensures var st := EngineState(engine.tcp.View(), engine.shutdownDeadline);
            && (engine.GracePeriodElapsed(now) <==> Elapsed(st, now))
            && (engine.DrainingComplete() <==> Complete(st))
  {
    InProgressIs(engine.tcp);
  }

  datatype Signal = Packet(seg: TcpSegment, isn: SeqPoint, now: Time) | Wake(now: Time) | Shutdown(now: Time)

  datatype Setup = Setup(app: ServerApp, rto: RtoConfig, maxRetries: byte, grace: Time)

  ghost function EngineStep(s: Setup, st: EngineState, e: Signal): EngineState {
    match e
    case Packet(seg, isn, now) => st.(table := Decide(s.app, seg, st.table, isn, now).table)
    case Wake(now) => st.(table := TimedOut(st.table, s.rto, s.maxRetries, now))
    case Shutdown(now) => ShutDown(st, s.grace, now)
  }

  ghost function EngineRun(s: Setup, st: EngineState, signals: seq<Signal>): EngineState
    decreases |signals|
  {
    if signals == [] then st else EngineRun(s, EngineStep(s, st, signals[0]), signals[1..])
  }

  /** How often draining begins in a run. */
  ghost function Begun(s: Setup, st: EngineState, signals: seq<Signal>): nat
    decreases |signals|
  {
    if signals == [] then 0
    else
      (if signals[0].Shutdown? && Begins(st, signals[0].now) then 1 else 0) +
      Begun(s, EngineStep(s, st, signals[0]), signals[1..])
  }

  /** A shutdown deadline, once set, never changes; draining begins at most once, and exactly if it is ever set. */
  lemma {:induction false} DrainsOnce(s: Setup, st: EngineState, signals: seq<Signal>)
    ensures st.deadline.Some? ==> EngineRun(s, st, signals).deadline == st.deadline && Begun(s, st, signals) == 0
    ensures st.deadline == None ==>
              Begun(s, st, signals) == if EngineRun(s, st, signals).deadline.Some? then 1 else 0
    decreases |signals|
  {
    hide Decide, TimedOut, ClosedActively;
    if signals != [] {
      DrainsOnce(s, EngineStep(s, st, signals[0]), signals[1..]);
    }
  }

  /**
   Neither end of draining comes before it begins, and the grace period, once elapsed, stays so. At
   the moment draining begins it is not complete, and it is complete exactly when what was to be
   closed is gone: every connection left has neither sent nor received a FIN.
   */
  lemma DrainingEnds(s: Setup, st: EngineState, signals: seq<Signal>, now: Time, later: Time)
    requires now <= later
    ensures Elapsed(st, now) ==> Elapsed(EngineRun(s, st, signals), later)
    ensures Begins(st, now) ==>
              var st' := ShutDown(st, s.grace, now);
              !Complete(st') && (Elapsed(st', later) <==> now + s.grace <= later)
    ensures !Begins(st, now) && st.deadline == None ==>
              var st' := ShutDown(st, s.grace, now);
              !Complete(st') && !Elapsed(st', later)
    ensures Complete(st) <==>
            && st.deadline.Some?
            && forall k :: k in st.table ==> st.table[k].state.SynReceived? || st.table[k].state.Established?
  {
    hide EngineRun, ClosedActively;
    DrainsOnce(s, st, signals);
  }

  /**
   After a shutdown signal that starts draining no established connection is left, and each has its one
   FIN pending.
   */
  lemma ShutdownClosesAll(st: EngineState, grace: Time, now: Time, k: ConnKey)
    requires Begins(st, now) && k in st.table
    ensures var c := ShutDown(st, grace, now).table[k];
            && !c.state.Established?
            && (st.table[k].state.Established? ==>
                  && c.state.FinWait1? && c.sndNxt == Add(st.table[k].sndNxt, 1)
                  && |Fins(st.table, k, now)| == 1 && Fins(st.table, k, now)[0].flags == FinAck
                  && c.pending == st.table[k].pending + [NewPending(CloseActively(st.table[k], now).info, now)])
            && (!st.table[k].state.Established? ==> c == st.table[k] && Fins(st.table, k, now) == [])
  {
  }

  /** Right after a timeout is handled every remaining deadline lies ahead of the clock. */
  lemma WakeMovesOn(t: Table, rto: RtoConfig, maxRetries: byte, now: Time, k: ConnKey)
    requires 0 < rto.min <= rto.max && k in TimedOut(t, rto, maxRetries, now)
    ensures TimedOut(t, rto, maxRetries, now)[k].pending != [] ==>
              Deadline(TimedOut(t, rto, maxRetries, now)[k].pending, rto).value > now
  {
    ResendMovesOn(t[k].pending, rto, now);
  }
}
