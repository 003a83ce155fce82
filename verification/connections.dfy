/** The table of connections, keyed by the two endpoints. */
module Connections {
  import opened Base
  import opened SeqSpace
  import opened Segment
  import opened Pending
  import opened State
  import opened Reassembly
  import opened SendInfos
  import opened Timers
  import Handlers

  datatype ConnKey = ConnKey(clientIp: Ipv4Addr, clientPort: u16, serverIp: Ipv4Addr, serverPort: u16)

  function KeyOf(seg: TcpSegment): ConnKey {
    ConnKey(seg.ipPair.src, seg.ports.src, seg.ipPair.dst, seg.ports.dst)
  }

  function SegmentFor(key: ConnKey, info: SendInfo): TcpSegment {
    FromPairsAndInfo(AddrPair(key.serverIp, key.clientIp), PortPair(key.serverPort, key.clientPort), info)
  }

  function SegmentsFor(key: ConnKey, infos: seq<SendInfo>): seq<TcpSegment> {
    seq(|infos|, i requires 0 <= i < |infos| => SegmentFor(key, infos[i]))
  }

  /** The segments of `out` that go to one client connection, in order. */
  function ForKey(out: seq<TcpSegment>, key: ConnKey): seq<TcpSegment> {
    if out == [] then []
    else
      var last := out[|out| - 1];
      ForKey(out[..|out| - 1], key) +
      if KeyOf(last.(ipPair := last.ipPair.Swapped(), ports := last.ports.Swapped())) == key then [last] else []
  }

  lemma {:induction false} ForKeyConcat(a: seq<TcpSegment>, b: seq<TcpSegment>, key: ConnKey)
    ensures ForKey(a + b, key) == ForKey(a, key) + ForKey(b, key)
  {
    if b == [] {
      assert a + b == a;
    } else {
      ForKeyConcat(a, b[..|b| - 1], key);
      assert (a + b)[..|a + b| - 1] == a + b[..|b| - 1];
    }
  }

  lemma {:induction false} ForKeyOfSegments(key: ConnKey, infos: seq<SendInfo>, other: ConnKey)
    ensures ForKey(SegmentsFor(key, infos), other) == if key == other then SegmentsFor(key, infos) else []
  {
    if infos != [] {
      var most := infos[..|infos| - 1];
      ForKeyOfSegments(key, most, other);
      assert SegmentsFor(key, infos)[..|infos| - 1] == SegmentsFor(key, most);
      assert SegmentsFor(key, infos) == SegmentsFor(key, most) + [SegmentFor(key, infos[|infos| - 1])];
    }
  }

  /** What goes out for a connection: from server to client, without options, with a window of 65535. */
  lemma SegmentIs(key: ConnKey, info: SendInfo)
    ensures SegmentFor(key, info) ==
            TcpSegment(AddrPair(key.serverIp, key.clientIp), PortPair(key.serverPort, key.clientPort),
                       info.seqNum, info.ackNum, 20, info.flags, 65535, info.payload)
  {
  }

  type Table = map<ConnKey, Conn>

  datatype Decided = Decided(table: Table, reply: Result<Option<SendInfo>>)

  /** The table and the reply after an arriving segment; only the entry under its own key can change. */
  function Decide(app: ServerApp, seg: TcpSegment, t: Table, isn: SeqPoint, now: Time): Decided {
    var key := KeyOf(seg);
    if key !in t then
      if seg.flags == Syn then
        var info := SendInfo(isn, Add(seg.seqNum, 1), SynAck, None);
        Decided(t[key := FromSynAck(info, now).value], Ok(Some(info)))
      else Decided(t, Ok(if seg.flags in {Rst, RstAck} then None else Some(ResetFor(seg))))
    else
      var h := HandleKnown(app, seg, t[key], now);
      if h.reply.Err? then Decided(t[key := h.conn], Err)
      else Decided(if h.reply.value.remove then t - {key} else t[key := h.conn], Ok(h.reply.value.info))
  }

  /**
   A segment without an entry: a SYN opens one, with its SYN-ACK pending from now on, a reset is dropped, and
   anything else is reset.
   */
  lemma UnknownExactly(app: ServerApp, seg: TcpSegment, t: Table, isn: SeqPoint, now: Time)
    requires ConnKey(seg.ipPair.src, seg.ports.src, seg.ipPair.dst, seg.ports.dst) !in t
    ensures var key := ConnKey(seg.ipPair.src, seg.ports.src, seg.ipPair.dst, seg.ports.dst);
            var synAck := SendInfo(isn, Add(seg.seqNum, 1), SynAck, None);
            var entry := Conn(SynReceived, Add(isn, 1), Add(seg.seqNum, 1), isn,
                              [PendingSegment(synAck, Add(isn, 1), now, 0)], [], [], None);
            Decide(app, seg, t, isn, now) ==
            if seg.flags == Syn then Decided(t[key := entry], Ok(Some(synAck)))
            else if seg.flags == Rst || seg.flags == RstAck then Decided(t, Ok(None))
            else Decided(t, Ok(Some(SendInfo(seg.ackNum, 0, Rst, None))))
  {
    hide Add;
  }

  /** Every connection after a timeout: given up, or with its due segments sent again. */
  function TimedOut(t: Table, rto: RtoConfig, maxRetries: byte, now: Time): Table {
    map k | k in t && !GivesUp(t[k].pending, rto, maxRetries, now) ::
      t[k].(pending := AfterResend(t[k].pending, rto, now))
  }

  /** Every connection after an active close of the established ones. */
  function ClosedActively(t: Table, now: Time): Table {
    map k | k in t :: if t[k].state.Established? then CloseActively(t[k], now).conn else t[k]
  }

  predicate MidClose(s: TcpState) {
    !s.SynReceived? && !s.Established?
  }

  /** One connection's retransmission, in place. */
  method RetransmitDue(conn: ConnState, rto: RtoConfig, now: Time) returns (infos: seq<SendInfo>)
    modifies conn`pending
    ensures conn.pending == AfterResend(old(conn.pending), rto, now)
    ensures infos == DueInfos(old(conn.pending), rto, now)
  {
    hide AfterResend, DueInfos, TimeDue, Resent;
    infos := [];
    ghost var before := conn.pending;
    ghost var after := AfterResend(before, rto, now);
    DueSplit(before, 0, rto, now);
    for i := 0 to |conn.pending|
      invariant |conn.pending| == |before|
      invariant forall j :: 0 <= j < i ==> conn.pending[j] == after[j]
      invariant forall j :: i <= j < |before| ==> conn.pending[j] == before[j]
      invariant infos == DueInfos(before[..i], rto, now)
    {
      DueSplit(before, i, rto, now);
      var s := conn.pending[i];
      assert s == before[i] && after[i] == if Due(s, rto, now) then Resent(s, now) else s;
      if TimeDue(s, rto) <= now {
        infos := infos + [s.info];
        conn.pending := conn.pending[i := Resent(s, now)];
      }
    }
    assert before[..|before|] == before;
  }

  lemma {:induction false} DueSplit(pending: seq<PendingSegment>, i: nat, rto: RtoConfig, now: Time)
    ensures DueInfos(pending[..0], rto, now) == []
    ensures i < |pending| ==>
              DueInfos(pending[..i + 1], rto, now) ==
              DueInfos(pending[..i], rto, now) + if Due(pending[i], rto, now) then [pending[i].info] else []
  {
    hide TimeDue;
    if 0 < i < |pending| {
      DueSplit(pending[1..], i - 1, rto, now);
      assert pending[..i + 1][1..] == pending[1..][..i] && pending[..i][1..] == pending[1..][..i - 1];
    }
  }

  lemma NothingDueNothingResent(pending: seq<PendingSegment>, rto: RtoConfig, maxRetries: byte, now: Time)
    requires !AnyDue(pending, rto, now)
    ensures AfterResend(pending, rto, now) == pending && DueInfos(pending, rto, now) == []
    ensures !GivesUp(pending, rto, maxRetries, now)
  {
    assert forall i :: 0 <= i < |pending| ==> pending[i] in pending;
    NothingDueNoInfos(pending, rto, now);
  }

  lemma {:induction false} NothingDueNoInfos(pending: seq<PendingSegment>, rto: RtoConfig, now: Time)
    requires forall s :: s in pending ==> !Due(s, rto, now)
    ensures DueInfos(pending, rto, now) == []
  {
    if pending != [] {
      assert pending[0] in pending;
      NothingDueNoInfos(pending[1..], rto, now);
    }
  }

  class TcpConnections {
    var table: map<ConnKey, ConnState>
    const rto: RtoConfig
    const maxRetries: byte

    /** Each entry is a connection of its own. */
    ghost predicate Valid()
      reads this, table.Values
    {
      forall k, l :: k in table && l in table && k != l ==>
        table[k] != table[l] && table[k].reassembly != table[l].reassembly
    }

    ghost function Parts(): set<TcpReassembly>
      reads this, table.Values
    {
      set k | k in table :: table[k].reassembly
    }

    ghost function View(): Table
      reads this, table.Values, Parts()
    {
      map k | k in table :: table[k].View()
    }

    constructor (initialRto: Time, maxRetries: byte)
      ensures Valid() && View() == map[]
      ensures rto == RtoConfig(initialRto, 200_000_000, 120_000_000_000) && this.maxRetries == maxRetries
    {
      table := map[];
      rto := RtoConfig(initialRto, TCP_RTO_MIN, TCP_RTO_MAX);
      this.maxRetries := maxRetries;
    }

    method DecideReply(app: ServerApp, seg: TcpSegment, isn: SeqPoint, now: Time) returns (r: Result<Option<SendInfo>>)
      requires Valid()
      modifies this`table, table.Values, Parts()
      ensures Valid() && Decided(View(), r) == Decide(app, seg, old(View()), isn, now)
    {
      hide Decide;
      if KeyOf(seg) in table {
        r := HandleKnownConn(app, seg, isn, now);
      } else {
        r := HandleUnknownConn(app, seg, isn, now);
      }
    }

    method HandleUnknownConn(
      app: ServerApp, seg: TcpSegment, isn: SeqPoint, now: Time) returns (r: Result<Option<SendInfo>>)
      requires Valid() && KeyOf(seg) !in table
      modifies this`table
      ensures Valid() && Decided(View(), r) == Decide(app, seg, old(View()), isn, now)
    {
      hide HandleKnown, KeyOf, ResetFor, View, Valid, FromSynAck;
      var key := KeyOf(seg);
      ViewKeys();
      if seg.flags == Syn {
        var info := SendInfo(isn, Add(seg.seqNum, 1), SynAck, None);
        Open(key, info, now);
        r := Ok(Some(info));
      } else {
        r := Ok(if seg.flags in {Rst, RstAck} then None else Some(ResetFor(seg)));
      }
    }

    twostate lemma SameViews()
      requires table == old(table) && forall k :: k in table ==> unchanged(table[k]) && unchanged(table[k].reassembly)
      ensures View() == old(View()) && (old(Valid()) ==> Valid())
    {
      hide ConnState.View;
      forall k | k in table
        ensures table[k].View() == old(table[k].View())
      {
        SameView(table[k]);
      }
    }

    /** A new entry, with its SYN-ACK pending. */
    method Open(key: ConnKey, info: SendInfo, now: Time)
      requires Valid() && info.flags == SynAck
      modifies this`table
      ensures Valid() && View() == old(View())[key := FromSynAck(info, now).value]
    {
      hide FromSynAck, ConnState.View;
      ghost var t := View();
      var conn := new ConnState.FromSynAckInfo(info, now);
      SameViews();
      table := table[key := conn];
      assert View() == t[key := conn.View()];
    }

    method HandleKnownConn(
      app: ServerApp, seg: TcpSegment, isn: SeqPoint, now: Time) returns (r: Result<Option<SendInfo>>)
      requires Valid() && KeyOf(seg) in table
      modifies this`table, table.Values, Parts()
      ensures Valid() && Decided(View(), r) == Decide(app, seg, old(View()), isn, now)
    {
      hide HandleKnown, KeyOf, ResetFor, FromSynAck, View, Valid;
      var key := KeyOf(seg);
      ViewKeys();
      var handled := UpdateEntry(app, seg, key, now);
      if handled == Err {
        r := Err;
      } else {
        if handled.value.remove {
          Remove(key);
        }
        r := Ok(handled.value.info);
      }
    }

    lemma ViewKeys()
      ensures View().Keys == table.Keys
    {
    }

    method Remove(key: ConnKey)
      requires Valid()
      modifies this`table
      ensures Valid() && table == old(table) - {key} && View() == old(View()) - {key}
    {
      table := table - {key};
    }

    twostate lemma SameView(conn: ConnState)
      requires unchanged(conn) && unchanged(conn.reassembly)
      ensures conn.View() == old(conn.View())
    {
    }

    /** If only the connection under `key` has been touched, only its entry in the table has. */
    twostate lemma OnlyEntryChanged(key: ConnKey)
      requires old(Valid()) && table == old(table) && key in table
      requires forall k :: k in table && k != key ==> unchanged(table[k]) && unchanged(table[k].reassembly)
      ensures key in old(View()) && old(View())[key] == old(table[key].View())
      ensures View() == old(View())[key := table[key].View()]
    {
      hide ConnState.View;
      forall k | k in table && k != key
        ensures table[k].View() == old(table[k].View())
      {
        SameView(table[k]);
      }
    }

    /** Handles a segment on the entry under `key`; every other entry stays as it is. */
    method UpdateEntry(app: ServerApp, seg: TcpSegment, key: ConnKey, now: Time) returns (handled: Result<Reply>)
      requires Valid() && key in table
      modifies table[key], table[key].reassembly
      ensures Valid() && View() == old(View())[key := HandleKnown(app, seg, old(View())[key], now).conn]
      ensures handled == HandleKnown(app, seg, old(View())[key], now).reply
    {
      hide HandleKnown, View, Parts;
      handled := Handlers.HandleKnownConn(app, seg, table[key], now);
      OnlyEntryChanged(key);
    }

    /**
     Sends every due segment again. A connection with a due segment that has no retries left is
     removed instead. What goes out is stated per connection; the order among connections is open.
     */
    method MakeRetransmissions(now: Time) returns (out: seq<TcpSegment>)
      requires Valid()
      modifies this`table, table.Values
      ensures Valid() && View() == TimedOut(old(View()), rto, maxRetries, now)
      ensures forall k :: ForKey(out, k) == Resends(old(View()), k, rto, maxRetries, now)
    {
      hide TimedOut, Resends, Valid, ResendProgress, GivesUp, AnyDue, View, ForKey;
      var todo := set k | k in table && AnyDue(table[k].pending, rto, now);
      out := [];
      ghost var t := View();
      ViewDue(now);
      ResendStarts(t, todo, rto, maxRetries, now);
      while todo != {}
        invariant Valid() && forall k :: k in table ==> k in old(table) && table[k] == old(table[k])
        invariant todo <= table.Keys && ResendProgress(t, View(), todo, out, rto, maxRetries, now)
        decreases |todo|
      {
        var key :| key in todo;
        ghost var t' := View();
        ViewDue(now);
        var sent := RetransmitEntry(key, now);
        ResendStep(t, t', todo, out, key, rto, maxRetries, now);
        todo := todo - {key};
        out := out + sent;
      }
      ResendEnds(t, View(), out, rto, maxRetries, now);
    }

    lemma ViewDue(now: Time)
      ensures View().Keys == table.Keys
      ensures forall k :: k in table ==> (AnyDue(table[k].pending, rto, now) <==> AnyDue(View()[k].pending, rto, now))
    {
    }

    method RetransmitEntry(key: ConnKey, now: Time) returns (sent: seq<TcpSegment>)
      requires Valid() && key in table
      modifies this`table, table[key]
      ensures Valid() && forall k :: k in table ==> k in old(table) && table[k] == old(table[k])
      ensures View() == EntryTimedOut(old(View()), key, rto, maxRetries, now)
      ensures sent == Resends(old(View()), key, rto, maxRetries, now)
      ensures forall k :: k in old(table) && k != key ==> k in table
    {
      hide GivesUp, AfterResend, DueInfos, SegmentsFor;
      var pending := table[key].pending;
      GivesUpIs(pending, rto, maxRetries, now);
      if exists s :: s in pending && TimeDue(s, rto) <= now && ExhaustedRetries(s, maxRetries) {
        Remove(key);
        sent := [];
      } else {
        var infos := ResendEntry(key, now);
        sent := SegmentsFor(key, infos);
      }
    }

    /** Sends the due segments of the entry under `key` again; every other entry stays as it is. */
    method ResendEntry(key: ConnKey, now: Time) returns (infos: seq<SendInfo>)
      requires Valid() && key in table
      modifies table[key]
      ensures Valid()
      ensures var c := old(View())[key];
              View() == old(View())[key := c.(pending := AfterResend(c.pending, rto, now))]
      ensures infos == DueInfos(old(View())[key].pending, rto, now)
    {
      hide AfterResend, DueInfos, View, Parts;
      infos := RetransmitDue(table[key], rto, now);
      OnlyEntryChanged(key);
    }

    /** Closes every established connection: one FIN for each, and no other connection is touched. */
    method CloseEstablished(now: Time) returns (out: seq<TcpSegment>)
      requires Valid()
      modifies table.Values
      ensures Valid() && View() == ClosedActively(old(View()), now)
      ensures forall k :: ForKey(out, k) == Fins(old(View()), k, now)
    {
      hide ClosedActively, Fins, Valid, CloseProgress, View, ForKey;
      var todo := set k | k in table && table[k].tcpState.Established?;
      out := [];
      ghost var t := View();
      ViewStates();
      CloseStarts(t, todo, now);
      while todo != {}
        invariant Valid() && table == old(table)
        invariant todo <= table.Keys && CloseProgress(t, View(), todo, out, now)
        decreases |todo|
      {
        var key :| key in todo;
        ghost var t' := View();
        ViewStates();
        CloseStep(t, t', todo, out, key, now);
        var info := CloseEntry(key, now);
        todo := todo - {key};
        out := out + [SegmentFor(key, info)];
      }
      CloseEnds(t, View(), out, now);
    }

    lemma ViewStates()
      ensures View().Keys == table.Keys
      ensures forall k :: k in table ==> View()[k].state == table[k].tcpState
    {
    }

    method CloseEntry(key: ConnKey, now: Time) returns (info: SendInfo)
      requires Valid() && key in table && table[key].tcpState.Established?
      requires key in View() && View()[key].state.Established?
      modifies table[key]
      ensures Valid() && View() == old(View())[key := CloseActively(old(View())[key], now).conn]
      ensures info == CloseActively(old(View())[key], now).info
    {
      hide View, Parts;
      var conn := table[key];
      info := SendInfo(conn.sndNxt, conn.rcvNxt, FinAck, None);
      conn.tcpState := FinWait1(conn.tcpState.window);
      conn.sndNxt := Add(conn.sndNxt, 1);
      conn.pending := conn.pending + [NewPending(info, now)];
      OnlyEntryChanged(key);
    }

    /** Whether some connection has sent or received a FIN and is not yet done closing. */
    predicate ClosingInProgress()
      reads this, table.Values
    {
      exists k :: k in table && MidClose(table[k].tcpState)
    }

    /** The earliest deadline of any pending segment of any connection. */
    method NextRetransmitDeadline() returns (d: Option<Time>)
      requires Valid()
      ensures d == None <==> forall k :: k in table ==> table[k].pending == []
      ensures d.Some? ==>
                && (forall k, s :: k in table && s in table[k].pending ==> d.value <= TimeDue(s, rto))
                && exists k, s :: k in table && s in table[k].pending && TimeDue(s, rto) == d.value
    {
      hide TimeDue;
      var todo := table.Keys;
      d := None;
      while todo != {}
        invariant todo <= table.Keys
        invariant d == None <==> forall k :: k in table && k !in todo ==> table[k].pending == []
        invariant d.Some? ==>
                    && (forall k, s :: k in table && k !in todo && s in table[k].pending ==> d.value <= TimeDue(s, rto))
                    && exists k, s :: k in table && s in table[k].pending && TimeDue(s, rto) == d.value
        decreases |todo|
      {
        var key :| key in todo;
        var first := Deadline(table[key].pending, rto);
        if first.Some? && (d == None || first.value < d.value) {
          d := first;
        }
        todo := todo - {key};
      }
    }
  }

  /** The FIN that closes one connection, if it is established. */
  function Fins(t: Table, k: ConnKey, now: Time): seq<TcpSegment> {
    if k in t && t[k].state.Established? then [SegmentFor(k, CloseActively(t[k], now).info)] else []
  }

  ghost predicate CloseProgress(t: Table, t': Table, todo: set<ConnKey>, out: seq<TcpSegment>, now: Time) {
    && t'.Keys == t.Keys
    && (forall k :: k in todo ==> k in t && t[k].state.Established?)
    && (forall k :: k in t ==>
          t'[k] == if k in todo || !t[k].state.Established? then t[k] else CloseActively(t[k], now).conn)
    && (forall k :: ForKey(out, k) == if k in todo then [] else Fins(t, k, now))
  }

  lemma CloseStarts(t: Table, todo: set<ConnKey>, now: Time)
    requires forall k :: k in todo <==> k in t && t[k].state.Established?
    ensures CloseProgress(t, t, todo, [], now)
  {
  }

  lemma CloseStep(t: Table, t': Table, todo: set<ConnKey>, out: seq<TcpSegment>, key: ConnKey, now: Time)
    requires CloseProgress(t, t', todo, out, now) && key in todo && key in t'
    ensures t'[key].state.Established?
    ensures var s := CloseActively(t'[key], now);
            CloseProgress(t, t'[key := s.conn], todo - {key}, out + [SegmentFor(key, s.info)], now)
  {
    hide ForKey, CloseActively, SegmentFor, FromPairsAndInfo;
    var s := CloseActively(t[key], now);
    assert t'[key] == t[key];
    forall k
      ensures ForKey(out + [SegmentFor(key, s.info)], k) == if k in todo - {key} then [] else Fins(t, k, now)
    {
      ForKeyConcat(out, [SegmentFor(key, s.info)], k);
      ForKeyOfSegments(key, [s.info], k);
      assert SegmentsFor(key, [s.info]) == [SegmentFor(key, s.info)];
    }
  }

  lemma CloseEnds(t: Table, t': Table, out: seq<TcpSegment>, now: Time)
    requires CloseProgress(t, t', {}, out, now)
    ensures t' == ClosedActively(t, now)
    ensures forall k :: ForKey(out, k) == Fins(t, k, now)
  {
    hide ForKey, CloseActively;
  }

  lemma GivesUpIs(pending: seq<PendingSegment>, rto: RtoConfig, maxRetries: byte, now: Time)
    ensures GivesUp(pending, rto, maxRetries, now) <==>
            exists s :: s in pending && TimeDue(s, rto) <= now && ExhaustedRetries(s, maxRetries)
  {
  }

  /** What one connection sends again in a timeout. */
  function Resends(t: Table, k: ConnKey, rto: RtoConfig, maxRetries: byte, now: Time): seq<TcpSegment> {
    if k in t && !GivesUp(t[k].pending, rto, maxRetries, now)
    then SegmentsFor(k, DueInfos(t[k].pending, rto, now))
    else []
  }

  function EntryTimedOut(t: Table, key: ConnKey, rto: RtoConfig, maxRetries: byte, now: Time): Table
    requires key in t
  {
    if GivesUp(t[key].pending, rto, maxRetries, now) then t - {key}
    else t[key := t[key].(pending := AfterResend(t[key].pending, rto, now))]
  }

  /** A timeout half done: the keys in `todo` are still as they were, all others are finished. */
  ghost predicate ResendProgress(
    t: Table, t': Table, todo: set<ConnKey>, out: seq<TcpSegment>, rto: RtoConfig, maxRetries: byte, now: Time)
  {
    && (forall k :: k in t' <==> k in t && (k in todo || !GivesUp(t[k].pending, rto, maxRetries, now)))
    && (forall k :: k in t' ==>
          t'[k] == if k in todo then t[k] else t[k].(pending := AfterResend(t[k].pending, rto, now)))
    && (forall k :: ForKey(out, k) == if k in todo then [] else Resends(t, k, rto, maxRetries, now))
  }

  lemma ResendStarts(t: Table, todo: set<ConnKey>, rto: RtoConfig, maxRetries: byte, now: Time)
    requires forall k :: k in todo <==> k in t && AnyDue(t[k].pending, rto, now)
    ensures ResendProgress(t, t, todo, [], rto, maxRetries, now)
  {
    hide AnyDue, GivesUp, AfterResend, DueInfos;
    forall k | k in t && k !in todo
      ensures AfterResend(t[k].pending, rto, now) == t[k].pending && !GivesUp(t[k].pending, rto, maxRetries, now)
      ensures DueInfos(t[k].pending, rto, now) == []
    {
      NothingDueNothingResent(t[k].pending, rto, maxRetries, now);
    }
  }

  lemma ResendStep(
    t: Table, t': Table, todo: set<ConnKey>, out: seq<TcpSegment>, key: ConnKey, rto: RtoConfig, maxRetries: byte,
    now: Time)
    requires ResendProgress(t, t', todo, out, rto, maxRetries, now) && key in todo && key in t'
    ensures ResendProgress(t, EntryTimedOut(t', key, rto, maxRetries, now), todo - {key},
                           out + Resends(t', key, rto, maxRetries, now), rto, maxRetries, now)
  {
    hide GivesUp, AfterResend, DueInfos, ForKey, SegmentsFor;
    assert t'[key] == t[key];
    var sent := Resends(t', key, rto, maxRetries, now);
    forall k
      ensures ForKey(out + sent, k) == if k in todo - {key} then [] else Resends(t, k, rto, maxRetries, now)
    {
      ForKeyConcat(out, sent, k);
      ForKeyNothing(k);
      if sent != [] {
        ForKeyOfSegments(key, DueInfos(t[key].pending, rto, now), k);
      }
    }
  }

  lemma ForKeyNothing(k: ConnKey)
    ensures ForKey([], k) == []
  {
  }

  lemma ResendEnds(t: Table, t': Table, out: seq<TcpSegment>, rto: RtoConfig, maxRetries: byte, now: Time)
    requires ResendProgress(t, t', {}, out, rto, maxRetries, now)
    ensures t' == TimedOut(t, rto, maxRetries, now)
    ensures forall k :: ForKey(out, k) == Resends(t, k, rto, maxRetries, now)
  {
    hide GivesUp, AfterResend, DueInfos, ForKey;
  }
}
