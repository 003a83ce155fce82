/** Whole packets: an IPv4 header followed by a TCP segment, UDP datagram or ICMP message, in one packet buffer. */
module Packet {
  import opened Base
  import opened Segment
  import opened Checksum
  import opened Wire
  import Ipv4
  import TcpWire
  import UdpWire
  import IcmpWire

  datatype Router =
    | TcpRouter(seg: TcpSegment)
    | UdpRouter(dgram: UdpWire.UdpDatagram)
    | IcmpRouter(msg: IcmpWire.EchoMsg)
  {

    function Proto(): Protocol {
      match this
      case TcpRouter(_) => Tcp
      case UdpRouter(_) => Udp
      case IcmpRouter(_) => Icmp
    }

    function IpPair(): AddrPair {
      match this
      case TcpRouter(seg) => seg.ipPair
      case UdpRouter(dgram) => dgram.ipPair
      case IcmpRouter(msg) => msg.ipPair
    }

    /** The length of protocol header and payload. */
    function Length(): nat {
      match this
      case TcpRouter(seg) => TcpWire.ProtoLen(seg)
      case UdpRouter(dgram) => UdpWire.ProtoLen(dgram)
      case IcmpRouter(msg) => IcmpWire.ProtoLen(msg)
    }

    /** The header in front of it, unless the length of the whole does not fit 16 bits. */
    function Header(): Result<Ipv4.Ipv4Header> {
      if Length() > 0xFFFF then Err else Ipv4.TryNew(Proto(), IpPair(), Length())
    }
  }

  function ParsePacket(data: seq<byte>): Result<Router> {
    match Ipv4.ParseIpv4(data)
    case Err => Err
    case Ok((hdr, payload)) => ParseBody(hdr, payload)
  }

  function ParseBody(hdr: Ipv4.Ipv4Header, payload: seq<byte>): Result<Router> {
    match hdr.protocol
    case Icmp => (match IcmpWire.ParseEcho(payload, hdr.ipPair) case Err => Err case Ok(msg) => Ok(IcmpRouter(msg)))
    case Tcp => (match TcpWire.ParseTcp(payload, hdr.ipPair) case Err => Err case Ok(seg) => Ok(TcpRouter(seg)))
    case Udp => (match UdpWire.ParseUdp(payload, hdr.ipPair) case Err => Err case Ok(dgram) => Ok(UdpRouter(dgram)))
  }

  function EncodeBody(r: Router): (bytes: seq<byte>)
    requires IPV4_HDR_MIN_LEN + r.Length() <= ETHERNET_MTU
    ensures |bytes| == r.Length()
  {
    match r
    case TcpRouter(seg) => TcpWire.EncodeTcp(seg).value
    case UdpRouter(dgram) => UdpWire.EncodeUdp(dgram).value
    case IcmpRouter(msg) => IcmpWire.EncodeEcho(msg)
  }

  /** The bytes of a packet; one that exceeds the MTU has none. */
  function EncodePacket(r: Router): (bytes: Result<seq<byte>>)
    ensures bytes.Ok? <==> IPV4_HDR_MIN_LEN + r.Length() <= ETHERNET_MTU
    ensures bytes.Ok? ==> |bytes.value| == r.Header().value.totalLen
  {
    if IPV4_HDR_MIN_LEN + r.Length() > ETHERNET_MTU then Err
    else Ok(Ipv4.EncodeIpv4(r.Header().value) + EncodeBody(r))
  }

  /** Writes the body of a packet behind where its header goes. */
  method WriteBody(r: Router, buf: array<byte>) returns (ok: bool)
    requires buf.Length == ETHERNET_MTU
    modifies buf
    ensures ok == (IPV4_HDR_MIN_LEN + r.Length() <= ETHERNET_MTU)
    ensures ok ==> buf[..] == Splice(old(buf[..]), IPV4_HDR_MIN_LEN, EncodeBody(r))
  {
    hide TcpWire.EncodeTcp, UdpWire.EncodeUdp, IcmpWire.EncodeEcho, Splice;
    match r
    case TcpRouter(seg) => ok := TcpWire.WriteInto(seg, buf, IPV4_HDR_MIN_LEN);
    case UdpRouter(dgram) => ok := UdpWire.WriteInto(dgram, buf, IPV4_HDR_MIN_LEN);
    case IcmpRouter(msg) => ok := IcmpWire.WriteInto(msg, buf, IPV4_HDR_MIN_LEN);
  }

  /** Writes a packet into a packet buffer: the body first, then the header in front of it. */
  method WriteInto(r: Router, buf: array<byte>) returns (ok: bool)
    requires buf.Length == ETHERNET_MTU
    modifies buf
    ensures ok == EncodePacket(r).Ok?
    ensures ok ==> buf[..r.Header().value.totalLen] == EncodePacket(r).value
  {
    hide EncodeBody, Ipv4.EncodeIpv4, Splice, Router.Length, Router.Proto, Router.IpPair;
    ghost var was := buf[..];
    ok := WriteBody(r, buf);
    if !ok { return; }
    var hdr := r.Header();
    if hdr.Err? {
      return false;
    }
    Ipv4.WriteInto(hdr.value, buf);
    SplicePrepends(was, 0, Ipv4.EncodeIpv4(hdr.value), EncodeBody(r));
    SpliceParts(was, 0, EncodePacket(r).value);
  }

  /**
   Round trip, with its exact condition: what is written parses back to itself unless it is a TCP
   segment with options, which are never written, or an ICMP message other than a request, which is
   never accepted.
   */
  lemma PacketRoundTrip(r: Router)
    requires EncodePacket(r).Ok?
    ensures ParsePacket(EncodePacket(r).value) == Ok(r) <==>
            match r
            case TcpRouter(seg) =>
              || seg.offsetBytes == TCP_HDR_MIN_LEN
              || (seg.payload.None? && seg.offsetBytes % 4 == 0 && TCP_HDR_MIN_LEN <= seg.offsetBytes <= 60)
            case UdpRouter(_) => true
            case IcmpRouter(msg) => msg.icmpType == IcmpWire.ECHO_REQUEST
  {
    hide Ipv4.EncodeIpv4, TcpWire.EncodeTcp, UdpWire.EncodeUdp, IcmpWire.EncodeEcho, Ipv4.ParseIpv4, TcpWire.ParseTcp,
         UdpWire.ParseUdp, IcmpWire.ParseEcho;
    Ipv4.Ipv4RoundTrip(r.Header().value, EncodeBody(r));
    match r
    case TcpRouter(seg) => TcpWire.TcpRoundTrip(seg);
    case UdpRouter(dgram) => UdpWire.UdpRoundTrip(dgram);
    case IcmpRouter(msg) => EchoParses(msg);
  }

  lemma EchoParses(msg: IcmpWire.EchoMsg)
    ensures IcmpWire.ParseEcho(IcmpWire.EncodeEcho(msg), msg.ipPair) == Ok(msg) <==>
              msg.icmpType == IcmpWire.ECHO_REQUEST
  {
    hide IcmpWire.EncodeEcho, Reference;
    if msg.icmpType == IcmpWire.ECHO_REQUEST {
      IcmpWire.EchoRoundTrip(msg);
    }
  }

  // Replies

  /** The reply to a datagram or message; segments are answered by their connection. */
  function StatelessReply(app: ServerApp, r: Router): Router
    requires !r.TcpRouter?
  {
    match r
    case UdpRouter(dgram) => UdpRouter(UdpWire.ReplyTo(app, dgram))
    case IcmpRouter(msg) => IcmpRouter(IcmpWire.ReplyTo(msg))
  }

  /** The header length a packet claims, in bytes. */
  function ClaimedHeader(data: seq<byte>): nat
    requires data != []
  {
    data[0] % 16 * 4
  }

  /**
   A reply without a connection is as long as what followed the header of the packet it answers, so
   it fits a packet if and only if that is no longer than the MTU less 20 bytes.
   */
  lemma ReplyFitsExactly(app: ServerApp, data: seq<byte>)
    requires ParsePacket(data).Ok? && !ParsePacket(data).value.TcpRouter?
    ensures data != [] && ClaimedHeader(data) <= |data|
    ensures var reply := StatelessReply(app, ParsePacket(data).value);
            && reply.Length() == |data| - ClaimedHeader(data)
            && (EncodePacket(reply).Ok? <==> |data| - ClaimedHeader(data) <= ETHERNET_MTU - IPV4_HDR_MIN_LEN)
            && (ClaimedHeader(data) >= IPV4_HDR_MIN_LEN && |data| <= ETHERNET_MTU ==> EncodePacket(reply).Ok?)
  {
    hide Reference, PseudoChecksum, FromBe16, FromNumber;
  }

  /** A header length field of 0 in front of a datagram without checksum, its ports and length all zero. */
  const SHORT_HEADER: seq<byte> := [0x40, 0, 0, 0, 0, 0, 0, 0, 0, 17, 0xBF, 0xEE]

  /** Such a packet as long as the MTU is accepted, header and all, and the reply to it no longer fits a packet. */
  lemma ShortHeaderOverflows(app: ServerApp)
    ensures var data := SHORT_HEADER + Zeros(ETHERNET_MTU - 12);
            && |data| == ETHERNET_MTU && ClaimedHeader(data) == 0
            && ParsePacket(data).Ok? && !ParsePacket(data).value.TcpRouter?
            && EncodePacket(StatelessReply(app, ParsePacket(data).value)).Err?
  {
    hide Reference, Zeros, ParsePacket, EncodePacket, StatelessReply;
    var data := SHORT_HEADER + Zeros(ETHERNET_MTU - 12);
    ShortHeaderVerifies();
    ZerosSplit(8, ETHERNET_MTU - 20);
    assert data[..20] == SHORT_HEADER + Zeros(8);
    ShortHeaderParses(data);
    ReplyFitsExactly(app, data);
  }

  lemma ZerosSplit(m: nat, n: nat)
    ensures Zeros(m + n) == Zeros(m) + Zeros(n)
  {
  }

  lemma ShortHeaderParses(data: seq<byte>)
    requires |data| >= 20 && data[..12] == SHORT_HEADER && Reference(data[..20]) == 0
    ensures ParsePacket(data).Ok? && !ParsePacket(data).value.TcpRouter? && ClaimedHeader(data) == 0
  {
    hide Reference, PseudoChecksum, AddrAt, UdpWire.ParseUdp;
    assert forall i :: 0 <= i < 12 ==> data[i] == SHORT_HEADER[i];
    assert data[0..] == data;
    assert Ipv4.ParseIpv4(data).Ok?;
    var (hdr, payload) := Ipv4.ParseIpv4(data).value;
    assert hdr.protocol == Udp && payload == data;
    ZeroFieldAccepted(data, hdr.ipPair);
  }

  lemma ZeroFieldAccepted(data: seq<byte>, ipPair: AddrPair)
    requires |data| >= UdpWire.UDP_HDR_LEN && data[6] == data[7] == 0
    ensures UdpWire.ParseUdp(data, ipPair).Ok?
  {
    hide PseudoChecksum;
  }

  lemma ShortHeaderVerifies()
    ensures Reference(SHORT_HEADER + Zeros(8)) == 0
  {
    WordSumConcat(SHORT_HEADER, Zeros(8));
    WordSumZeros(8);
    assert WordSum(SHORT_HEADER[2..]) == 0xBFFF;
    assert OnesSum(0xFFFF) == 0xFFFF;
  }

  /**
   Exactly which bytes are accepted as a packet: an IPv4 header that is accepted and a body that its
   protocol accepts.
   */
  lemma AcceptedExactly(data: seq<byte>)
    ensures ParsePacket(data).Ok? <==>
            && |data| >= 20 && data[0] / 16 == 4 && SumsUp(data[..20]) && ClaimedHeader(data) <= |data|
            && var body := data[ClaimedHeader(data)..];
               var ipPair := AddrPair(Ipv4Addr(data[12], data[13], data[14], data[15]),
                                      Ipv4Addr(data[16], data[17], data[18], data[19]));
               match data[9]
               case 1 => |body| >= 8 && SumsUp(body) && body[0] == 8 && body[1] == 0
               case 6 =>
                 && 20 <= |body| <= 1500 && Verifies(body, ipPair, 6)
                 && exists flags, psh, urg, ece, cwr ::
                      body[13] == TcpWire.FlagNumber(flags) + TcpWire.Ignored(psh, urg, ece, cwr)
               case 17 =>
                 && |body| >= 8
                 && ((body[6] == 0 && body[7] == 0) || (|body| <= 1500 && Verifies(body, ipPair, 17)))
               case _ => false
  {
    hide SumsUp, Verifies, TcpWire.FlagNumber, TcpWire.Ignored, Ipv4.ParseIpv4, TcpWire.ParseTcp, UdpWire.ParseUdp,
         IcmpWire.ParseEcho;
    Ipv4.ParsedExactly(data);
    if Ipv4.ParseIpv4(data).Ok? {
      var (hdr, body) := Ipv4.ParseIpv4(data).value;
      TcpWire.ParsedExactly(body, hdr.ipPair);
      UdpWire.ParsedExactly(body, hdr.ipPair);
      IcmpWire.ParsedExactly(body, hdr.ipPair);
    }
  }
}
