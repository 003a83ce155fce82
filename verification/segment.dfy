/** TCP segments, the reply fields decided per segment, and the application behind the server. */
module Segment {
  import opened Base
  import opened SeqSpace

  datatype TcpFlags = Syn | SynAck | Ack | FinAck | Rst | RstAck

  const MAX_PAYLOAD := 65535

  /** A payload is never empty and its length fits 16 bits. */
  type Payload = s: seq<byte> | 1 <= |s| <= MAX_PAYLOAD witness [0]

  function Bytes(p: Option<Payload>): (s: seq<byte>)
    ensures |s| <= MAX_PAYLOAD
    ensures s == [] <==> p == None
  {
    if p == None then [] else p.value
  }

  function Len(p: Option<Payload>): nat {
    |Bytes(p)|
  }

  datatype Ipv4Addr = Ipv4Addr(a: byte, b: byte, c: byte, d: byte)

  datatype AddrPair = AddrPair(src: Ipv4Addr, dst: Ipv4Addr) {
    function Swapped(): AddrPair { AddrPair(dst, src) }
  }

  datatype PortPair = PortPair(src: u16, dst: u16) {
    function Swapped(): PortPair { PortPair(dst, src) }
  }

  /** A segment of either direction; the addresses come from the IPv4 header. */
  datatype TcpSegment = TcpSegment(
    ipPair: AddrPair,
    ports: PortPair,
    seqNum: SeqPoint,
    ackNum: SeqPoint,
    offsetBytes: byte,
    flags: TcpFlags,
    window: u16,
    payload: Option<Payload>)

  const RCV_WND: u16 := 0xFFFF

  /** The fields that differ from one outgoing segment to the next. */
  datatype SendInfo = SendInfo(seqNum: SeqPoint, ackNum: SeqPoint, flags: TcpFlags, payload: Option<Payload>)

  /** The outgoing segment for `info`: no options and the largest receive window. */
  function FromPairsAndInfo(ipPair: AddrPair, ports: PortPair, info: SendInfo): TcpSegment {
    TcpSegment(ipPair, ports, info.seqNum, info.ackNum, TCP_HDR_MIN_LEN, info.flags, RCV_WND, info.payload)
  }

  /** The sequence numbers a sent segment consumes: one for SYN or FIN, and one per byte. */
  function Consumed(info: SendInfo): nat {
    (if info.flags in {Syn, SynAck, FinAck} then 1 else 0) + Len(info.payload)
  }

  /** The two applications the server offers. */
  datatype ServerApp = Echo | Shout {

    function RespondByte(b: byte): byte {
      if Shout? && 97 <= b <= 122 then b - 32 else b
    }

    /** What the application appends to the send buffer when `data` arrives on a connection. */
    function Respond(data: seq<byte>): (r: seq<byte>)
      ensures |r| == |data|
    {
      seq(|data|, i requires 0 <= i < |data| => RespondByte(data[i]))
    }

    lemma RespondConcat(a: seq<byte>, b: seq<byte>)
      ensures Respond(a + b) == Respond(a) + Respond(b)
    {
    }
  }
}
