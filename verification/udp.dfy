/** UDP datagrams as bytes, with the rule that a checksum field of zeros means there is no checksum. */
module UdpWire {
  import opened Base
  import opened Segment
  import opened Wire

  const UDP_HDR_LEN := 8

  datatype UdpDatagram = UdpDatagram(ipPair: AddrPair, ports: PortPair, payload: seq<byte>)

  function ParseUdp(data: seq<byte>, ipPair: AddrPair): Result<UdpDatagram> {
    if |data| < UDP_HDR_LEN then Err
    else if FromBe16(data, 6) != 0 && PseudoChecksum(data, ipPair, Udp) != Ok(0) then Err
    else Ok(UdpDatagram(ipPair, PortPair(FromBe16(data, 0), FromBe16(data, 2)), data[UDP_HDR_LEN..]))
  }

  /** The reply: the application's response to the payload, sent back. */
  function ReplyTo(app: ServerApp, dgram: UdpDatagram): UdpDatagram {
    UdpDatagram(dgram.ipPair.Swapped(), dgram.ports.Swapped(), app.Respond(dgram.payload))
  }

  function ProtoLen(dgram: UdpDatagram): nat {
    UDP_HDR_LEN + |dgram.payload|
  }

  function Ports(dgram: UdpDatagram): (bytes: seq<byte>)
    ensures |bytes| == 4
  {
    Be16(dgram.ports.src) + Be16(dgram.ports.dst)
  }

  function Unsummed(dgram: UdpDatagram): (bytes: seq<byte>)
    requires ProtoLen(dgram) <= 0xFFFF
    ensures |bytes| == ProtoLen(dgram)
  {
    Ports(dgram) + Be16(ProtoLen(dgram)) + [0, 0] + dgram.payload
  }

  /** The checksum as sent: a computed 0 is sent as all ones. */
  function Sent(cksum: u16): (sent: u16)
    ensures sent != 0
  {
    if cksum == 0 then 0xFFFF else cksum
  }

  /** The encoded datagram; one that exceeds the MTU has no encoding. */
  function EncodeUdp(dgram: UdpDatagram): (r: Result<seq<byte>>)
    ensures r.Ok? <==> ProtoLen(dgram) <= ETHERNET_MTU
    ensures r.Ok? ==> |r.value| == ProtoLen(dgram)
  {
    if ProtoLen(dgram) > 0xFFFF then Err
    else
      match PseudoChecksum(Unsummed(dgram), dgram.ipPair, Udp)
      case Err => Err
      case Ok(c) => Ok(Splice(Unsummed(dgram), 6, Be16(Sent(c))))
  }

  /** The writes of ports, length and payload, and the zeroed checksum field last. */
  lemma WritesAreOne(dgram: UdpDatagram, s: seq<byte>, at: nat)
    requires ProtoLen(dgram) <= 0xFFFF && at + ProtoLen(dgram) <= |s|
    ensures var s1 := Splice(s, at, Be16(dgram.ports.src));
            var s2 := Splice(s1, at + 2, Be16(dgram.ports.dst));
            var s3 := Splice(s2, at + 4, Be16(ProtoLen(dgram)));
            var s4 := Splice(s3, at + 8, dgram.payload);
            Splice(s4, at + 6, [0, 0]) == Splice(s, at, Unsummed(dgram))
  {
    hide Be16;
    var gap := s[at + 6..at + 8];
    var f6 := Ports(dgram) + Be16(ProtoLen(dgram));
    SpliceAppends(s, at, Be16(dgram.ports.src), Be16(dgram.ports.dst));
    SpliceAppends(s, at, Ports(dgram), Be16(ProtoLen(dgram)));
    SpliceSkips(s, at, f6, 2);
    SpliceAppends(s, at, f6 + gap, dgram.payload);
    SpliceInside(s, at, f6 + gap + dgram.payload, 6, [0, 0]);
    assert Splice(f6 + gap + dgram.payload, 6, [0, 0]) == Unsummed(dgram);
  }

  /** Writes the datagram field by field into the part of `buf` that starts at `lo`. */
  method WriteInto(dgram: UdpDatagram, buf: array<byte>, lo: nat) returns (ok: bool)
    requires lo <= buf.Length
    modifies buf
    ensures ok == (ProtoLen(dgram) <= Min(buf.Length - lo, ETHERNET_MTU))
    ensures ok ==> buf[..] == Splice(old(buf[..]), lo, EncodeUdp(dgram).value)
  {
    hide PseudoChecksum, Be16, Splice, Unsummed;
    ghost var was := buf[..];
    ok := WriteAt(buf, lo, Be16(dgram.ports.src));
    if !ok { return; }
    ok := WriteAt(buf, lo + 2, Be16(dgram.ports.dst));
    if !ok { return; }
    var n := ProtoLen(dgram);
    if n > 0xFFFF {
      return false;
    }
    ok := WriteAt(buf, lo + 4, Be16(n));
    if !ok { return; }
    ok := WriteAt(buf, lo + 8, dgram.payload);
    if !ok { return; }
    ok := WriteAt(buf, lo + 6, [0, 0]);
    WritesAreOne(dgram, was, lo);
    SpliceParts(was, lo, Unsummed(dgram));
    assert buf[lo..lo + n] == buf[..][lo..lo + n] == Unsummed(dgram);
    var cksum := PseudoHdrCksum(buf[lo..lo + n], dgram.ipPair, Udp);
    if cksum.Err? {
      return false;
    }
    ok := WriteAt(buf, lo + 6, Be16(if cksum.value == 0 then 0xFFFF else cksum.value));
    assert EncodeUdp(dgram).value == Splice(Unsummed(dgram), 6, Be16(Sent(cksum.value)));
    SpliceInside(was, lo, Unsummed(dgram), 6, Be16(Sent(cksum.value)));
  }

  /**
   Every written datagram parses back equal, and its checksum field is never the zero that would
   mean "no checksum", even when the computed checksum is 0.
   */
  lemma UdpRoundTrip(dgram: UdpDatagram)
    requires ProtoLen(dgram) <= ETHERNET_MTU
    ensures var data := EncodeUdp(dgram).value;
            ParseUdp(data, dgram.ipPair) == Ok(dgram)
            && FromBe16(data, 6) != 0 && PseudoChecksum(data, dgram.ipPair, Udp) == Ok(0)
  {
    hide PseudoChecksum, Be16, FromBe16;
    var data := EncodeUdp(dgram).value;
    var c := PseudoChecksum(Unsummed(dgram), dgram.ipPair, Udp).value;
    StoredPseudoChecksum(Unsummed(dgram), 6, dgram.ipPair, Udp);
    SpliceParts(Unsummed(dgram), 6, Be16(Sent(c)));
    assert data[..4] == data[..6][..4] == Ports(dgram);
    assert data[0..2] == Be16(dgram.ports.src);
    assert data[2..4] == Be16(dgram.ports.dst);
    assert data[6..8] == Be16(Sent(c));
    assert data[8..] == dgram.payload;
    Be16RoundTrip(dgram.ports.src, data, 0);
    Be16RoundTrip(dgram.ports.dst, data, 2);
    Be16RoundTrip(Sent(c), data, 6);
  }

  /** A datagram with a zeroed checksum field is accepted whatever its contents, header and payload unaltered. */
  lemma UnsummedIsAccepted(dgram: UdpDatagram)
    requires ProtoLen(dgram) <= 0xFFFF
    ensures ParseUdp(Unsummed(dgram), dgram.ipPair) == Ok(dgram)
  {
    hide PseudoChecksum, Be16, FromBe16;
    var data := Unsummed(dgram);
    assert data[0..2] == Be16(dgram.ports.src);
    assert data[2..4] == Be16(dgram.ports.dst);
    assert data[6..8] == [0, 0] == Be16(0) by { BeZero(); }
    assert data[8..] == dgram.payload;
    Be16RoundTrip(dgram.ports.src, data, 0);
    Be16RoundTrip(dgram.ports.dst, data, 2);
    Be16RoundTrip(0, data, 6);
  }

  lemma BeZero()
    ensures Be16(0) == [0, 0]
  {
  }

  /**
   Exactly what is accepted as a datagram: a header, and a checksum field that is zero or, at most the MTU
   long, verifies with the pseudo-header in front. Its ports are the big-endian numbers at their place and
   its payload is all that follows, whatever the length field says.
   */
  lemma ParsedExactly(data: seq<byte>, ipPair: AddrPair)
    ensures ParseUdp(data, ipPair).Ok? <==>
            && |data| >= 8
            && ((data[6] == 0 && data[7] == 0) || (|data| <= 1500 && Verifies(data, ipPair, 17)))
    ensures ParseUdp(data, ipPair).Ok? ==>
              var dgram := ParseUdp(data, ipPair).value;
              && dgram.ipPair == ipPair && dgram.payload == data[8..]
              && dgram.ports == PortPair(data[0] as int * 0x100 + data[1], data[2] as int * 0x100 + data[3])
  {
    hide PseudoChecksum, Verifies, FromBe16;
    VerifiesIs(data, ipPair, Udp);
    if |data| >= 8 {
      FieldIs(data, 0);
      FieldIs(data, 2);
      FieldIs(data, 6);
    }
  }

  lemma FieldIs(data: seq<byte>, at: nat)
    requires at + 2 <= |data|
    ensures FromBe16(data, at) == data[at] as int * 0x100 + data[at + 1]
    ensures FromBe16(data, at) == 0 <==> data[at] == 0 && data[at + 1] == 0
  {
  }

  /** What a written header holds besides its ports: the length, and a checksum that verifies and is not zero. */
  lemma WrittenExactly(dgram: UdpDatagram)
    requires ProtoLen(dgram) <= ETHERNET_MTU
    ensures var bytes := EncodeUdp(dgram).value;
            && |bytes| == 8 + |dgram.payload| && bytes[8..] == dgram.payload
            && bytes[4] as int * 0x100 + bytes[5] == |bytes|
            && (bytes[6] != 0 || bytes[7] != 0) && Verifies(bytes, dgram.ipPair, 17)
  {
    hide PseudoChecksum, Be16, Verifies;
    var bytes := EncodeUdp(dgram).value;
    var c := PseudoChecksum(Unsummed(dgram), dgram.ipPair, Udp).value;
    UdpRoundTrip(dgram);
    VerifiesIs(bytes, dgram.ipPair, Udp);
    SpliceParts(Unsummed(dgram), 6, Be16(Sent(c)));
    assert bytes[4..6] == bytes[..6][4..6] == Be16(ProtoLen(dgram));
    Be16RoundTrip(ProtoLen(dgram), bytes, 4);
    FieldIs(bytes, 4);
    FieldIs(bytes, 6);
    assert bytes[8..] == Unsummed(dgram)[8..];
  }
}
