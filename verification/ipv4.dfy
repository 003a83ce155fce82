/** IPv4 headers as bytes: parsing, writing in place, and the round trip between the two. */
module Ipv4 {
  import opened Base
  import opened Segment
  import opened Checksum
  import opened Wire

  datatype Ipv4Header = Ipv4Header(totalLen: u16, protocol: Protocol, ipPair: AddrPair)

  function TryNew(protocol: Protocol, ipPair: AddrPair, protoLen: u16): Result<Ipv4Header> {
    if IPV4_HDR_MIN_LEN + protoLen > 0xFFFF then Err else Ok(Ipv4Header(IPV4_HDR_MIN_LEN + protoLen, protocol, ipPair))
  }

  /** The header fields, and the bytes after the header however long the packet says it is. */
  function ParseIpv4(data: seq<byte>): Result<(Ipv4Header, seq<byte>)> {
    if |data| < IPV4_HDR_MIN_LEN || data[0] / 16 != 4 || Reference(data[..IPV4_HDR_MIN_LEN]) != 0
       || FromNumber(data[9]).Err? || data[0] % 16 * 4 > |data|
    then Err
    else Ok((Ipv4Header(FromBe16(data, 2), FromNumber(data[9]).value, AddrPair(AddrAt(data, 12), AddrAt(data, 16))),
             data[data[0] % 16 * 4..]))
  }

  /** The bytes before the checksum: no options, never fragmented, 64 hops. */
  function Start(hdr: Ipv4Header): (bytes: seq<byte>)
    ensures |bytes| == 10
  {
    [0x45, 0x00] + Be16(hdr.totalLen) + [0x00, 0x00] + [0x40, 0x00] + [64, hdr.protocol.Number()]
  }

  function Unsummed(hdr: Ipv4Header): (bytes: seq<byte>)
    ensures |bytes| == IPV4_HDR_MIN_LEN
  {
    Start(hdr) + [0x00, 0x00] + (Octets(hdr.ipPair.src) + Octets(hdr.ipPair.dst))
  }

  function EncodeIpv4(hdr: Ipv4Header): (bytes: seq<byte>)
    ensures |bytes| == IPV4_HDR_MIN_LEN
  {
    Splice(Unsummed(hdr), 10, Be16(Reference(Unsummed(hdr))))
  }

  /** The consecutive writes of the header are one write of all of it. */
  lemma WritesAreOne(hdr: Ipv4Header, s: seq<byte>)
    requires |s| >= IPV4_HDR_MIN_LEN
    ensures var s1 := Splice(Splice(s, 0, [0x45]), 1, [0x00]);
            var s2 := Splice(s1, 2, Be16(hdr.totalLen));
            var s3 := Splice(Splice(s2, 4, [0x00, 0x00]), 6, [0x40, 0x00]);
            var s4 := Splice(Splice(s3, 8, [64]), 9, [hdr.protocol.Number()]);
            var s5 := Splice(s4, 10, [0x00, 0x00]);
            Splice(Splice(s5, 12, Octets(hdr.ipPair.src)), 16, Octets(hdr.ipPair.dst)) == Splice(s, 0, Unsummed(hdr))
  {
    hide Splice, Be16, Octets;
    var f2 := [0x45] + [0x00];
    var f4 := f2 + Be16(hdr.totalLen);
    var f8 := f4 + [0x00, 0x00] + [0x40, 0x00];
    var f10 := f8 + [64] + [hdr.protocol.Number()];
    SpliceAppends(s, 0, [0x45], [0x00]);
    SpliceAppends(s, 0, f2, Be16(hdr.totalLen));
    SpliceAppends(s, 0, f4, [0x00, 0x00]);
    SpliceAppends(s, 0, f4 + [0x00, 0x00], [0x40, 0x00]);
    SpliceAppends(s, 0, f8, [64]);
    SpliceAppends(s, 0, f8 + [64], [hdr.protocol.Number()]);
    SpliceAppends(s, 0, f10, [0x00, 0x00]);
    SpliceAppends(s, 0, f10 + [0x00, 0x00], Octets(hdr.ipPair.src));
    SpliceAppends(s, 0, f10 + [0x00, 0x00] + Octets(hdr.ipPair.src), Octets(hdr.ipPair.dst));
    assert f10 == Start(hdr);
    assert f10 + [0x00, 0x00] + Octets(hdr.ipPair.src) + Octets(hdr.ipPair.dst) == Unsummed(hdr);
  }

  /** Writes the header into the front of a packet buffer and patches its checksum. */
  method WriteInto(hdr: Ipv4Header, buf: array<byte>)
    requires buf.Length == ETHERNET_MTU
    modifies buf
    ensures buf[..] == Splice(old(buf[..]), 0, EncodeIpv4(hdr))
  {
    hide Reference, Calculate, Be16, Octets, Splice, Unsummed, Protocol.Number;
    ghost var was := buf[..];
    var _ := WriteAt(buf, 0, [0x40 + IPV4_HDR_MIN_LEN / 4]);
    var _ := WriteAt(buf, 1, [0x00]);
    var _ := WriteAt(buf, 2, Be16(hdr.totalLen));
    var _ := WriteAt(buf, 4, [0x00, 0x00]);
    var _ := WriteAt(buf, 6, [0x40, 0x00]);
    var _ := WriteAt(buf, 8, [64]);
    var _ := WriteAt(buf, 9, [hdr.protocol.Number()]);
    var _ := WriteAt(buf, 10, [0x00, 0x00]);
    var _ := WriteAt(buf, 12, Octets(hdr.ipPair.src));
    var _ := WriteAt(buf, 16, Octets(hdr.ipPair.dst));
    WritesAreOne(hdr, was);
    SpliceParts(was, 0, Unsummed(hdr));
    assert buf[..20] == buf[..][..20] == Unsummed(hdr);
    CalculateIsReference(buf[..20]);
    var _ := WriteAt(buf, 10, Be16(Calculate(buf[..20])));
    SpliceInside(was, 0, Unsummed(hdr), 10, Be16(Reference(Unsummed(hdr))));
  }

  lemma EncodedParts(hdr: Ipv4Header, bytes: seq<byte>)
    requires bytes == EncodeIpv4(hdr)
    ensures bytes == Start(hdr) + Be16(Reference(Unsummed(hdr))) + (Octets(hdr.ipPair.src) + Octets(hdr.ipPair.dst))
    ensures Reference(bytes) == 0
  {
    hide Reference, Start, Octets;
    StoredChecksumVerifies(Start(hdr), Octets(hdr.ipPair.src) + Octets(hdr.ipPair.dst));
  }

  /** Every written header passes its checksum and parses back to the same fields, with the whole payload. */
  lemma Ipv4RoundTrip(hdr: Ipv4Header, payload: seq<byte>)
    ensures ParseIpv4(EncodeIpv4(hdr) + payload) == Ok((hdr, payload))
  {
    hide Reference, Octets, AddrAt, Be16, FromBe16, EncodeIpv4;
    var bytes := EncodeIpv4(hdr);
    var data := bytes + payload;
    EncodedParts(hdr, bytes);
    assert data[..20] == bytes && data[20..] == payload;
    assert data[2..4] == bytes[2..4] == Be16(hdr.totalLen);
    assert data[9] == bytes[9] == hdr.protocol.Number();
    assert data[12..16] == bytes[12..16] == Octets(hdr.ipPair.src);
    assert data[16..20] == bytes[16..20] == Octets(hdr.ipPair.dst);
    Be16RoundTrip(hdr.totalLen, data, 2);
    OctetsRoundTrip(hdr.ipPair.src, data, 12);
    OctetsRoundTrip(hdr.ipPair.dst, data, 16);
  }

  /**
   Exactly what is accepted as a packet: version 4, a header of 20 bytes whose words add up to all ones, one
   of the three protocols, and no more header claimed than there is data. Total length, fragmentation and
   everything else is not looked at, and what follows the claimed header is the payload.
   */
  lemma ParsedExactly(data: seq<byte>)
    ensures ParseIpv4(data).Ok? <==>
            && |data| >= 20 && data[0] / 16 == 4 && SumsUp(data[..20]) && data[9] in {1, 6, 17}
            && data[0] % 16 * 4 <= |data|
    ensures ParseIpv4(data).Ok? ==>
              var (hdr, payload) := ParseIpv4(data).value;
              && hdr.totalLen == data[2] as int * 0x100 + data[3] && hdr.protocol.Number() == data[9]
              && hdr.ipPair.src == Ipv4Addr(data[12], data[13], data[14], data[15])
              && hdr.ipPair.dst == Ipv4Addr(data[16], data[17], data[18], data[19])
              && payload == data[data[0] % 16 * 4..]
  {
    hide Reference, SumsUp;
    if |data| >= 20 {
      SumsUpIs(data[..20]);
    }
  }

  /**
   The written header: version 4 and 5 words, no service, no identification, never to be fragmented, 64
   hops, and words that add up to all ones.
   */
  lemma WrittenExactly(hdr: Ipv4Header)
    ensures var bytes := EncodeIpv4(hdr);
            && |bytes| == 20 && bytes[..2] == [0x45, 0] && bytes[4..8] == [0, 0, 0x40, 0] && bytes[8] == 64
            && bytes[2] as int * 0x100 + bytes[3] == hdr.totalLen && bytes[9] == hdr.protocol.Number()
            && bytes[12..16] == [hdr.ipPair.src.a, hdr.ipPair.src.b, hdr.ipPair.src.c, hdr.ipPair.src.d]
            && bytes[16..20] == [hdr.ipPair.dst.a, hdr.ipPair.dst.b, hdr.ipPair.dst.c, hdr.ipPair.dst.d]
            && SumsUp(bytes)
  {
    hide Reference, SumsUp, Be16;
    var bytes := EncodeIpv4(hdr);
    EncodedParts(hdr, bytes);
    SumsUpIs(bytes);
    assert bytes[..10] == Start(hdr) && bytes[2..4] == Be16(hdr.totalLen);
    Be16RoundTrip(hdr.totalLen, bytes, 2);
  }
}
