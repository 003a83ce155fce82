/** What every protocol's encoding needs: big-endian fields, protocol numbers and the pseudo-header checksum. */
module Wire {
  import opened Base
  import opened Segment
  import opened Checksum

  function Be16(x: u16): (bytes: seq<byte>)
    ensures |bytes| == 2
  {
    [High(x), Low(x)]
  }

  function Be32(x: u32): (bytes: seq<byte>)
    ensures |bytes| == 4
  {
    Be16(x / 0x1_0000) + Be16(x % 0x1_0000)
  }

  function FromBe16(data: seq<byte>, at: nat): u16
    requires at + 2 <= |data|
  {
    Word(data[at], data[at + 1])
  }

  function FromBe32(data: seq<byte>, at: nat): u32
    requires at + 4 <= |data|
  {
    FromBe16(data, at) * 0x1_0000 + FromBe16(data, at + 2)
  }

  lemma Be16RoundTrip(x: u16, data: seq<byte>, at: nat)
    requires at + 2 <= |data| && data[at..at + 2] == Be16(x)
    ensures FromBe16(data, at) == x
  {
    assert data[at] == data[at..at + 2][0] && data[at + 1] == data[at..at + 2][1];
  }

  lemma FromBe16RoundTrip(data: seq<byte>, at: nat)
    requires at + 2 <= |data|
    ensures Be16(FromBe16(data, at)) == data[at..at + 2]
  {
    HighLow(data[at], data[at + 1]);
  }

  lemma HighLow(high: byte, low: byte)
    ensures High(Word(high, low)) == high && Low(Word(high, low)) == low
  {
  }

  lemma Be32RoundTrip(x: u32, data: seq<byte>, at: nat)
    requires at + 4 <= |data| && data[at..at + 4] == Be32(x)
    ensures FromBe32(data, at) == x
  {
    assert data[at..at + 2] == data[at..at + 4][..2] == Be16(x / 0x1_0000);
    assert data[at + 2..at + 4] == data[at..at + 4][2..] == Be16(x % 0x1_0000);
    Be16RoundTrip(x / 0x1_0000, data, at);
    Be16RoundTrip(x % 0x1_0000, data, at + 2);
  }

  function Octets(ip: Ipv4Addr): (bytes: seq<byte>)
    ensures |bytes| == 4
  {
    [ip.a, ip.b, ip.c, ip.d]
  }

  function AddrAt(data: seq<byte>, at: nat): Ipv4Addr
    requires at + 4 <= |data|
  {
    Ipv4Addr(data[at], data[at + 1], data[at + 2], data[at + 3])
  }

  lemma OctetsRoundTrip(ip: Ipv4Addr, data: seq<byte>, at: nat)
    requires at + 4 <= |data| && data[at..at + 4] == Octets(ip)
    ensures AddrAt(data, at) == ip
  {
    var field := data[at..at + 4];
    assert data[at] == field[0] && data[at + 1] == field[1] && data[at + 2] == field[2] && data[at + 3] == field[3];
  }

  datatype Protocol = Icmp | Tcp | Udp {
    function Number(): byte {
      match this
      case Icmp => 1
      case Tcp => 6
      case Udp => 17
    }
  }

  function FromNumber(n: byte): (r: Result<Protocol>)
    ensures forall p: Protocol :: r == Ok(p) <==> n == p.Number()
  {
    if n == 1 then Ok(Icmp) else if n == 6 then Ok(Tcp) else if n == 17 then Ok(Udp) else Err
  }

  // The pseudo-header checksum

  const PSEUDO_HDR_LEN := 12

  function PseudoHeader(ipPair: AddrPair, protocol: Protocol, length: u16): (hdr: seq<byte>)
    ensures |hdr| == PSEUDO_HDR_LEN
  {
    Octets(ipPair.src) + Octets(ipPair.dst) + [0, protocol.Number()] + Be16(length)
  }

  /** The checksum of pseudo-header and data; data that exceeds the MTU has none. */
  function PseudoChecksum(data: seq<byte>, ipPair: AddrPair, protocol: Protocol): (r: Result<u16>)
    ensures r.Ok? <==> |data| <= ETHERNET_MTU
  {
    if |data| > ETHERNET_MTU then Err else Ok(Reference(PseudoHeader(ipPair, protocol, |data|) + data))
  }

  /** Replaces the bytes of `s` from `at` on by `bytes`. */
  function Splice(s: seq<byte>, at: nat, bytes: seq<byte>): (r: seq<byte>)
    requires at + |bytes| <= |s|
    ensures |r| == |s|
  {
    s[..at] + bytes + s[at + |bytes|..]
  }

  lemma SpliceParts(s: seq<byte>, at: nat, bytes: seq<byte>)
    requires at + |bytes| <= |s|
    ensures var r := Splice(s, at, bytes);
            r[..at] == s[..at] && r[at..at + |bytes|] == bytes && r[at + |bytes|..] == s[at + |bytes|..]
  {
  }

  /** Writing two fields one after the other writes their concatenation. */
  lemma SpliceAppends(s: seq<byte>, at: nat, a: seq<byte>, b: seq<byte>)
    requires at + |a| + |b| <= |s|
    ensures Splice(Splice(s, at, a), at + |a|, b) == Splice(s, at, a + b)
  {
  }

  /** A field written in front of another. */
  lemma SplicePrepends(s: seq<byte>, at: nat, a: seq<byte>, b: seq<byte>)
    requires at + |a| + |b| <= |s|
    ensures Splice(Splice(s, at + |a|, b), at, a) == Splice(s, at, a + b)
  {
  }

  /** Bytes that a field skips over stay what they were. */
  lemma SpliceSkips(s: seq<byte>, at: nat, a: seq<byte>, n: nat)
    requires at + |a| + n <= |s|
    ensures Splice(s, at, a) == Splice(s, at, a + s[at + |a|..at + |a| + n])
  {
  }

  /** Overwriting a field of what was written. */
  lemma SpliceInside(s: seq<byte>, at: nat, a: seq<byte>, inner: nat, b: seq<byte>)
    requires at + |a| <= |s| && inner + |b| <= |a|
    ensures Splice(Splice(s, at, a), at + inner, b) == Splice(s, at, Splice(a, inner, b))
  {
  }

  /** Copies `bytes` into the slice of `buf` that starts at `at`, if it has that many bytes. */
  method WriteAt(buf: array<byte>, at: nat, bytes: seq<byte>) returns (ok: bool)
    modifies buf
    ensures ok == (at + |bytes| <= buf.Length)
    ensures buf[..] == if ok then Splice(old(buf[..]), at, bytes) else old(buf[..])
  {
    ok := at + |bytes| <= buf.Length;
    if ok {
      forall i | 0 <= i < |bytes| {
        buf[at + i] := bytes[i];
      }
      ghost var was := old(buf[..]);
      assert buf[..] == was[..at] + bytes + was[at + |bytes|..];
    }
  }

  /** Lays pseudo-header and data out in a local buffer and sums that. */
  method PseudoHdrCksum(data: seq<byte>, ipPair: AddrPair, protocol: Protocol) returns (r: Result<u16>)
    ensures r == PseudoChecksum(data, ipPair, protocol)
  {
    hide Reference, Calculate, Splice, Octets, Be16;
    if |data| > 0xFFFF {
      return Err;
    }
    var length: u16 := |data|;
    var cksumData := new byte[PSEUDO_HDR_LEN + ETHERNET_MTU](_ => 0);
    ghost var zeros := cksumData[..];
    var _ := WriteAt(cksumData, 0, Octets(ipPair.src));
    var _ := WriteAt(cksumData, 4, Octets(ipPair.dst));
    AddressesLaid(zeros, ipPair);
    SpliceOne(cksumData[..], 9, protocol.Number());
    cksumData[9] := protocol.Number();
    var _ := WriteAt(cksumData, 10, Be16(length));
    HeaderLaid(zeros, ipPair, protocol, length);
    var ok := WriteAt(cksumData, 12, data);
    if !ok {
      return Err;
    }
    ghost var laid := PseudoHeader(ipPair, protocol, length) + data;
    SpliceAppends(zeros, 0, PseudoHeader(ipPair, protocol, length), data);
    SpliceParts(zeros, 0, laid);
    assert cksumData[..12 + |data|] == laid;
    CalculateIsReference(laid);
    r := Ok(Calculate(cksumData[..12 + |data|]));
  }

  /** The two addresses, and the zero byte behind them that is never written. */
  lemma AddressesLaid(zeros: seq<byte>, ipPair: AddrPair)
    requires |zeros| >= PSEUDO_HDR_LEN && zeros[8] == 0
    ensures Splice(Splice(zeros, 0, Octets(ipPair.src)), 4, Octets(ipPair.dst)) ==
            Splice(zeros, 0, Octets(ipPair.src) + Octets(ipPair.dst) + [0])
  {
    hide Splice, Octets;
    SpliceAppends(zeros, 0, Octets(ipPair.src), Octets(ipPair.dst));
    SpliceSkips(zeros, 0, Octets(ipPair.src) + Octets(ipPair.dst), 1);
    assert zeros[8..9] == [0];
  }

  /** Protocol number and length behind that complete the pseudo-header. */
  lemma HeaderLaid(zeros: seq<byte>, ipPair: AddrPair, protocol: Protocol, length: u16)
    requires |zeros| >= PSEUDO_HDR_LEN
    ensures var front := Octets(ipPair.src) + Octets(ipPair.dst) + [0];
            Splice(Splice(Splice(zeros, 0, front), 9, [protocol.Number()]), 10, Be16(length)) ==
            Splice(zeros, 0, PseudoHeader(ipPair, protocol, length))
  {
    hide Splice, Octets, Be16;
    var front := Octets(ipPair.src) + Octets(ipPair.dst) + [0];
    SpliceAppends(zeros, 0, front, [protocol.Number()]);
    SpliceAppends(zeros, 0, front + [protocol.Number()], Be16(length));
    assert front + [protocol.Number()] == Octets(ipPair.src) + Octets(ipPair.dst) + [0, protocol.Number()];
  }

  lemma SpliceOne(s: seq<byte>, at: nat, b: byte)
    requires at < |s|
    ensures s[at := b] == Splice(s, at, [b])
  {
  }

  lemma SpliceAfter(hdr: seq<byte>, data: seq<byte>, at: nat, field: seq<byte>)
    requires at + |field| <= |data|
    ensures hdr + Splice(data, at, field) == hdr + data[..at] + field + data[at + |field|..]
  {
  }

  /** Data whose zeroed checksum field at `at` is overwritten by the checksum passes the check. */
  lemma StoredPseudoChecksum(data: seq<byte>, at: nat, ipPair: AddrPair, protocol: Protocol)
    requires at % 2 == 0 && at + 2 <= |data| <= ETHERNET_MTU && data[at..at + 2] == [0, 0]
    ensures var c := PseudoChecksum(data, ipPair, protocol).value;
            PseudoChecksum(Splice(data, at, Be16(c)), ipPair, protocol) == Ok(0)
    ensures PseudoChecksum(data, ipPair, protocol) == Ok(0) ==>
              PseudoChecksum(Splice(data, at, Be16(0xFFFF)), ipPair, protocol) == Ok(0)
  {
    hide Reference, PseudoHeader, Splice;
    var hdr := PseudoHeader(ipPair, protocol, |data|);
    var before, after := hdr + data[..at], data[at + 2..];
    assert before + [0, 0] + after == hdr + data;
    var c := PseudoChecksum(data, ipPair, protocol).value;
    SpliceAfter(hdr, data, at, Be16(c));
    StoredChecksumVerifies(before, after);
    if PseudoChecksum(data, ipPair, protocol) == Ok(0) {
      SpliceAfter(hdr, data, at, Be16(0xFFFF));
      StoredOnesVerify(before, after);
    }
  }

  /**
   The words of pseudo-header (addresses, a zero byte, protocol number and length) and data add up to all
   ones.
   */
  predicate Verifies(data: seq<byte>, ipPair: AddrPair, number: byte)
    requires |data| <= 0xFFFF
  {
    var src, dst := ipPair.src, ipPair.dst;
    SumsUp([src.a, src.b, src.c, src.d, dst.a, dst.b, dst.c, dst.d, 0, number,
            |data| / 0x100, |data| % 0x100] + data)
  }

  lemma VerifiesIs(data: seq<byte>, ipPair: AddrPair, protocol: Protocol)
    ensures PseudoChecksum(data, ipPair, protocol) == Ok(0) <==>
            |data| <= 1500 && Verifies(data, ipPair, protocol.Number())
  {
    hide OnesSum, WordSum, High, Low, SumsUp;
    if |data| <= 1500 {
      SumsUpIs(PseudoHeader(ipPair, protocol, |data|) + data);
      var src, dst := ipPair.src, ipPair.dst;
      HighIs(|data|);
      assert PseudoHeader(ipPair, protocol, |data|) ==
             [src.a, src.b, src.c, src.d, dst.a, dst.b, dst.c, dst.d, 0, protocol.Number(),
              |data| / 0x100, |data| % 0x100];
    }
  }

  lemma HighIs(x: u16)
    ensures High(x) == x / 0x100 && Low(x) == x % 0x100
  {
  }
}
