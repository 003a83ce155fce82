/** TCP segments as bytes: parsing, writing in place, and exactly when writing is undone by parsing. */
module TcpWire {
  import opened Base
  import opened Segment
  import opened Wire

  function FlagsByte(flags: TcpFlags): byte {
    match flags
    case Syn => 0x02
    case SynAck => 0x12
    case Ack => 0x10
    case FinAck => 0x11
    case Rst => 0x04
    case RstAck => 0x14
  }

  /** The ACK, RST, SYN and FIN bits of a flags byte. */
  function Masked(b: byte): byte {
    b / 16 % 2 * 16 + b % 8
  }

  /** Only the six combinations with a meaning are accepted; the other bits are ignored. */
  function ParseFlags(b: byte): (r: Result<TcpFlags>)
    ensures forall flags: TcpFlags :: r == Ok(flags) <==> Masked(b) == FlagsByte(flags)
  {
    match Masked(b)
    case 0x02 => Ok(Syn)
    case 0x10 => Ok(Ack)
    case 0x04 => Ok(Rst)
    case 0x12 => Ok(SynAck)
    case 0x11 => Ok(FinAck)
    case 0x14 => Ok(RstAck)
    case _ => Err
  }

  lemma FlagsRoundTrip(flags: TcpFlags)
    ensures ParseFlags(FlagsByte(flags)) == Ok(flags)
  {
    assert Masked(FlagsByte(flags)) == FlagsByte(flags);
  }

  /** The header length in 32-bit words, in the upper four bits. */
  function OffsetByte(offsetBytes: byte): byte {
    offsetBytes / 4 * 16 % 0x100
  }

  function OffsetFrom(b: byte): byte {
    b / 16 * 4
  }

  /** What follows a header of `offset` bytes; nothing if the data is shorter than that. */
  function PayloadFrom(data: seq<byte>, offset: nat): Option<Payload>
    requires |data| <= MAX_PAYLOAD
  {
    if offset < |data| then Some(data[offset..]) else None
  }

  function ParseTcp(data: seq<byte>, ipPair: AddrPair): Result<TcpSegment> {
    if |data| < TCP_HDR_MIN_LEN || PseudoChecksum(data, ipPair, Tcp) != Ok(0) || ParseFlags(data[13]).Err? then Err
    else
      var offset := OffsetFrom(data[12]);
      Ok(TcpSegment(
        ipPair,
        PortPair(FromBe16(data, 0), FromBe16(data, 2)),
        FromBe32(data, 4),
        FromBe32(data, 8),
        offset,
        ParseFlags(data[13]).value,
        FromBe16(data, 14),
        PayloadFrom(data, offset)))
  }

  function ProtoLen(seg: TcpSegment): nat {
    TCP_HDR_MIN_LEN + Len(seg.payload)
  }

  /** The header up to the checksum. */
  function Fields(seg: TcpSegment): (bytes: seq<byte>)
    ensures |bytes| == 16
  {
    Be16(seg.ports.src) + Be16(seg.ports.dst) + Be32(seg.seqNum) + Be32(seg.ackNum)
    + [OffsetByte(seg.offsetBytes), FlagsByte(seg.flags)] + Be16(seg.window)
  }

  /** The segment with its checksum field zeroed and nothing urgent. */
  function Unsummed(seg: TcpSegment): (bytes: seq<byte>)
    ensures |bytes| == ProtoLen(seg) && bytes[..16] == Fields(seg) && bytes[16..18] == [0, 0]
    ensures bytes[20..] == Bytes(seg.payload)
  {
    Fields(seg) + [0, 0] + [0, 0] + Bytes(seg.payload)
  }

  /** The encoded segment; one that exceeds the MTU has no encoding. */
  function EncodeTcp(seg: TcpSegment): (r: Result<seq<byte>>)
    ensures r.Ok? <==> ProtoLen(seg) <= ETHERNET_MTU
    ensures r.Ok? ==> |r.value| == ProtoLen(seg)
  {
    match PseudoChecksum(Unsummed(seg), seg.ipPair, Tcp)
    case Err => Err
    case Ok(c) => Ok(Splice(Unsummed(seg), 16, Be16(c)))
  }

  /** The consecutive writes of the fields are one write of all of them. */
  lemma FieldsAreOneWrite(seg: TcpSegment, s: seq<byte>, at: nat)
    requires at + 16 <= |s|
    ensures var s1 := Splice(s, at, Be16(seg.ports.src));
            var s2 := Splice(s1, at + 2, Be16(seg.ports.dst));
            var s3 := Splice(s2, at + 4, Be32(seg.seqNum));
            var s4 := Splice(s3, at + 8, Be32(seg.ackNum));
            var s5 := Splice(s4, at + 12, [OffsetByte(seg.offsetBytes)]);
            var s6 := Splice(s5, at + 13, [FlagsByte(seg.flags)]);
            Splice(s6, at + 14, Be16(seg.window)) == Splice(s, at, Fields(seg))
  {
    hide Splice, Be16, Be32, OffsetByte, FlagsByte;
    var f2 := Be16(seg.ports.src) + Be16(seg.ports.dst);
    SpliceAppends(s, at, Be16(seg.ports.src), Be16(seg.ports.dst));
    SpliceAppends(s, at, f2, Be32(seg.seqNum));
    var f4 := f2 + Be32(seg.seqNum) + Be32(seg.ackNum);
    SpliceAppends(s, at, f2 + Be32(seg.seqNum), Be32(seg.ackNum));
    SpliceAppends(s, at, f4, [OffsetByte(seg.offsetBytes)]);
    var f6 := f4 + [OffsetByte(seg.offsetBytes)] + [FlagsByte(seg.flags)];
    SpliceAppends(s, at, f4 + [OffsetByte(seg.offsetBytes)], [FlagsByte(seg.flags)]);
    SpliceAppends(s, at, f6, Be16(seg.window));
    assert f6 + Be16(seg.window) == Fields(seg);
  }

  /** The writes after the fields: they skip the checksum field, and zero it last. */
  lemma RestIsOneWrite(seg: TcpSegment, s: seq<byte>, at: nat)
    requires at + ProtoLen(seg) <= |s|
    ensures var s1 := Splice(Splice(s, at, Fields(seg)), at + 18, [0, 0]);
            var s2 := Splice(s1, at + 20, Bytes(seg.payload));
            Splice(s2, at + 16, [0, 0]) == Splice(s, at, Unsummed(seg))
    ensures var s1 := Splice(Splice(s, at, Fields(seg)), at + 18, [0, 0]);
            Splice(s1, at + 20, []) == s1
  {
    hide Fields;
    var gap := s[at + 16..at + 18];
    var f18, f20 := Fields(seg) + gap, Fields(seg) + gap + [0, 0];
    SpliceSkips(s, at, Fields(seg), 2);
    SpliceAppends(s, at, f18, [0, 0]);
    SpliceAppends(s, at, f20, Bytes(seg.payload));
    SpliceInside(s, at, f20 + Bytes(seg.payload), 16, [0, 0]);
    assert Splice(f20 + Bytes(seg.payload), 16, [0, 0]) == Unsummed(seg);
  }

  /** Writes the segment field by field into the part of `buf` that starts at `lo`. */
  method WriteInto(seg: TcpSegment, buf: array<byte>, lo: nat) returns (ok: bool)
    requires lo <= buf.Length
    modifies buf
    ensures ok == (ProtoLen(seg) <= Min(buf.Length - lo, ETHERNET_MTU))
    ensures ok ==> buf[..] == Splice(old(buf[..]), lo, EncodeTcp(seg).value)
  {
    hide PseudoChecksum, Be16, Be32, FlagsByte, OffsetByte, Splice, Fields, Unsummed;
    ghost var was := buf[..];
    var n := ProtoLen(seg);
    ok := WriteAt(buf, lo, Be16(seg.ports.src));
    if !ok { return; }
    ok := WriteAt(buf, lo + 2, Be16(seg.ports.dst));
    if !ok { return; }
    ok := WriteAt(buf, lo + 4, Be32(seg.seqNum));
    if !ok { return; }
    ok := WriteAt(buf, lo + 8, Be32(seg.ackNum));
    if !ok { return; }
    ok := WriteAt(buf, lo + 12, [OffsetByte(seg.offsetBytes)]);
    if !ok { return; }
    ok := WriteAt(buf, lo + 13, [FlagsByte(seg.flags)]);
    if !ok { return; }
    ok := WriteAt(buf, lo + 14, Be16(seg.window));
    if !ok { return; }
    FieldsAreOneWrite(seg, was, lo);
    ok := WriteAt(buf, lo + 18, [0, 0]);
    if !ok { return; }
    if n > 0xFFFF {
      return false;
    }
    if seg.payload.Some? {
      ok := WriteAt(buf, lo + 20, seg.payload.value);
      if !ok { return; }
    }
    RestIsOneWrite(seg, was, lo);
    ok := WriteAt(buf, lo + 16, [0, 0]);
    SpliceParts(was, lo, Unsummed(seg));
    assert buf[lo..lo + n] == buf[..][lo..lo + n] == Unsummed(seg);
    var cksum := PseudoHdrCksum(buf[lo..lo + n], seg.ipPair, Tcp);
    if cksum.Err? {
      return false;
    }
    ok := WriteAt(buf, lo + 16, Be16(cksum.value));
    assert EncodeTcp(seg).value == Splice(Unsummed(seg), 16, Be16(cksum.value));
    SpliceInside(was, lo, Unsummed(seg), 16, Be16(cksum.value));
  }

  /** Parsing a written segment fails on nothing, and gives back all fields but perhaps the data offset and payload. */
  lemma ParseWritten(seg: TcpSegment)
    requires ProtoLen(seg) <= ETHERNET_MTU
    ensures var offset := OffsetFrom(OffsetByte(seg.offsetBytes));
            ParseTcp(EncodeTcp(seg).value, seg.ipPair) ==
            Ok(seg.(offsetBytes := offset, payload := PayloadFrom(EncodeTcp(seg).value, offset)))
  {
    hide PseudoChecksum, Be16, Be32, FromBe16, FromBe32, FlagsByte, OffsetByte, OffsetFrom, ParseFlags;
    var data := EncodeTcp(seg).value;
    StoredPseudoChecksum(Unsummed(seg), 16, seg.ipPair, Tcp);
    assert data[..16] == Fields(seg);
    assert data[0..2] == Be16(seg.ports.src);
    assert data[2..4] == Be16(seg.ports.dst);
    assert data[4..8] == Be32(seg.seqNum);
    assert data[8..12] == Be32(seg.ackNum);
    assert data[12] == OffsetByte(seg.offsetBytes) && data[13] == FlagsByte(seg.flags);
    assert data[14..16] == Be16(seg.window);
    Be16RoundTrip(seg.ports.src, data, 0);
    Be16RoundTrip(seg.ports.dst, data, 2);
    Be32RoundTrip(seg.seqNum, data, 4);
    Be32RoundTrip(seg.ackNum, data, 8);
    FlagsRoundTrip(seg.flags);
    Be16RoundTrip(seg.window, data, 14);
  }

  /**
   Round trip, with its exact condition: a segment comes back equal if and only if its header has
   no options, or it has no payload and its header length is a whole number of words up to 60.
   (The writer never emits options, whatever the segment's data offset says.)
   */
  lemma TcpRoundTrip(seg: TcpSegment)
    requires ProtoLen(seg) <= ETHERNET_MTU
    ensures ParseTcp(EncodeTcp(seg).value, seg.ipPair) == Ok(seg) <==>
            || seg.offsetBytes == TCP_HDR_MIN_LEN
            || (seg.payload.None? && seg.offsetBytes % 4 == 0 && TCP_HDR_MIN_LEN <= seg.offsetBytes <= 60)
  {
    hide PseudoChecksum, EncodeTcp, ParseTcp, OffsetFrom, OffsetByte;
    ParseWritten(seg);
    OffsetSurvives(seg.offsetBytes);
    PayloadSurvives(seg);
  }

  lemma OffsetSurvives(offsetBytes: byte)
    ensures OffsetFrom(OffsetByte(offsetBytes)) == offsetBytes <==> offsetBytes % 4 == 0 && offsetBytes <= 60
  {
    hide OffsetByte, OffsetFrom;
    if offsetBytes <= 63 {
      SmallOffset(offsetBytes);
    } else {
      LargeOffset(OffsetByte(offsetBytes));
    }
  }

  lemma SmallOffset(offsetBytes: byte)
    requires offsetBytes <= 63
    ensures OffsetFrom(OffsetByte(offsetBytes)) == offsetBytes - offsetBytes % 4
  {
    assert 0 <= offsetBytes / 4 <= 15;
  }

  lemma LargeOffset(b: byte)
    ensures OffsetFrom(b) <= 60
  {
  }

  lemma PayloadSurvives(seg: TcpSegment)
    requires ProtoLen(seg) <= ETHERNET_MTU
    ensures PayloadFrom(EncodeTcp(seg).value, seg.offsetBytes) == seg.payload <==>
            seg.offsetBytes == TCP_HDR_MIN_LEN || (seg.payload.None? && seg.offsetBytes >= TCP_HDR_MIN_LEN)
  {
    hide PseudoChecksum, Be16, Unsummed;
    var data := EncodeTcp(seg).value;
    assert data[20..] == data[18..][2..] == Unsummed(seg)[18..][2..] == Bytes(seg.payload);
  }

  // What is accepted, in numbers

  /** The flags that are ignored: PSH, URG, ECE and CWR. */
  function Ignored(psh: bool, urg: bool, ece: bool, cwr: bool): byte {
    (if psh then 0x08 else 0) + (if urg then 0x20 else 0) + (if ece then 0x40 else 0) + (if cwr then 0x80 else 0)
  }

  /** The bits that tell the six combinations: FIN 1, SYN 2, RST 4, ACK 16. */
  function FlagNumber(flags: TcpFlags): byte {
    match flags
    case Syn => 2
    case SynAck => 18
    case Ack => 16
    case FinAck => 17
    case Rst => 4
    case RstAck => 20
  }

  /** A flags byte is one of the six combinations exactly if it is their number, with any ignored flags added. */
  lemma FlagsExactly(b: byte, flags: TcpFlags)
    ensures ParseFlags(b) == Ok(flags) <==>
            exists psh, urg, ece, cwr :: b == FlagNumber(flags) + Ignored(psh, urg, ece, cwr)
    ensures FlagsByte(flags) == FlagNumber(flags)
  {
    hide Masked, Ignored, FlagsByte;
    NumberIsByte(flags);
    if ParseFlags(b) == Ok(flags) {
      MaskedLeaves(b);
    }
    forall psh, urg, ece, cwr | b == FlagNumber(flags) + Ignored(psh, urg, ece, cwr)
      ensures ParseFlags(b) == Ok(flags)
    {
      MaskedIgnores(flags, psh, urg, ece, cwr);
    }
  }

  lemma NumberIsByte(flags: TcpFlags)
    ensures FlagsByte(flags) == FlagNumber(flags)
  {
  }

  lemma By16(q: nat, r: nat)
    requires r < 16
    ensures (16 * q + r) / 16 == q
  {
  }

  lemma By8(q: nat, r: nat)
    requires r < 8
    ensures (8 * q + r) % 8 == r
  {
  }

  lemma By2(q: nat, r: nat)
    requires r < 2
    ensures (2 * q + r) % 2 == r
  {
  }

  function Bit(on: bool): nat {
    if on then 1 else 0
  }

  /** A byte put together from its flags. */
  lemma MaskedSum(ack: bool, low: nat, psh: bool, urg: bool, ece: bool, cwr: bool)
    requires low < 8
    ensures Bit(ack) * 16 + low + Ignored(psh, urg, ece, cwr) < 0x100
    ensures Masked(Bit(ack) * 16 + low + Ignored(psh, urg, ece, cwr)) == Bit(ack) * 16 + low
  {
    var upper := Bit(urg) + 2 * Bit(ece) + 4 * Bit(cwr);
    var b := Bit(ack) * 16 + low + Ignored(psh, urg, ece, cwr);
    assert b == 16 * (2 * upper + Bit(ack)) + (8 * Bit(psh) + low);
    assert b == 8 * (2 * (2 * upper + Bit(ack)) + Bit(psh)) + low;
    By16(2 * upper + Bit(ack), 8 * Bit(psh) + low);
    By8(2 * (2 * upper + Bit(ack)) + Bit(psh), low);
    By2(upper, Bit(ack));
  }

  lemma MaskedIgnores(flags: TcpFlags, psh: bool, urg: bool, ece: bool, cwr: bool)
    ensures FlagNumber(flags) + Ignored(psh, urg, ece, cwr) < 0x100
    ensures Masked(FlagNumber(flags) + Ignored(psh, urg, ece, cwr)) == FlagNumber(flags)
  {
    hide Masked, Ignored;
    match flags
    case Syn => MaskedSum(false, 2, psh, urg, ece, cwr);
    case SynAck => MaskedSum(true, 2, psh, urg, ece, cwr);
    case Ack => MaskedSum(true, 0, psh, urg, ece, cwr);
    case FinAck => MaskedSum(true, 1, psh, urg, ece, cwr);
    case Rst => MaskedSum(false, 4, psh, urg, ece, cwr);
    case RstAck => MaskedSum(true, 4, psh, urg, ece, cwr);
  }

  /** Every byte is put together like that. */
  lemma MaskedLeaves(b: byte)
    ensures exists psh, urg, ece, cwr :: b == Masked(b) + Ignored(psh, urg, ece, cwr)
  {
    var low, up8 := b % 8, b / 8;
    var psh, up16 := up8 % 2, up8 / 2;
    var ack, up32 := up16 % 2, up16 / 2;
    var urg, up64 := up32 % 2, up32 / 2;
    var ece, cwr := up64 % 2, up64 / 2;
    UpTo16(b);
    assert b == low + 8 * psh + 16 * ack + 32 * urg + 64 * ece + 128 * cwr;
    assert cwr <= 1;
    assert b == Masked(b) + Ignored(psh == 1, urg == 1, ece == 1, cwr == 1);
  }

  lemma UpTo16(b: byte)
    ensures b / 8 / 2 == b / 16
  {
  }

  /**
   Exactly what is accepted as a segment: at least a header, at most the MTU, a checksum that verifies
   with the pseudo-header in front, and a flags byte with a meaning. Each field is the big-endian number
   at its place (section 3.1 of RFC 9293).
   */
  lemma ParsedExactly(data: seq<byte>, ipPair: AddrPair)
    ensures ParseTcp(data, ipPair).Ok? <==>
            && 20 <= |data| <= 1500 && Verifies(data, ipPair, 6)
            && exists flags, psh, urg, ece, cwr :: data[13] == FlagNumber(flags) + Ignored(psh, urg, ece, cwr)
    ensures ParseTcp(data, ipPair).Ok? ==>
              var seg, offset := ParseTcp(data, ipPair).value, data[12] / 16 * 4;
              && seg.ipPair == ipPair
              && seg.ports == PortPair(data[0] as int * 0x100 + data[1], data[2] as int * 0x100 + data[3])
              && seg.seqNum == ((data[4] as int * 0x100 + data[5]) * 0x100 + data[6]) * 0x100 + data[7]
              && seg.ackNum == ((data[8] as int * 0x100 + data[9]) * 0x100 + data[10]) * 0x100 + data[11]
              && seg.offsetBytes == offset
              && (exists psh, urg, ece, cwr :: data[13] == FlagNumber(seg.flags) + Ignored(psh, urg, ece, cwr))
              && seg.window == data[14] as int * 0x100 + data[15]
              && seg.payload == if offset < |data| then Some(data[offset..]) else None
  {
    hide PseudoChecksum, Verifies, Ignored, FlagNumber, ParseFlags, Masked;
    VerifiesIs(data, ipPair, Tcp);
    if |data| >= 20 {
      FlagsExactly(data[13], if ParseFlags(data[13]).Ok? then ParseFlags(data[13]).value else Ack);
      forall flags, psh, urg, ece, cwr | data[13] == FlagNumber(flags) + Ignored(psh, urg, ece, cwr)
        ensures ParseFlags(data[13]) == Ok(flags)
      {
        FlagsExactly(data[13], flags);
      }
    }
  }

  /** What a written header holds besides its fields: the header length, nothing reserved, nothing urgent. */
  lemma WrittenExactly(seg: TcpSegment)
    requires ProtoLen(seg) <= ETHERNET_MTU
    ensures var bytes := EncodeTcp(seg).value;
            && |bytes| == 20 + Len(seg.payload) && bytes[20..] == Bytes(seg.payload)
            && bytes[12] == seg.offsetBytes / 4 * 16 % 0x100 && bytes[13] == FlagNumber(seg.flags)
            && bytes[18] == 0 && bytes[19] == 0
            && Verifies(bytes, seg.ipPair, 6)
  {
    hide Be16, Be32, PseudoChecksum, Verifies;
    StoredPseudoChecksum(Unsummed(seg), 16, seg.ipPair, Tcp);
    var bytes := EncodeTcp(seg).value;
    VerifiesIs(bytes, seg.ipPair, Tcp);
    assert bytes[..16] == Fields(seg);
    assert bytes[18..] == Unsummed(seg)[18..];
    assert bytes[18] == bytes[18..][0] && bytes[19] == bytes[18..][1] && bytes[20..] == bytes[18..][2..];
  }
}
