/** ICMP echo as bytes: parsing requests, writing replies in place, and what of a request its reply repeats. */
module IcmpWire {
  import opened Base
  import opened Segment
  import opened Checksum
  import opened Wire

  const ICMP_HDR_LEN := 8
  const ECHO_REQUEST: byte := 8
  const ECHO_REPLY: byte := 0

  datatype EchoMsg = EchoMsg(ipPair: AddrPair, icmpType: byte, identifier: u16, sequence: u16, payload: seq<byte>)

  function ParseEcho(data: seq<byte>, ipPair: AddrPair): Result<EchoMsg> {
    if |data| < ICMP_HDR_LEN || Reference(data) != 0 || data[0] != ECHO_REQUEST || data[1] != 0 then Err
    else Ok(EchoMsg(ipPair, data[0], FromBe16(data, 4), FromBe16(data, 6), data[ICMP_HDR_LEN..]))
  }

  function ReplyTo(msg: EchoMsg): EchoMsg {
    msg.(ipPair := msg.ipPair.Swapped(), icmpType := ECHO_REPLY)
  }

  function ProtoLen(msg: EchoMsg): nat {
    ICMP_HDR_LEN + |msg.payload|
  }

  function Header(msg: EchoMsg): (bytes: seq<byte>)
    ensures |bytes| == ICMP_HDR_LEN
  {
    [msg.icmpType] + [0] + [0, 0] + Be16(msg.identifier) + Be16(msg.sequence)
  }

  /** The message with its checksum field zeroed. */
  function Unsummed(msg: EchoMsg): (bytes: seq<byte>)
    ensures |bytes| == ProtoLen(msg) && bytes[..2] == [msg.icmpType, 0] && bytes[2..4] == [0, 0]
  {
    Header(msg) + msg.payload
  }

  function EncodeEcho(msg: EchoMsg): (bytes: seq<byte>)
    ensures |bytes| == ProtoLen(msg)
  {
    Splice(Unsummed(msg), 2, Be16(Reference(Unsummed(msg))))
  }

  /** The payload is written first and the header fields then, one after the other, in front of it. */
  lemma WritesAreOne(msg: EchoMsg, s: seq<byte>, at: nat)
    requires at + ProtoLen(msg) <= |s|
    ensures var s0 := Splice(s, at + 8, msg.payload);
            var s1 := Splice(Splice(s0, at, [msg.icmpType]), at + 1, [0]);
            var s2 := Splice(Splice(s1, at + 2, [0, 0]), at + 4, Be16(msg.identifier));
            Splice(s2, at + 6, Be16(msg.sequence)) == Splice(s, at, Unsummed(msg))
  {
    hide Be16, Splice;
    var s0 := Splice(s, at + 8, msg.payload);
    SpliceAppends(s0, at, [msg.icmpType], [0]);
    SpliceAppends(s0, at, [msg.icmpType] + [0], [0, 0]);
    SpliceAppends(s0, at, [msg.icmpType] + [0] + [0, 0], Be16(msg.identifier));
    SpliceAppends(s0, at, [msg.icmpType] + [0] + [0, 0] + Be16(msg.identifier), Be16(msg.sequence));
    SplicePrepends(s, at, Header(msg), msg.payload);
  }

  /** Writes the message into the part of `buf` that starts at `lo`. */
  method WriteInto(msg: EchoMsg, buf: array<byte>, lo: nat) returns (ok: bool)
    requires lo <= buf.Length
    modifies buf
    ensures ok == (ProtoLen(msg) <= Min(buf.Length - lo, 0xFFFF))
    ensures ok ==> buf[..] == Splice(old(buf[..]), lo, EncodeEcho(msg))
  {
    hide Reference, Calculate, Be16, Splice, Unsummed;
    ghost var was := buf[..];
    var n := ProtoLen(msg);
    ok := WriteAt(buf, lo + ICMP_HDR_LEN, msg.payload);
    if !ok { return; }
    var _ := WriteAt(buf, lo, [msg.icmpType]);
    var _ := WriteAt(buf, lo + 1, [0]);
    var _ := WriteAt(buf, lo + 2, [0, 0]);
    var _ := WriteAt(buf, lo + 4, Be16(msg.identifier));
    var _ := WriteAt(buf, lo + 6, Be16(msg.sequence));
    if n > 0xFFFF {
      return false;
    }
    WritesAreOne(msg, was, lo);
    SpliceParts(was, lo, Unsummed(msg));
    assert buf[lo..lo + n] == buf[..][lo..lo + n] == Unsummed(msg);
    CalculateIsReference(buf[lo..lo + n]);
    ok := WriteAt(buf, lo + 2, Be16(Calculate(buf[lo..lo + n])));
    SpliceInside(was, lo, Unsummed(msg), 2, Be16(Reference(Unsummed(msg))));
  }

  /** The encoding, field by field; its checksum verifies. */
  lemma EncodedParts(msg: EchoMsg, bytes: seq<byte>)
    requires bytes == EncodeEcho(msg)
    ensures bytes[..2] == [msg.icmpType, 0] && bytes[4..6] == Be16(msg.identifier) && bytes[6..8] == Be16(msg.sequence)
    ensures bytes[8..] == msg.payload && bytes[4..] == Be16(msg.identifier) + Be16(msg.sequence) + msg.payload
    ensures Reference(bytes) == 0
  {
    hide Reference;
    var rest := Be16(msg.identifier) + Be16(msg.sequence) + msg.payload;
    var c := Reference(Unsummed(msg));
    assert Unsummed(msg) == [msg.icmpType, 0] + [0, 0] + rest;
    assert bytes == [msg.icmpType, 0] + Be16(c) + rest;
    assert bytes[4..] == rest && bytes[4..6] == rest[..2] && bytes[6..8] == rest[2..4] && bytes[8..] == rest[4..];
    StoredChecksumVerifies([msg.icmpType, 0], rest);
  }

  /** A written request parses back to itself. */
  lemma EchoRoundTrip(msg: EchoMsg)
    requires msg.icmpType == ECHO_REQUEST
    ensures ParseEcho(EncodeEcho(msg), msg.ipPair) == Ok(msg)
  {
    hide Reference, Be16, FromBe16, EncodeEcho;
    var bytes := EncodeEcho(msg);
    EncodedParts(msg, bytes);
    assert bytes[0] == bytes[..2][0] && bytes[1] == bytes[..2][1];
    Be16RoundTrip(msg.identifier, bytes, 4);
    Be16RoundTrip(msg.sequence, bytes, 6);
  }

  /**
   The reply to a request, byte by byte: as long as the request, an echo reply, with a checksum that
   verifies, and everything behind the checksum exactly as it came.
   */
  lemma RequestIsEchoed(data: seq<byte>, ipPair: AddrPair)
    requires ParseEcho(data, ipPair).Ok?
    ensures var bytes := EncodeEcho(ReplyTo(ParseEcho(data, ipPair).value));
            && |bytes| == |data| && bytes[..2] == [ECHO_REPLY, 0] && bytes[4..] == data[4..] && Reference(bytes) == 0
  {
    hide Reference, Be16, FromBe16, EncodeEcho;
    var reply := ReplyTo(ParseEcho(data, ipPair).value);
    EncodedParts(reply, EncodeEcho(reply));
    FromBe16RoundTrip(data, 4);
    FromBe16RoundTrip(data, 6);
    assert data[4..] == data[4..6] + data[6..8] + data[8..];
  }

  /** Exactly what is accepted: an echo request, type 8 and code 0, whose words add up to all ones. */
  lemma ParsedExactly(data: seq<byte>, ipPair: AddrPair)
    ensures ParseEcho(data, ipPair).Ok? <==> |data| >= 8 && SumsUp(data) && data[0] == 8 && data[1] == 0
    ensures ParseEcho(data, ipPair).Ok? ==>
              var msg := ParseEcho(data, ipPair).value;
              && msg.ipPair == ipPair && msg.icmpType == 8 && msg.payload == data[8..]
              && msg.identifier == data[4] as int * 0x100 + data[5]
              && msg.sequence == data[6] as int * 0x100 + data[7]
  {
    hide Reference, SumsUp;
    SumsUpIs(data);
  }
}
