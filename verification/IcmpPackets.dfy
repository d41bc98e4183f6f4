/** ICMP messages (src/nsficmp.c; RFC 792, RFC 1122 section 3.2.2): the echo reply made of a request, and the
    error message that quotes a packet, with the rules that suppress it. */
module IcmpPackets {
  import opened Bytes
  import opened Chains
  import opened Checksum
  import opened IpPackets

  const ECHO_REPLY: Byte := 0
  const ECHO_REQUEST: Byte := 8
  const QUOTE_DATA: nat := 8
  const MAX_QUOTE: nat := 68

  /** The octets verify: their word sum is a nonzero multiple of 0xFFFF. */
  predicate Verifies(s: Octets) {
    WordSum(s) > 0 && WordSum(s) % 0xFFFF == 0
  }

  lemma VerifiesIff(s: Octets)
    ensures Cksum(s) == 0 <==> Verifies(s)
  {
    Multiple(WordSum(s));
  }

  // ---- echo ---------------------------------------------------------------------------------------------

  /** Type 0, the checksum recomputed over the otherwise unchanged message. */
  function EchoReply(msg: Octets): (r: Octets)
    requires |msg| >= 4
  {
    var z := Overlay(Overlay(msg, 0, [ECHO_REPLY]), 2, [0, 0]);
    Overlay(z, 2, Put16(Cksum(z)))
  }

  /** A message of type 0 that verifies and has everything else behind its checksum as `msg` does. */
  predicate Answers(r: Octets, msg: Octets)
    requires |msg| >= 4
  {
    |r| == |msg| && Verifies(r) && r[0] == 0 && r[1] == msg[1] && r[4..] == msg[4..]
  }

  /** The reply is a well-formed message of the same length that differs from the request only in its
      type and checksum: identifier, sequence number and data come back as they were. */
  lemma ReplyEchoes(msg: Octets)
    requires |msg| >= 4
    ensures Answers(EchoReply(msg), msg)
  {
    var z := Overlay(Overlay(msg, 0, [ECHO_REPLY]), 2, [0, 0]);
    assert z[2] == z[2..4][0] && z[3] == z[2..4][1];
    StoredVerifies(z, 2);
    var r := EchoReply(msg);
    VerifiesIff(r);
    assert r[0] == z[0] == Overlay(msg, 0, [ECHO_REPLY])[0..1][0];
    assert r[4..] == z[4..] == msg[4..];
  }

  datatype Kind = Short | BadSum | Other | Echo

  /** What `nsficmp_input` makes of the message. */
  function Classify(msg: Octets): Kind {
    if |msg| < 4 then Short
    else if Cksum(msg) != 0 then BadSum
    else if msg[0] != ECHO_REQUEST || msg[1] != 0 then Other
    else Echo
  }

  /** An echo request: type 8, code 0, and it verifies. */
  predicate Asks(msg: Octets) {
    |msg| >= 4 && msg[0] == 8 && msg[1] == 0 && Verifies(msg)
  }

  /** What is too short, fails its checksum, is no echo request, and is one, octet by octet. */
  lemma ClassifiedIff(msg: Octets)
    ensures Classify(msg) == Echo <==> Asks(msg)
    ensures Classify(msg) == Short <==> |msg| < 4
    ensures Classify(msg) == BadSum <==> |msg| >= 4 && !Verifies(msg)
  {
    VerifiesIff(msg);
  }

  /** No reply is itself answered. */
  lemma ReplyIsFinal(msg: Octets)
    requires |msg| >= 4
    ensures Classify(EchoReply(msg)) == Other
  {
    ReplyEchoes(msg);
  }

  lemma PacketBody(f: Fields, payload: Octets)
    requires HDR_MIN + |payload| < 0x1_0000
    ensures Packet(f, payload)[HDR_MIN..] == payload && |Packet(f, payload)| == HDR_MIN + |payload|
    ensures Packet(f, payload)[..HDR_MIN] == Header(f, HDR_MIN + |payload|)
  {
    PacketFits(f, payload);
    HeaderFields(f, HDR_MIN + |payload|);
  }

  /** What a delivered packet in one buffer carries behind its header, the padding trimmed. */
  function BodyOf(s: Seg): Octets {
    var p := Flat(Trimmed([s]));
    if |p| < HDR_MIN then [] else p[HDR_MIN..]
  }

  /** Ping: an echo request sent in one buffer, padded as it may be, is delivered; the packet that answers it is
      delivered at the pinger with the addresses swapped and carries what was sent. */
  lemma Ping(f: Fields, msg: Octets, c: Seg, pad: Octets, locals: seq<Word>, id: Half, back: Seg, pad': Octets, pinger: seq<Word>)
    requires HDR_MIN + |msg| + |pad| < 0x1_0000 && HDR_MIN + |msg| + |pad'| < 0x1_0000
    requires f.proto == 1 && |msg| >= 4 && msg[0] == 8 && msg[1] == 0 && WordSum(msg) > 0 && WordSum(msg) % 0xFFFF == 0
    requires f.dst in locals && c.bytes == Packet(f, msg) + pad
    requires f.src in pinger && back.bytes == Packet(Fields(id, 64, 1, f.dst, f.src), EchoReply(msg)) + pad'
    ensures Input([c], locals) == Deliver(1, f.src, f.dst, 20) && BodyOf(c) == msg && Classify(msg) == Echo
    ensures Input([back], pinger) == Deliver(1, f.dst, f.src, 20)
    ensures var r := BodyOf(back);
      |r| == |msg| && r[0] == 0 && r[1] == 0 && r[4..] == msg[4..] && WordSum(r) > 0 && WordSum(r) % 0xFFFF == 0
  {
    ClassifiedIff(msg);
    ReplyEchoes(msg);
    OneBuffer(f, msg, c, pad, locals);
    OneBuffer(Fields(id, 64, 1, f.dst, f.src), EchoReply(msg), back, pad', pinger);
  }

  lemma FlatOne(s: Seg)
    ensures Flat([s]) == s.bytes
  {
    assert [s][1..] == [];
  }

  lemma OneBuffer(f: Fields, payload: Octets, s: Seg, pad: Octets, locals: seq<Word>)
    requires HDR_MIN + |payload| + |pad| < 0x1_0000 && f.dst in locals && s.bytes == Packet(f, payload) + pad
    ensures Input([s], locals) == Deliver(f.proto, f.src, f.dst, HDR_MIN)
    ensures BodyOf(s) == payload
  {
    FlatOne(s);
    PacketBody(f, payload);
    RoundTrip(f, payload, [s], pad, locals);
  }

  // ---- errors ---------------------------------------------------------------------------------------------

  /** Destination unreachable, source quench, redirect, time exceeded, parameter problem. */
  predicate ErrorType(t: Byte) {
    t == 3 || t == 4 || t == 5 || t == 11 || t == 12
  }

  predicate Broadcast(ip: Word) { ip == 0xFFFF_FFFF }

  predicate Multicast(ip: Word) { 0xE000_0000 <= ip < 0xF000_0000 }

  /** What was captured cannot be quoted, or RFC 1122 forbids an error about it. */
  predicate Suppressed(got: Octets) {
    || |got| < HDR_MIN || got[0] / 16 != 4
    || got[0] % 16 * 4 < HDR_MIN || |got| < got[0] % 16 * 4
    || Get16(got, 6) % 0x2000 != 0
    || Get32(got, 12) == 0 || Broadcast(Get32(got, 12)) || Multicast(Get32(got, 12))
    || Broadcast(Get32(got, 16)) || Multicast(Get32(got, 16))
    || (got[9] == PROTO_ICMP && |got| > got[0] % 16 * 4 && ErrorType(got[got[0] % 16 * 4]))
  }

  /** The header and 64 bits of the data, or what there was. */
  function Quoted(got: Octets): Octets
    requires |got| >= HDR_MIN
  {
    got[..Min(got[0] % 16 * 4 + QUOTE_DATA, |got|)]
  }

  function Captured(orig: Octets): Octets { orig[..Min(MAX_QUOTE, |orig|)] }

  function ErrorBlank(kind: Byte, code: Byte, quoted: Octets): (m: Octets)
    ensures |m| == 8 + |quoted| && Get16(m, 2) == 0
  {
    [kind, code, 0, 0, 0, 0, 0, 0] + quoted
  }

  function ErrorMessage(kind: Byte, code: Byte, quoted: Octets): Octets {
    var z := ErrorBlank(kind, code, quoted);
    Overlay(z, 2, Put16(Cksum(z)))
  }

  /** A message that verifies, of that type and code, with the quotation behind four octets of zero. */
  predicate Reports(m: Octets, kind: Byte, code: Byte, quoted: Octets) {
    Verifies(m) && |m| == 8 + |quoted| && m[0] == kind && m[1] == code && m[4..8] == [0, 0, 0, 0] && m[8..] == quoted
  }

  /** An error message verifies, and carries its quotation behind eight octets. */
  lemma ErrorVerifies(kind: Byte, code: Byte, quoted: Octets)
    ensures Reports(ErrorMessage(kind, code, quoted), kind, code, quoted)
  {
    StoredVerifies(ErrorBlank(kind, code, quoted), 2);
    VerifiesIff(ErrorMessage(kind, code, quoted));
    assert ErrorMessage(kind, code, quoted)[4..8] == ErrorBlank(kind, code, quoted)[4..8] == [0, 0, 0, 0];
  }

  /** The capture is always long enough for what has to be quoted: all of the header, and its first 64
      bits of data if the packet has them. */
  lemma QuoteComplete(orig: Octets)
    requires !Suppressed(Captured(orig))
    ensures Quoted(Captured(orig)) == orig[..Min(orig[0] % 16 * 4 + 8, |orig|)]
  {
  }

  /** Limited broadcast, or class D. */
  predicate NoHost(ip: Word) { ip == 0xFFFF_FFFF || 0xE000_0000 <= ip <= 0xEFFF_FFFF }

  /** About a packet this stack could have built, an error is suppressed exactly if its source is no single
      host, its destination is no host, or it is ICMP and what follows its header begins like an ICMP error:
      its data, or, if it has none, whatever the link padded it with. */
  lemma SuppressedIff(f: Fields, payload: Octets, pad: Octets)
    requires HDR_MIN + |payload| < 0x1_0000
    ensures Suppressed(Captured(Packet(f, payload) + pad)) <==>
      || f.src == 0 || NoHost(f.src) || NoHost(f.dst)
      || (f.proto == 1 && payload + pad != [] && (payload + pad)[0] in {3, 4, 5, 11, 12})
  {
    var p := Packet(f, payload);
    var got := Captured(p + pad);
    PacketFits(f, payload);
    PacketBody(f, payload);
    assert got[..HDR_MIN] == p[..HDR_MIN];
    ReadsHeader(got, f, HDR_MIN + |payload|);
    assert got[0] == 0x45 && 0x45 % 16 * 4 == HDR_MIN && 0x45 / 16 == 4;
    if payload + pad != [] { assert got[HDR_MIN] == (p + pad)[HDR_MIN] == (payload + pad)[0]; }
  }

  /** No error is ever sent about an error: whatever packet one of these messages travels in, the message
      about that packet is suppressed. */
  lemma NoErrorStorm(f: Fields, kind: Byte, code: Byte, quoted: Octets, pad: Octets)
    requires f.proto == 1 && kind in {3, 4, 5, 11, 12} && |quoted| <= 68
    ensures Suppressed(Captured(Packet(f, ErrorMessage(kind, code, quoted)) + pad))
  {
    ErrorVerifies(kind, code, quoted);
    SuppressedIff(f, ErrorMessage(kind, code, quoted), pad);
    assert (ErrorMessage(kind, code, quoted) + pad)[0] == kind;
  }
}
