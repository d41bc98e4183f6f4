/** IPv4 packets as octet strings (src/nsfip.c; RFC 791 section 3.1): the header that output builds, the
    verdict that input reaches, and what one says about the other. */
module IpPackets {
  import opened Bytes
  import opened Chains
  import opened Checksum

  const HDR_MIN: nat := 20
  const PROTO_ICMP: Byte := 1
  const TTL_DEFAULT: Byte := 64

  /** What the sender decides; everything else in the header is fixed or follows. */
  datatype Fields = Fields(id: Half, ttl: Byte, proto: Byte, src: Word, dst: Word)

  // ---- building ---------------------------------------------------------------------------------------

  /** The header fields in order, with the checksum field still zero. */
  function Blank(f: Fields, total: Half): (h: Octets) {
    [0x45, 0] + Put16(total) + Put16(f.id) + [0, 0] + [f.ttl, f.proto] + [0, 0] + Put32(f.src) + Put32(f.dst)
  }

  lemma BlankFields(f: Fields, total: Half)
    ensures var h := Blank(f, total);
      && |h| == HDR_MIN
      && h[0] == 0x45 && h[1] == 0 && h[2..4] == Put16(total) && h[4..6] == Put16(f.id) && h[6..8] == [0, 0]
      && h[8] == f.ttl && h[9] == f.proto && h[10..12] == [0, 0] && h[12..16] == Put32(f.src) && h[16..20] == Put32(f.dst)
  {
  }

  function Header(f: Fields, total: Half): (h: Octets) {
    BlankFields(f, total);
    Overlay(Blank(f, total), 10, Put16(Cksum(Blank(f, total))))
  }

  /** `nsfip_output`: a fixed header in front of the payload, with the total as far as a halfword can say it. */
  function Packet(f: Fields, payload: Octets): Octets {
    Header(f, (HDR_MIN + |payload|) % 0x1_0000) + payload
  }

  lemma PacketFits(f: Fields, payload: Octets)
    requires HDR_MIN + |payload| < 0x1_0000
    ensures Packet(f, payload) == Header(f, HDR_MIN + |payload|) + payload
  {
  }

  lemma HeaderFields(f: Fields, total: Half)
    ensures var h := Header(f, total);
      && |h| == HDR_MIN && Cksum(h) == 0
      && h[0] == 0x45 && h[1] == 0 && Get16(h, 2) == total && Get16(h, 4) == f.id && Get16(h, 6) == 0
      && h[8] == f.ttl && h[9] == f.proto && Get32(h, 12) == f.src && Get32(h, 16) == f.dst
  {
    BlankFields(f, total);
    var z := Blank(f, total);
    var h := Header(f, total);
    assert Get16(z, 10) == 0 by { assert z[10] == z[10..12][0] && z[11] == z[10..12][1]; }
    StoredVerifies(z, 10);
    Get16Of(z, 2, total);
    Get16Of(z, 4, f.id);
    assert Get16(z, 6) == 0 by { assert z[6] == z[6..8][0] && z[7] == z[6..8][1]; }
    Get32Of(z, 12, f.src);
    Get32Of(z, 16, f.dst);
    assert h[2] == z[2] && h[3] == z[3] && h[4] == z[4] && h[5] == z[5] && h[6] == z[6] && h[7] == z[7];
    assert h[12] == z[12] && h[13] == z[13] && h[14] == z[14] && h[15] == z[15];
    assert h[16] == z[16] && h[17] == z[17] && h[18] == z[18] && h[19] == z[19];
  }

  lemma Get32Of(s: Octets, off: nat, v: Word)
    requires off + 4 <= |s| && s[off..off + 4] == Put32(v)
    ensures Get32(s, off) == v
  {
    var p := s[off..off + 4];
    assert s[off] == p[0] && s[off + 1] == p[1] && s[off + 2] == p[2] && s[off + 3] == p[3];
  }

  // ---- taking in --------------------------------------------------------------------------------------

  datatype Verdict =
    | BadLen
    | HdrErr
    | BadCksum
    | FragDrop
    | InAddrErr
    | Deliver(proto: Byte, src: Word, dst: Word, hlen: nat)

  /** The header as input reads it: version, length in octets with options, and whether the packet is a
      fragment (more fragments, or an offset). */
  datatype Head = Head(version: nat, hlen: nat, total: Half, fragment: bool, proto: Byte, src: Word, dst: Word)

  predicate Fragment(w: Half) {
    w / 0x2000 % 2 == 1 || w % 0x2000 != 0
  }

  function Parse(b: Octets): Head
    requires |b| >= HDR_MIN
  {
    Head(b[0] / 16, b[0] % 16 * 4, Get16(b, 2), Fragment(Get16(b, 6)), b[9], Get32(b, 12), Get32(b, 16))
  }

  function Judge(c: Chain, h: Head, locals: seq<Word>): Verdict
    requires c != []
  {
    if h.version != 4 || h.hlen < HDR_MIN then HdrErr
    else if |c[0].bytes| < h.hlen then HdrErr
    else if h.total < h.hlen || h.total > Walked(c) then BadLen
    else if Cksum(c[0].bytes[..h.hlen]) != 0 then BadCksum
    else if h.fragment then FragDrop
    else if h.dst !in locals then InAddrErr
    else Deliver(h.proto, h.src, h.dst, h.hlen)
  }

  /** `nsfip_input` up to the demux: the first check that fails, or delivery. */
  function Input(c: Chain, locals: seq<Word>): Verdict
    requires c != []
  {
    if Walked(c) < HDR_MIN || |c[0].bytes| < HDR_MIN then BadLen else Judge(c, Parse(c[0].bytes), locals)
  }

  /** The packet as the transports get it: link padding trimmed off the tail. A refused trim is ignored,
      as in the code. */
  function Trimmed(c: Chain): Chain
    requires c != []
  {
    if TotalOf(c) <= Walked(c) then TrimTail(c, Walked(c) - TotalOf(c)).0 else c
  }

  /** The total length a packet claims. */
  function TotalOf(c: Chain): Half
    requires c != []
  {
    if |c[0].bytes| < 4 then 0 else Get16(c[0].bytes, 2)
  }

  lemma FirstHolds(c: Chain, h: Octets, rest: Octets)
    requires c != [] && Flat(c) == h + rest && |h| <= |c[0].bytes|
    ensures c[0].bytes[..|h|] == h
  {
    assert c[0].bytes[..|h|] == Flat(c)[..|h|] == (h + rest)[..|h|] == h;
  }

  /** The front of `b` reads as the header for `f` and `total`. */
  ghost predicate Reads(b: Octets, f: Fields, total: Half) {
    && |b| >= HDR_MIN && b[0] == 0x45 && Cksum(b[..HDR_MIN]) == 0
    && Get16(b, 2) == total && Get16(b, 6) == 0 && b[9] == f.proto && Get32(b, 12) == f.src && Get32(b, 16) == f.dst
  }

  lemma ReadsHeader(b: Octets, f: Fields, total: Half)
    requires |b| >= HDR_MIN && b[..HDR_MIN] == Header(f, total)
    ensures Reads(b, f, total)
  {
    HeaderFields(f, total);
    var h := b[..HDR_MIN];
    assert b[0] == h[0] && b[2] == h[2] && b[3] == h[3] && b[6] == h[6] && b[7] == h[7] && b[9] == h[9];
    assert b[12] == h[12] && b[13] == h[13] && b[14] == h[14] && b[15] == h[15];
    assert b[16] == h[16] && b[17] == h[17] && b[18] == h[18] && b[19] == h[19];
  }

  lemma ArrivesAs(f: Fields, total: Half, payload: Octets, c: Chain, pad: Octets)
    requires c != [] && Flat(c) == (Header(f, total) + payload) + pad && |c[0].bytes| >= HDR_MIN
    ensures Reads(c[0].bytes, f, total) && |Flat(c)| == HDR_MIN + |payload| + |pad|
  {
    var h := Header(f, total);
    HeaderFields(f, total);
    Assoc(h, payload, pad);
    FirstHolds(c, h, payload + pad);
    ReadsHeader(c[0].bytes, f, total);
  }

  /** A fixed header in the first buffer, whatever follows it. */
  lemma Arrives(f: Fields, payload: Octets, c: Chain, pad: Octets)
    requires HDR_MIN + |payload| < 0x1_0000
    requires c != [] && Flat(c) == Packet(f, payload) + pad && |c[0].bytes| >= HDR_MIN
    ensures Reads(c[0].bytes, f, HDR_MIN + |payload|) && |Flat(c)| == HDR_MIN + |payload| + |pad|
  {
    PacketFits(f, payload);
    ArrivesAs(f, HDR_MIN + |payload|, payload, c, pad);
  }

  lemma ReadsParse(b: Octets, f: Fields, total: Half)
    requires Reads(b, f, total)
    ensures var h := Parse(b);
      h.version == 4 && h.hlen == HDR_MIN && h.total == total && !h.fragment && h.proto == f.proto && h.src == f.src && h.dst == f.dst
  {
    Whole(Get16(b, 6));
  }

  lemma Whole(w: Half)
    requires w == 0
    ensures !Fragment(w)
  {
  }

  lemma InputIs(c: Chain, h: Head, locals: seq<Word>)
    requires c != [] && HDR_MIN <= Walked(c) && |c[0].bytes| >= HDR_MIN && Parse(c[0].bytes) == h
    ensures Input(c, locals) == Judge(c, h, locals)
  {
  }

  lemma InputDelivers(c: Chain, h: Head, locals: seq<Word>)
    requires c != [] && |c[0].bytes| >= HDR_MIN && Parse(c[0].bytes) == h
    requires h.version == 4 && HDR_MIN <= h.hlen <= |c[0].bytes| && h.hlen <= h.total <= Walked(c)
    requires Cksum(c[0].bytes[..h.hlen]) == 0 && !h.fragment && h.dst in locals
    ensures Input(c, locals) == Deliver(h.proto, h.src, h.dst, h.hlen)
  {
  }

  /** A packet is delivered exactly if its first buffer holds a whole version-4 header that verifies, its
      total length lies between that header and what arrived, it is no fragment, and it is for us. */
  lemma DeliveredIff(c: Chain, locals: seq<Word>)
    requires c != []
    ensures Input(c, locals).Deliver? <==>
      var b := c[0].bytes;
      && |b| >= HDR_MIN && b[0] / 16 == 4 && HDR_MIN <= b[0] % 16 * 4 <= |b|
      && b[0] % 16 * 4 <= Get16(b, 2) <= Walked(c)
      && WordSum(b[..b[0] % 16 * 4]) > 0 && WordSum(b[..b[0] % 16 * 4]) % 0xFFFF == 0
      && Get16(b, 6) % 0x4000 == 0
      && Get32(b, 16) in locals
  {
    var b := c[0].bytes;
    if |b| >= HDR_MIN {
      WholeIff(Get16(b, 6));
      if b[0] % 16 * 4 <= |b| { Multiple(WordSum(b[..b[0] % 16 * 4])); }
    }
  }

  /** Neither more-fragments nor an offset: the low fourteen bits are clear. */
  lemma WholeIff(w: Half)
    ensures !Fragment(w) <==> w % 0x4000 == 0
  {
  }

  /** The first buffer begins with a whole version-4 header, and the lengths agree. */
  predicate Sized(c: Chain)
    requires c != []
  {
    var b := c[0].bytes;
    && 20 <= Walked(c) && 20 <= |b| && b[0] / 16 == 4 && 20 <= b[0] % 16 * 4 <= |b| && b[0] % 16 * 4 <= Get16(b, 2) <= Walked(c)
  }

  /** The header of a sized packet verifies. */
  predicate Sound(c: Chain)
    requires c != []
  {
    Sized(c) && var h := c[0].bytes[..c[0].bytes[0] % 16 * 4]; WordSum(h) > 0 && WordSum(h) % 0xFFFF == 0
  }

  /** Which check drops a packet: no whole header, a header that is not one, lengths that disagree, a checksum, a
      fragment, or an address that is not ours, in this order. */
  lemma DroppedBy(c: Chain, locals: seq<Word>)
    requires c != []
    ensures var b := c[0].bytes;
      && (Input(c, locals) == HdrErr <==> 20 <= Walked(c) && 20 <= |b| && !(b[0] / 16 == 4 && 20 <= b[0] % 16 * 4 <= |b|))
      && (Input(c, locals) == BadLen <==> !Sized(c) && Input(c, locals) != HdrErr)
      && (Input(c, locals) == BadCksum <==> Sized(c) && !Sound(c))
      && (Input(c, locals) == FragDrop <==> Sound(c) && Get16(b, 6) % 0x4000 != 0)
      && (Input(c, locals) == InAddrErr <==> Sound(c) && Get16(b, 6) % 0x4000 == 0 && Get32(b, 16) !in locals)
  {
    var b := c[0].bytes;
    if |b| >= 20 {
      WholeIff(Get16(b, 6));
      if b[0] % 16 * 4 <= |b| { Multiple(WordSum(b[..b[0] % 16 * 4])); }
    }
  }

  lemma BadSumDrops(c: Chain, locals: seq<Word>)
    requires c != [] && |c[0].bytes| >= HDR_MIN && c[0].bytes[0] == 0x45 && Cksum(c[0].bytes[..HDR_MIN]) != 0
    ensures !Input(c, locals).Deliver?
  {
  }

  /** What a tail trim of `pad` leaves of a packet that ends in it. */
  lemma PadTrimmed(c: Chain, packet: Octets, pad: Octets)
    requires c != [] && Flat(c) == packet + pad
    ensures Flat(TrimTail(c, |pad|).0) == packet <==> |pad| <= |c[|c| - 1].bytes|
  {
    TrimTailFlat(c, |pad|);
    if |pad| <= |c[|c| - 1].bytes| {
      assert (packet + pad)[..|packet|] == packet;
    } else {
      assert |Flat(c)| != |packet|;
    }
  }

  /** Whatever was sent, however it is split over buffers behind a contiguous header, and whatever the
      link padded it with, it is delivered with its own addresses, protocol and payload ... */
  lemma RoundTrip(f: Fields, payload: Octets, c: Chain, pad: Octets, locals: seq<Word>)
    requires HDR_MIN + |payload| + |pad| < 0x1_0000 && f.dst in locals
    requires c != [] && Flat(c) == Packet(f, payload) + pad && |c[0].bytes| >= HDR_MIN
    ensures Input(c, locals) == Deliver(f.proto, f.src, f.dst, HDR_MIN)
    // ... without the padding exactly when the last buffer holds all of it.
    ensures Flat(Trimmed(c)) == Packet(f, payload) <==> |pad| <= |c[|c| - 1].bytes|
  {
    Arrives(f, payload, c, pad);
    ReadsParse(c[0].bytes, f, HDR_MIN + |payload|);
    InputDelivers(c, Parse(c[0].bytes), locals);
    PadTrimmed(c, Packet(f, payload), pad);
  }

  /** Two forms of the same one's complement word. */
  predicate SameWord(v: Half, w: Half) {
    v == w || (v == 0xFFFF && w == 0) || (v == 0 && w == 0xFFFF)
  }

  lemma AlteredHeader(h: Octets, at: nat, v: Half)
    requires |h| == HDR_MIN && h[0] == 0x45 && Cksum(h) == 0 && 2 <= at < HDR_MIN && !Odd(at)
    ensures var g := Overlay(h, at, Put16(v)); g[0] == 0x45 && (SameWord(v, Get16(h, at)) || Cksum(g) != 0)
  {
    OnlyStoredVerifies(h, at, v);
  }

  lemma OverlayFront(h: Octets, payload: Octets, at: nat, patch: Octets)
    requires at + |patch| <= |h|
    ensures Overlay(h + payload, at, patch) == Overlay(h, at, patch) + payload
  {
  }

  lemma FrontDrops(c: Chain, g: Octets, payload: Octets, locals: seq<Word>)
    requires c != [] && |c[0].bytes| >= HDR_MIN == |g| && Flat(c) == g + payload && g[0] == 0x45 && Cksum(g) != 0
    ensures !Input(c, locals).Deliver?
  {
    FirstHolds(c, g, payload);
    assert c[0].bytes[0] == c[0].bytes[..HDR_MIN][0];
    BadSumDrops(c, locals);
  }

  lemma AlteredDrops(f: Fields, total: Half, payload: Octets, c: Chain, at: nat, v: Half, locals: seq<Word>)
    requires 2 <= at < HDR_MIN && !Odd(at) && c != [] && |c[0].bytes| >= HDR_MIN
    requires |Header(f, total)| == HDR_MIN && Flat(c) == Overlay(Header(f, total) + payload, at, Put16(v))
    requires !SameWord(v, Get16(Header(f, total) + payload, at))
    ensures !Input(c, locals).Deliver?
  {
    var h := Header(f, total);
    HeaderFields(f, total);
    assert Get16(h + payload, at) == Get16(h, at);
    AlteredHeader(h, at, v);
    OverlayFront(h, payload, at, Put16(v));
    FrontDrops(c, Overlay(h, at, Put16(v)), payload, locals);
  }

  /** Any one header word altered on the way, behind the version word, is caught, unless it was turned
      from one form of zero into the other. */
  lemma AlteredIsDropped(f: Fields, payload: Octets, c: Chain, at: nat, v: Half, locals: seq<Word>)
    requires 2 <= at < HDR_MIN && !Odd(at) && c != [] && |c[0].bytes| >= HDR_MIN
    requires Flat(c) == Overlay(Packet(f, payload), at, Put16(v))
    requires !SameWord(v, Get16(Packet(f, payload), at))
    ensures !Input(c, locals).Deliver?
  {
    HeaderFields(f, (HDR_MIN + |payload|) % 0x1_0000);
    AlteredDrops(f, (HDR_MIN + |payload|) % 0x1_0000, payload, c, at, v, locals);
  }
}
