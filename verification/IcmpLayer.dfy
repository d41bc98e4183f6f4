/** `nsficmp_input` and `nsficmp_send_error` on packet buffers: the reply is made in the request's own
    buffer, the error in a fresh one. */
module IcmpLayer {
  import opened Bytes
  import opened Chains
  import opened Pbufs
  import opened Checksum
  import opened IpPackets
  import opened IcmpPackets
  import opened IpLayer
  import opened Routes

  /** What becomes of an ICMP message from `src` to `dst`: no route, or the packet under the current
      identification on the best route. */
  ghost predicate Goes(stack: Stack, src: Word, dst: Word, message: Octets, sent: Sent, best: nat, packet: Octets)
    reads stack, stack.table
  {
    if forall j :: 0 <= j < |stack.table.routes| ==> !Matches(stack.table.routes[j], dst) then sent == NoRoute
    else (
      && Best(stack.table.routes, dst, best) && sent == Sent(HopOf(stack.table.routes[best], dst))
      && packet == Packet(Fields(stack.ipId, TTL_DEFAULT, PROTO_ICMP, src, dst), message))
  }

  // ---- echo -----------------------------------------------------------------------------------------------

  /** The packet is a header of some length, a message, and what lies behind it. */
  ghost predicate Framed(s: Octets, front: Octets, msg: Octets, rest: Octets) {
    s == front + (msg + rest)
  }

  /** The checksum over the message behind the IP header. */
  method SumMessage(b: Pbuf, hlen: nat, n: nat, ghost front: Octets, ghost msg: Octets, ghost rest: Octets, ghost nodes: seq<Pbuf>, ghost c: Chain)
    returns (ck: Half)
    requires Views(nodes, c) && nodes[0] == b && Framed(Flat(c), front, msg, rest) && |front| == hlen && |msg| == n <= 0xFFFF
    ensures ck == Cksum(msg)
  {
    ck := InCksum(b, hlen, n, nodes, c);
    assert Range(Flat(c), hlen, n) == msg;
  }

  lemma OverlayInside(s: Octets, t: Octets, off: nat, at: nat, patch: Octets, front: Octets, msg: Octets, rest: Octets)
    requires Framed(s, front, msg, rest) && at + |patch| <= |msg| && off == |front| + at
    requires off + |patch| <= |s| && t == Overlay(s, off, patch)
    ensures Framed(t, front, Overlay(msg, at, patch), rest)
  {
  }

  lemma PokeFlat(c: Chain, at: nat, patch: Octets)
    requires c != [] && at + |patch| <= |c[0].bytes|
    ensures Flat(c[0 := Seg(Overlay(c[0].bytes, at, patch), c[0].room)]) == Overlay(Flat(c), at, patch)
  {
    assert c[0 := Seg(Overlay(c[0].bytes, at, patch), c[0].room)][1..] == c[1..];
    OverlayFront(c[0].bytes, Flat(c[1..]), at, patch);
  }

  method PokePacket(b: Pbuf, at: nat, patch: Octets, ghost nodes: seq<Pbuf>, ghost c: Chain) returns (ghost d: Chain)
    requires Views(nodes, c) && nodes[0] == b && at + |patch| <= |c[0].bytes|
    modifies b`seg, b.area
    ensures Views(nodes, d) && |Flat(c)| >= at + |patch| && Flat(d) == Overlay(Flat(c), at, patch) && |d[0].bytes| == |c[0].bytes|
  {
    d := PokeHead(b, at, patch, nodes, c);
    PokeFlat(c, at, patch);
  }

  /** Write part of the message behind the IP header. */
  method PokeMessage(b: Pbuf, hlen: nat, at: nat, patch: Octets, ghost front: Octets, ghost msg: Octets, ghost rest: Octets,
                     ghost nodes: seq<Pbuf>, ghost c: Chain) returns (ghost d: Chain)
    requires Views(nodes, c) && nodes[0] == b && Framed(Flat(c), front, msg, rest) && |front| == hlen
    requires at + |patch| <= |msg| && hlen + at + |patch| <= |c[0].bytes|
    modifies b`seg, b.area
    ensures Views(nodes, d) && Framed(Flat(d), front, Overlay(msg, at, patch), rest) && |d[0].bytes| == |c[0].bytes|
  {
    d := PokePacket(b, hlen + at, patch, nodes, c);
    OverlayInside(Flat(c), Flat(d), hlen + at, at, patch, front, msg, rest);
  }

  /** Turn the request behind the IP header into its reply. */
  method ReplyInPlace(b: Pbuf, hlen: nat, n: nat, ghost front: Octets, ghost msg: Octets, ghost rest: Octets,
                      ghost nodes: seq<Pbuf>, ghost c: Chain) returns (ghost d: Chain)
    requires Views(nodes, c) && nodes[0] == b && Framed(Flat(c), front, msg, rest) && |front| == hlen
    requires 4 <= |msg| == n <= 0xFFFF && hlen + 4 <= |c[0].bytes|
    modifies b`seg, b.area
    ensures Views(nodes, d) && Framed(Flat(d), front, EchoReply(msg), rest) && |d[0].bytes| == |c[0].bytes|
  {
    ghost var e, z;
    e := PokeMessage(b, hlen, 0, [ECHO_REPLY], front, msg, rest, nodes, c);
    ghost var typed := Overlay(msg, 0, [ECHO_REPLY]);
    z := PokeMessage(b, hlen, 2, [0, 0], front, typed, rest, nodes, e);
    ghost var zeroed := Overlay(typed, 2, [0, 0]);
    var ck := SumMessage(b, hlen, n, front, zeroed, rest, nodes, z);
    d := PokeMessage(b, hlen, 2, Put16(ck), front, zeroed, rest, nodes, z);
  }

  /** Take the IP header off the front of the reply. */
  method StripHeader(b: Pbuf, hlen: nat, ghost front: Octets, ghost tail: Octets, ghost nodes: seq<Pbuf>, ghost c: Chain)
    returns (ghost d: Chain)
    requires Counts(nodes, c) && nodes[0] == b && Flat(c) == front + tail && |front| == hlen <= |c[0].bytes|
    modifies b`data, b`len, b`size, b`chainlen, b`seg
    ensures Counts(nodes, d) && Flat(d) == tail && b.data == old(b.data) + hlen
  {
    var ok;
    ok, d := TrimHead(b, hlen, nodes, c);
    assert (front + tail)[hlen..] == tail;
  }

  method MakeReply(b: Pbuf, hlen: nat, n: nat, ghost front: Octets, ghost msg: Octets, ghost rest: Octets,
                   ghost nodes: seq<Pbuf>, ghost c: Chain) returns (ghost d: Chain)
    requires Counts(nodes, c) && nodes[0] == b && Framed(Flat(c), front, msg, rest) && |front| == hlen
    requires 4 <= |msg| == n <= 0xFFFF && hlen + 4 <= |c[0].bytes|
    modifies b`data, b`len, b`size, b`chainlen, b`seg, b.area
    ensures Counts(nodes, d) && Flat(d) == EchoReply(msg) + rest && hlen <= b.data
  {
    ghost var e;
    e := ReplyInPlace(b, hlen, n, front, msg, rest, nodes, c);
    assert |Flat(e)| == |Flat(c)|;
    d := StripHeader(b, hlen, front, EchoReply(msg) + rest, nodes, e);
  }

  method ReadKind(b: Pbuf, hlen: nat, n: nat, ghost front: Octets, ghost msg: Octets, ghost rest: Octets,
                  ghost nodes: seq<Pbuf>, ghost c: Chain) returns (kind: Kind)
    requires Views(nodes, c) && nodes[0] == b && Framed(Flat(c), front, msg, rest) && |front| == hlen
    requires |msg| == n <= 0xFFFF && (n >= 4 ==> hlen + 4 <= |c[0].bytes|)
    ensures kind == Classify(msg)
  {
    if n < 4 {
      return Short;
    }
    var ck := SumMessage(b, hlen, n, front, msg, rest, nodes, c);
    if ck != 0 {
      return BadSum;
    }
    assert b.Ok() && b.seg == c[0];
    var kindByte, code := b.area[b.data + hlen], b.area[b.data + hlen + 1];
    assert kindByte == Flat(c)[hlen] == msg[0] && code == Flat(c)[hlen + 1] == msg[1];
    kind := if kindByte != ECHO_REQUEST || code != 0 then Other else Echo;
  }

  datatype Reaction = Ignored(kind: Kind) | Replied(sent: Sent)

  /** The message a packet carries: from behind its header, options and all, to its total length. */
  function MessageOf(s: Octets, hlen: nat, total: nat): (m: Octets)
    requires hlen <= total <= |s|
    ensures |m| == total - hlen
  {
    s[hlen..total]
  }

  lemma FramedAs(c: Chain, hlen: nat, total: nat)
    requires c != [] && hlen <= total <= |Flat(c)|
    ensures Framed(Flat(c), Flat(c)[..hlen], MessageOf(Flat(c), hlen, total), Flat(c)[total..])
  {
  }

  /** `nsficmp_input`: lengths and addresses are read from the header of the packet itself, whose reading
      `h` is. An echo request is answered with the addresses swapped behind a fresh header; what lies
      behind the total length travels with the reply. The type and code, like the header, are read where
      the first buffer's octets are. */
  method IcmpInput(stack: Stack, b: Pbuf, ghost h: Head, ghost nodes: seq<Pbuf>, ghost c: Chain)
    returns (r: Reaction, ghost best: nat, ghost packet: Octets)
    requires Counts(nodes, c) && nodes[0] == b && |c[0].bytes| >= HDR_MIN && h == Parse(c[0].bytes)
    requires HDR_MIN <= h.hlen <= h.total <= |Flat(c)| && (h.hlen + 4 <= h.total ==> h.hlen + 4 <= |c[0].bytes|)
    modifies stack`ipId, b`data, b`len, b`size, b`chainlen, b`seg, b.area
    ensures var msg := MessageOf(Flat(c), h.hlen, h.total);
      if Classify(msg) != Echo then r == Ignored(Classify(msg)) && stack.ipId == old(stack.ipId)
      else |msg| >= 4 && r.Replied? && Goes(stack, h.dst, h.src, EchoReply(msg) + Flat(c)[h.total..], r.sent, best, packet)
    ensures r.Replied? <==> Asks(MessageOf(Flat(c), h.hlen, h.total))
  {
    ClassifiedIff(MessageOf(Flat(c), h.hlen, h.total));
    best, packet := 0, [];
    assert b.Ok() && b.seg == c[0];
    var head := ReadHead(b);
    var hlen, n := head.hlen, head.total - head.hlen;
    FramedAs(c, hlen, head.total);
    ghost var front, msg, rest := Flat(c)[..hlen], MessageOf(Flat(c), hlen, head.total), Flat(c)[head.total..];
    var kind := ReadKind(b, hlen, n, front, msg, rest, nodes, c);
    if kind != Echo {
      return Ignored(kind), best, packet;
    }
    ghost var e, d;
    e := MakeReply(b, hlen, n, front, msg, rest, nodes, c);
    var sent;
    sent, best, d := stack.Output(b, head.dst, head.src, PROTO_ICMP, TTL_DEFAULT, nodes, e);
    r, packet := Replied(sent), Flat(d);
  }

  // ---- errors ---------------------------------------------------------------------------------------------

  datatype ErrorSent = Quiet | NoBuffer | Error(sent: Sent)

  method IsSuppressed(quote: array<Byte>, n: nat) returns (quiet: bool)
    requires n <= quote.Length
    ensures quiet == Suppressed(quote[..n])
  {
    if n < HDR_MIN || quote[0] / 16 != 4 {
      return true;
    }
    var ihl := quote[0] % 16 * 4;
    if ihl < HDR_MIN || n < ihl {
      return true;
    }
    var src, dst := Get32(quote[..n], 12), Get32(quote[..n], 16);
    quiet := || Get16(quote[..n], 6) % 0x2000 != 0
             || src == 0 || Broadcast(src) || Multicast(src)
             || Broadcast(dst) || Multicast(dst)
             || (quote[9] == PROTO_ICMP && n > ihl && ErrorType(quote[ihl]));
  }

  /** Append to a packet of one buffer that has the room. */
  method AppendOne(b: Pbuf, src: array<Byte>, n: nat, ghost c: Seg) returns (ghost d: Seg)
    requires Counts([b], [c]) && n <= c.room && n <= src.Length && n < 0x1_0000 && src != b.area
    modifies b`len, b`seg, b`chainlen, b.area
    ensures Counts([b], [d]) && d == Seg(c.bytes + src[..n], c.room - n) && src[..] == old(src[..])
  {
    FlatOne(c);
    FillFits(c, src[..n]);
    CopyInNothing([]);
    ghost var e;
    var total;
    total, e := CopyInPlace(b, src, n, [b], [c]);
    d := e[0];
    assert [c][1..] == [] && e == [d];
  }

  /** Store the checksum of a message that fills its packet. */
  method SealError(b: Pbuf, n: nat, ghost kind: Byte, ghost code: Byte, ghost quoted: Octets, ghost c: Seg) returns (ghost d: Seg)
    requires Counts([b], [c]) && c.bytes == ErrorBlank(kind, code, quoted) && n == |c.bytes| <= 0xFFFF
    modifies b`seg, b.area
    ensures Counts([b], [d]) && d.bytes == ErrorMessage(kind, code, quoted)
  {
    FlatOne(c);
    assert [] + (c.bytes + []) == c.bytes;
    var ck := SumMessage(b, 0, n, [], c.bytes, [], [b], [c]);
    ghost var e;
    e := PokeHead(b, 2, Put16(ck), [b], [c]);
    d := e[0];
    assert e == [d];
    FlatOne(d);
  }

  method ErrorHead(kind: Byte, code: Byte) returns (head: array<Byte>)
    ensures fresh(head) && head[..] == [kind, code, 0, 0, 0, 0, 0, 0]
  {
    head := new Byte[8](i => 0);
    head[0], head[1] := kind, code;
  }

  /** A fresh buffer that holds the head of the message, with room for the rest. */
  method ErrorStart(kind: Byte, code: Byte, n: nat) returns (b: Pbuf, ghost c: Seg)
    requires n <= MAX_QUOTE
    ensures fresh(b) && fresh(b.area) && Counts([b], [c]) && b.data == HEADROOM
    ensures c.bytes == [kind, code, 0, 0, 0, 0, 0, 0] && n <= c.room
  {
    var head := ErrorHead(kind, code);
    b := new Pbuf(8 + n);
    c := b.seg;
    FlatOne(c);
    c := AppendOne(b, head, 8, c);
    assert head[..8] == head[..];
  }

  /** A fresh buffer that holds the error message. */
  method MakeError(kind: Byte, code: Byte, quote: array<Byte>, n: nat) returns (b: Pbuf, ghost d: Seg)
    requires n <= quote.Length && n <= MAX_QUOTE
    ensures fresh(b) && fresh(b.area) && Counts([b], [d]) && b.data == HEADROOM
    ensures d.bytes == ErrorMessage(kind, code, quote[..n])
  {
    ghost var c;
    b, c := ErrorStart(kind, code, n);
    c := AppendOne(b, quote, n, c);
    d := SealError(b, 8 + n, kind, code, quote[..n], c);
  }

  /** What becomes of an error about the packet `s`. */
  ghost predicate Errs(stack: Stack, s: Octets, kind: Byte, code: Byte, avail: bool, r: ErrorSent, best: nat, packet: Octets)
    reads stack, stack.table
  {
    var got := Captured(s);
    if Suppressed(got) then r == Quiet
    else if !avail then r == NoBuffer
    else r.Error? && Goes(stack, Get32(got, 16), Get32(got, 12), ErrorMessage(kind, code, Quoted(got)), r.sent, best, packet)
  }

  /** `nsficmp_send_error`: unless a rule suppresses it, an error about `orig`, sent from the address it was
      sent to back to its source, quoting it. `avail` says whether the pool has a buffer. */
  method SendError(stack: Stack, orig: Pbuf, kind: Byte, code: Byte, avail: bool, ghost nodes: seq<Pbuf>, ghost c: Chain)
    returns (r: ErrorSent, ghost best: nat, ghost packet: Octets)
    requires Views(nodes, c) && nodes[0] == orig
    modifies stack`ipId
    ensures Errs(stack, Flat(c), kind, code, avail, r, best, packet)
  {
    var quote := new Byte[MAX_QUOTE];
    var n := CopyOutOf(orig, quote, MAX_QUOTE, nodes, c);
    ghost var got := Captured(Flat(c));
    assert quote[..n] == got;
    var quiet := IsSuppressed(quote, n);
    if quiet {
      return Quiet, 0, [];
    }
    if !avail {
      return NoBuffer, 0, [];
    }
    var m := QuoteLen(quote, n);
    var src, dst := Get32(quote[..n], 12), Get32(quote[..n], 16);
    var b;
    ghost var d;
    b, d := MakeError(kind, code, quote, m);
    assert quote[..m] == Quoted(got);
    FlatOne(d);
    var sent;
    ghost var e;
    sent, best, e := stack.Output(b, dst, src, PROTO_ICMP, TTL_DEFAULT, [b], [d]);
    r, packet := Error(sent), Flat(e);
  }

  method QuoteLen(quote: array<Byte>, n: nat) returns (m: nat)
    requires HDR_MIN <= n <= quote.Length
    ensures m <= n && quote[..m] == Quoted(quote[..n])
  {
    m := Min(quote[0] % 16 * 4 + QUOTE_DATA, n);
    assert quote[..n][..m] == quote[..m];
  }

  // ---- the whole of input -----------------------------------------------------------------------------------

  const DEST_UNREACH: Byte := 3
  const UNREACH_PROTO: Byte := 2

  datatype Outcome =
    | Dropped(verdict: Verdict)
    | Icmp(reaction: Reaction)
    | Transport(proto: Byte)          // handed to the protocol's registered handler
    | NoProtocol(sent: ErrorSent)     // refused with an error, unless a rule suppresses it

  /** The octets ICMP looks at in the packet lie in its first buffer. */
  ghost predicate InFirst(c: Chain)
    requires c != []
  {
    |c[0].bytes| >= HDR_MIN ==>
      var h := Parse(c[0].bytes);
      h.hlen + 4 <= h.total ==> h.hlen + 4 <= |c[0].bytes|
  }

  lemma HeadSame(a: Octets, b: Octets)
    requires HDR_MIN <= |a| <= |b| && a == b[..|a|]
    ensures Parse(a) == Parse(b)
  {
  }

  lemma TrimmedOne(c: Chain, n: nat)
    requires |c| == 1 && n <= |c[0].bytes|
    ensures var d := TrimTail(c, n).0; |d| == 1 && d[0].bytes == c[0].bytes[..|c[0].bytes| - n] && Flat(d) == d[0].bytes && Flat(c) == c[0].bytes
  {
    assert c == [c[0]];
    FlatOne(c[0]);
    var d := TrimTail(c, n).0;
    assert d == [d[0]];
    FlatOne(d[0]);
  }

  /** Trimming cuts nothing off the front, and nothing that the total length covers. */
  lemma TrimmedFront(c: Chain, total: nat)
    requires c != [] && |c[0].bytes| >= HDR_MIN && HDR_MIN <= total == TotalOf(c) <= Walked(c)
    ensures var d := Trimmed(c);
      && d != [] && HDR_MIN <= |d[0].bytes| <= |c[0].bytes| && d[0].bytes == c[0].bytes[..|d[0].bytes|]
      && (|d[0].bytes| == |c[0].bytes| || |d[0].bytes| >= total)
      && total <= |Flat(d)| && Flat(d)[..total] == Flat(c)[..total]
  {
    var n, k := Walked(c) - total, |c| - 1;
    TrimTailFlat(c, n);
    if |c| == 1 && n <= |c[0].bytes| { TrimmedOne(c, n); }
  }

  /** What the stack makes of a delivered ICMP packet, told of the octets that arrived. */
  ghost predicate Echoes(stack: Stack, c: Chain, hlen: nat, src: Word, dst: Word, r: Reaction, best: nat, packet: Octets)
    requires c != [] && hlen <= TotalOf(c) <= |Flat(c)|
    reads stack, stack.table
  {
    var msg := MessageOf(Flat(c), hlen, TotalOf(c));
    if Classify(msg) != Echo then r == Ignored(Classify(msg))
    else (
      && |msg| >= 4 && TotalOf(c) <= |Flat(Trimmed(c))| && r.Replied?
      && Goes(stack, dst, src, EchoReply(msg) + Flat(Trimmed(c))[TotalOf(c)..], r.sent, best, packet))
  }

  /** The verdict says what the header of a delivered packet reads. */
  ghost predicate Told(c: Chain, v: Verdict) {
    && c != [] && |c[0].bytes| >= HDR_MIN && v.Deliver? && HDR_MIN <= v.hlen <= TotalOf(c) <= Walked(c)
    && var h := Parse(c[0].bytes); v == Deliver(h.proto, h.src, h.dst, h.hlen) && h.total == TotalOf(c)
  }

  lemma InputTells(c: Chain, locals: seq<Word>)
    requires c != [] && Input(c, locals).Deliver?
    ensures Told(c, Input(c, locals))
  {
    DeliveredIff(c, locals);
    InputIs(c, Parse(c[0].bytes), locals);
  }

  /** The trimmed packet, handed to ICMP. */
  method HandToIcmp(stack: Stack, b: Pbuf, ghost v: Verdict, ghost nodes: seq<Pbuf>, ghost c: Chain)
    returns (r: Reaction, ghost best: nat, ghost packet: Octets)
    requires Told(c, v) && InFirst(c) && Counts(nodes, Trimmed(c)) && nodes[0] == b
    modifies stack`ipId, b`data, b`len, b`size, b`chainlen, b`seg, b.area
    ensures Echoes(stack, c, v.hlen, v.src, v.dst, r, best, packet)
  {
    ghost var d, total, h := Trimmed(c), TotalOf(c), Parse(c[0].bytes);
    TrimmedFront(c, total);
    HeadSame(d[0].bytes, c[0].bytes);
    assert MessageOf(Flat(d), h.hlen, total) == MessageOf(Flat(c), h.hlen, total) by {
      assert Flat(d)[..total][h.hlen..] == Flat(c)[..total][h.hlen..];
    }
    r, best, packet := IcmpInput(stack, b, h, nodes, d);
  }

  method Registered(protos: seq<Byte>, proto: Byte) returns (found: bool)
    ensures found == (proto in protos)
  {
    var i := 0;
    while i < |protos|
      invariant i <= |protos| && proto !in protos[..i]
    {
      if protos[i] == proto {
        return true;
      }
      i := i + 1;
    }
    return false;
  }

  /** What a delivered packet does. */
  ghost predicate Demuxed(stack: Stack, v: Verdict, protos: seq<Byte>, avail: bool, c: Chain, o: Outcome, best: nat, packet: Octets)
    requires Told(c, v)
    reads stack, stack.table
  {
    if v.proto == PROTO_ICMP then o.Icmp? && Echoes(stack, c, v.hlen, v.src, v.dst, o.reaction, best, packet)
    else if v.proto in protos then o == Transport(v.proto)
    else o.NoProtocol? && Errs(stack, Flat(Trimmed(c)), DEST_UNREACH, UNREACH_PROTO, avail, o.sent, best, packet)
  }

  /** What one received packet does, told of its octets alone. */
  ghost predicate Handled(stack: Stack, protos: seq<Byte>, avail: bool, c: Chain, o: Outcome, best: nat, packet: Octets)
    requires c != []
    reads stack, stack.table
  {
    var v := Input(c, stack.table.locals);
    if v.Deliver? then Told(c, v) && Demuxed(stack, v, protos, avail, c, o, best, packet) else o == Dropped(v)
  }

  /** A delivered packet, trimmed, goes to ICMP, to a registered transport, or to neither. */
  method Demux(stack: Stack, b: Pbuf, v: Verdict, protos: seq<Byte>, avail: bool, ghost nodes: seq<Pbuf>, ghost c: Chain)
    returns (o: Outcome, ghost best: nat, ghost packet: Octets)
    requires Told(c, v) && InFirst(c) && Counts(nodes, Trimmed(c)) && nodes[0] == b
    modifies stack`ipId, b`data, b`len, b`size, b`chainlen, b`seg, b.area
    ensures Demuxed(stack, v, protos, avail, c, o, best, packet)
  {
    best, packet := 0, [];
    if v.proto == PROTO_ICMP {
      var r;
      r, best, packet := HandToIcmp(stack, b, v, nodes, c);
      return Icmp(r), best, packet;
    }
    var known := Registered(protos, v.proto);
    if known {
      return Transport(v.proto), best, packet;
    }
    var sent;
    sent, best, packet := SendError(stack, b, DEST_UNREACH, UNREACH_PROTO, avail, nodes, Trimmed(c));
    o := NoProtocol(sent);
  }

  /** `nsfip_input` to the end: the verdict, the padding trimmed, and the packet handed to ICMP, to a
      registered transport, or refused with an error that quotes it. */
  method Receive(stack: Stack, b: Pbuf, protos: seq<Byte>, avail: bool, ghost nodes: seq<Pbuf>, ghost c: Chain)
    returns (o: Outcome, ghost best: nat, ghost packet: Octets)
    requires Counts(nodes, c) && nodes[0] == b && InFirst(c)
    modifies stack`ipId, nodes, b.area
    ensures Handled(stack, protos, avail, c, o, best, packet)
  {
    best, packet := 0, [];
    var v;
    ghost var d;
    v, d := stack.Input(b, nodes, c);
    if !v.Deliver? {
      return Dropped(v), best, packet;
    }
    InputTells(c, stack.table.locals);
    o, best, packet := Demux(stack, b, v, protos, avail, nodes, c);
  }

  /** The answer to the message `msg`, from `src` to `dst`: no route, or a packet of a fixed header that verifies, with
      those addresses, and a message of type 0 that verifies and carries what was asked, nothing more. */
  ghost predicate Pongs(stack: Stack, src: Word, dst: Word, msg: Octets, sent: Sent, packet: Octets)
    requires |msg| >= 4
    reads stack, stack.table
  {
    if forall j :: 0 <= j < |stack.table.routes| ==> !Matches(stack.table.routes[j], dst) then sent == NoRoute
    else (
      && sent.Sent? && |packet| == 20 + |msg| && packet[0] == 0x45 && Get16(packet, 2) == 20 + |msg| && Get16(packet, 6) == 0
      && packet[8] == 64 && packet[9] == 1 && Get32(packet, 12) == src && Get32(packet, 16) == dst
      && Verifies(packet[..20]) && Answers(packet[20..], msg))
  }

  lemma BuiltReads(f: Fields, message: Octets)
    requires HDR_MIN + |message| < 0x1_0000
    ensures var p := Packet(f, message);
      && |p| == 20 + |message| && p[0] == 0x45 && Get16(p, 2) == 20 + |message| && Get16(p, 6) == 0
      && p[8] == f.ttl && p[9] == f.proto && Get32(p, 12) == f.src && Get32(p, 16) == f.dst && Verifies(p[..20]) && p[20..] == message
  {
    PacketBody(f, message);
    var p, h := Packet(f, message), Header(f, HDR_MIN + |message|);
    HeaderFields(f, HDR_MIN + |message|);
    VerifiesIff(h);
    assert p[..20] == h;
    ReadsHeader(p, f, HDR_MIN + |message|);
    assert p[8] == p[..20][8];
  }

  lemma GoesPongs(stack: Stack, src: Word, dst: Word, msg: Octets, sent: Sent, best: nat, packet: Octets)
    requires 4 <= |msg| && HDR_MIN + |msg| < 0x1_0000 && Goes(stack, src, dst, EchoReply(msg), sent, best, packet)
    ensures Pongs(stack, src, dst, msg, sent, packet)
  {
    ReplyEchoes(msg);
    BuiltReads(Fields(stack.ipId, 64, 1, src, dst), EchoReply(msg));
  }

  lemma OneTrimmed(s: Seg)
    requires |s.bytes| < 0x1_0000 && HDR_MIN <= TotalOf([s]) <= |s.bytes|
    ensures Flat([s]) == s.bytes && Walked([s]) == |s.bytes| && Flat(Trimmed([s])) == s.bytes[..TotalOf([s])]
  {
    FlatOne(s);
    TrimmedOne([s], |s.bytes| - TotalOf([s]));
  }

  /** An ICMP packet delivered in one buffer is answered exactly if the message behind its header, as far as the total
      length goes, is of type 8 and code 0 and verifies. */
  lemma AnsweredIff(stack: Stack, protos: seq<Byte>, avail: bool, s: Seg, o: Outcome, best: nat, packet: Octets)
    requires |s.bytes| < 0x1_0000 && Input([s], stack.table.locals).Deliver? && |s.bytes| >= 20 && s.bytes[9] == 1
    requires Handled(stack, protos, avail, [s], o, best, packet)
    ensures 20 <= s.bytes[0] % 16 * 4 <= Get16(s.bytes, 2) <= |s.bytes| && o.Icmp?
    ensures var msg := s.bytes[s.bytes[0] % 16 * 4..Get16(s.bytes, 2)];
      && (o.reaction.Replied? <==> |msg| >= 4 && msg[0] == 8 && msg[1] == 0 && WordSum(msg) > 0 && WordSum(msg) % 0xFFFF == 0)
      && (o.reaction.Replied? ==> Pongs(stack, Get32(s.bytes, 16), Get32(s.bytes, 12), msg, o.reaction.sent, packet))
  {
    var v := Input([s], stack.table.locals);
    InputTells([s], stack.table.locals);
    FlatOne(s);
    OneTrimmed(s);
    var msg := MessageOf(s.bytes, v.hlen, TotalOf([s]));
    ClassifiedIff(msg);
    assert Asks(msg) <==> |msg| >= 4 && msg[0] == 8 && msg[1] == 0 && WordSum(msg) > 0 && WordSum(msg) % 0xFFFF == 0;
    if o.reaction.Replied? {
      assert EchoReply(msg) + Flat(Trimmed([s]))[TotalOf([s])..] == EchoReply(msg);
      GoesPongs(stack, v.dst, v.src, msg, o.reaction.sent, best, packet);
    }
  }

  lemma PaddedReads(p: Octets, pad: Octets, msg: Octets)
    requires |p| >= 20 && p[0] == 0x45 && p[20..] == msg && Get16(p, 2) == |p|
    ensures var b := p + pad;
      && b[0] % 16 * 4 == 20 && Get16(b, 2) == |p| && b[9] == p[9] && Get32(b, 12) == Get32(p, 12) && Get32(b, 16) == Get32(p, 16)
      && b[20..|p|] == msg
  {
  }

  /** A ping that arrives in one buffer, padded as the link likes, is answered whenever its sender can be
      routed to: the packet sent is the reply to exactly what was asked, nothing more. */
  lemma PingAnswered(stack: Stack, protos: seq<Byte>, avail: bool, s: Seg, f: Fields, msg: Octets, pad: Octets,
                     o: Outcome, best: nat, packet: Octets)
    requires HDR_MIN + |msg| + |pad| < 0x1_0000 && s.bytes == Packet(f, msg) + pad && f.dst in stack.table.locals
    requires f.proto == 1 && |msg| >= 4 && msg[0] == 8 && msg[1] == 0 && WordSum(msg) > 0 && WordSum(msg) % 0xFFFF == 0
    requires Handled(stack, protos, avail, [s], o, best, packet)
    ensures o.Icmp? && o.reaction.Replied?
    ensures Pongs(stack, f.dst, f.src, msg, o.reaction.sent, packet)
  {
    OneBuffer(f, msg, s, pad, stack.table.locals);
    BuiltReads(f, msg);
    PaddedReads(Packet(f, msg), pad, msg);
    AnsweredIff(stack, protos, avail, s, o, best, packet);
  }

  /** The error about the packet `p`, from `src` to `dst`: no route, or a packet that carries a destination-unreachable
      message, protocol unreachable, which verifies and quotes the header of `p` and up to eight octets behind it. */
  ghost predicate Unreachable(stack: Stack, src: Word, dst: Word, p: Octets, sent: Sent, packet: Octets)
    reads stack, stack.table
  {
    if forall j :: 0 <= j < |stack.table.routes| ==> !Matches(stack.table.routes[j], dst) then sent == NoRoute
    else
      var quoted := p[..Min(28, |p|)];
      && sent.Sent? && |packet| == 28 + |quoted| && packet[0] == 0x45 && Get16(packet, 2) == 28 + |quoted|
      && packet[8] == 64 && packet[9] == 1 && Get32(packet, 12) == src && Get32(packet, 16) == dst
      && Verifies(packet[..20]) && Reports(packet[20..], 3, 2, quoted)
  }

  lemma GoesUnreachable(stack: Stack, src: Word, dst: Word, p: Octets, sent: Sent, best: nat, packet: Octets)
    requires Goes(stack, src, dst, ErrorMessage(3, 2, p[..Min(28, |p|)]), sent, best, packet)
    ensures Unreachable(stack, src, dst, p, sent, packet)
  {
    var quoted := p[..Min(28, |p|)];
    ErrorVerifies(3, 2, quoted);
    BuiltReads(Fields(stack.ipId, 64, 1, src, dst), ErrorMessage(3, 2, quoted));
  }

  /** What is captured of a packet of this stack's making, and what is quoted of it. */
  lemma QuotesBuilt(f: Fields, payload: Octets)
    requires HDR_MIN + |payload| < 0x1_0000
    ensures var p := Packet(f, payload); var got := Captured(p);
      |got| >= 20 && Get32(got, 12) == f.src && Get32(got, 16) == f.dst && Quoted(got) == p[..Min(28, |p|)]
  {
    BuiltReads(f, payload);
    var p := Packet(f, payload);
    var got := Captured(p);
    assert got[0] == p[0] && Get32(got, 12) == Get32(p, 12) && Get32(got, 16) == Get32(p, 16);
    assert 0x45 % 16 * 4 + 8 == 28 && got[..Min(28, |got|)] == p[..Min(28, |p|)];
  }

  /** A packet for a protocol nobody registered, delivered in one buffer, is refused: an error goes back to its source,
      unless the source is no single host, the destination is none, or the pool has no buffer. */
  lemma ProtocolRefused(stack: Stack, protos: seq<Byte>, avail: bool, s: Seg, f: Fields, payload: Octets, pad: Octets,
                        o: Outcome, best: nat, packet: Octets)
    requires HDR_MIN + |payload| + |pad| < 0x1_0000 && s.bytes == Packet(f, payload) + pad && f.dst in stack.table.locals
    requires f.proto != 1 && f.proto !in protos
    requires Handled(stack, protos, avail, [s], o, best, packet)
    ensures o.NoProtocol?
    ensures f.src == 0 || NoHost(f.src) || NoHost(f.dst) ==> o.sent == Quiet
    ensures !(f.src == 0 || NoHost(f.src) || NoHost(f.dst)) ==>
      if avail then o.sent.Error? && Unreachable(stack, f.dst, f.src, Packet(f, payload), o.sent.sent, packet) else o.sent == NoBuffer
  {
    OneBuffer(f, payload, s, pad, stack.table.locals);
    BuiltReads(f, payload);
    PaddedReads(Packet(f, payload), pad, payload);
    OneTrimmed(s);
    var p := Packet(f, payload);
    assert Flat(Trimmed([s])) == p;
    SuppressedIff(f, payload, []);
    assert p + [] == p;
    QuotesBuilt(f, payload);
    if o.sent.Error? { GoesUnreachable(stack, f.dst, f.src, p, o.sent.sent, best, packet); }
  }
}
