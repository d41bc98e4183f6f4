/** `nsfip_output` and `nsfip_input` on packet buffers in place, over the routing table. */
module IpLayer {
  import opened Bytes
  import opened Chains
  import opened Pbufs
  import opened Checksum
  import opened IpPackets
  import opened Routes

  datatype Sent = NoRoute | NoRoom | Sent(hop: Hop)

  /** Write the next field of a header whose front is already there. */
  method PutNext(b: Pbuf, at: nat, patch: Octets, ghost front: Octets, ghost rest: Octets)
    requires b.Ok() && at + |patch| <= |b.seg.bytes| && b.seg.bytes[..at] == front && |rest| + HDR_MIN == |b.seg.bytes| && at + |patch| <= HDR_MIN
    requires b.seg.bytes[HDR_MIN..] == rest
    modifies b`seg, b.area
    ensures b.Ok() && |b.seg.bytes| == old(|b.seg.bytes|) && b.seg.room == old(b.seg.room)
    ensures b.seg.bytes[..at + |patch|] == front + patch && b.seg.bytes[HDR_MIN..] == rest
  {
    ghost var was := b.seg.bytes;
    b.Poke(at, patch);
    assert b.seg.bytes[..at] == was[..at];
    assert b.seg.bytes[HDR_MIN..] == was[HDR_MIN..];
  }

  method PutFront(b: Pbuf, total: Half, id: Half, ghost rest: Octets) returns (ghost front: Octets)
    requires b.Ok() && |rest| + HDR_MIN == |b.seg.bytes| && b.seg.bytes[HDR_MIN..] == rest
    modifies b`seg, b.area
    ensures b.Ok() && |b.seg.bytes| == old(|b.seg.bytes|) && b.seg.room == old(b.seg.room)
    ensures front == [0x45, 0] + Put16(total) + Put16(id) + [0, 0] && |front| == 8
    ensures b.seg.bytes[..8] == front && b.seg.bytes[HDR_MIN..] == rest
  {
    PutNext(b, 0, [0x45, 0], [], rest);
    PutNext(b, 2, Put16(total), [0x45, 0], rest);
    PutNext(b, 4, Put16(id), [0x45, 0] + Put16(total), rest);
    PutNext(b, 6, [0, 0], [0x45, 0] + Put16(total) + Put16(id), rest);
    front := [0x45, 0] + Put16(total) + Put16(id) + [0, 0];
  }

  method PutBack(b: Pbuf, f: Fields, ghost front: Octets, ghost rest: Octets)
    requires b.Ok() && |rest| + HDR_MIN == |b.seg.bytes| && b.seg.bytes[HDR_MIN..] == rest && |front| == 8 && b.seg.bytes[..8] == front
    modifies b`seg, b.area
    ensures b.Ok() && |b.seg.bytes| == old(|b.seg.bytes|) && b.seg.room == old(b.seg.room)
    ensures b.seg.bytes[..HDR_MIN] == front + [f.ttl, f.proto] + [0, 0] + Put32(f.src) + Put32(f.dst) && b.seg.bytes[HDR_MIN..] == rest
  {
    PutNext(b, 8, [f.ttl, f.proto], front, rest);
    PutNext(b, 10, [0, 0], front + [f.ttl, f.proto], rest);
    PutNext(b, 12, Put32(f.src), front + [f.ttl, f.proto] + [0, 0], rest);
    PutNext(b, 16, Put32(f.dst), front + [f.ttl, f.proto] + [0, 0] + Put32(f.src), rest);
  }

  /** Write the header with its checksum field zero. */
  method PutHeader(b: Pbuf, f: Fields, total: Half, ghost rest: Octets)
    requires b.Ok() && |rest| + HDR_MIN == |b.seg.bytes| && b.seg.bytes[HDR_MIN..] == rest
    modifies b`seg, b.area
    ensures b.Ok() && b.seg == Seg(Blank(f, total) + rest, old(b.seg.room))
  {
    ghost var front;
    front := PutFront(b, total, f.id, rest);
    PutBack(b, f, front, rest);
    assert b.seg.bytes == b.seg.bytes[..HDR_MIN] + b.seg.bytes[HDR_MIN..];
  }

  /** Write part of the head buffer of a packet. */
  method PokeHead(b: Pbuf, at: nat, patch: Octets, ghost nodes: seq<Pbuf>, ghost c: Chain) returns (ghost d: Chain)
    requires Views(nodes, c) && nodes[0] == b && at + |patch| <= |c[0].bytes|
    modifies b`seg, b.area
    ensures d == c[0 := Seg(Overlay(c[0].bytes, at, patch), c[0].room)] && Views(nodes, d)
  {
    b.Poke(at, patch);
    assert Links(nodes) && Except(nodes, c, 0);
    ViewsBack(nodes, c, 0);
    d := c[0 := b.seg];
  }

  method HeadHeader(b: Pbuf, f: Fields, total: Half, ghost rest: Octets, ghost nodes: seq<Pbuf>, ghost c: Chain) returns (ghost d: Chain)
    requires Views(nodes, c) && nodes[0] == b && |c[0].bytes| == HDR_MIN + |rest| && c[0].bytes[HDR_MIN..] == rest
    modifies b`seg, b.area
    ensures d == c[0 := Seg(Blank(f, total) + rest, c[0].room)] && Views(nodes, d)
  {
    PutHeader(b, f, total, rest);
    assert Links(nodes) && Except(nodes, c, 0);
    ViewsBack(nodes, c, 0);
    d := c[0 := b.seg];
  }

  lemma BlankSealed(f: Fields, total: Half, rest: Octets)
    ensures Overlay(Blank(f, total) + rest, 10, Put16(Cksum(Blank(f, total)))) == Header(f, total) + rest
  {
    BlankFields(f, total);
    OverlayFront(Blank(f, total), rest, 10, Put16(Cksum(Blank(f, total))));
  }

  lemma FlatHead(c: Chain, s: Seg, h: Octets, rest: Octets)
    requires c != [] && s.bytes == h + rest
    ensures Flat(c[0 := s]) == h + (rest + Flat(c[1..]))
  {
    assert c[0 := s][1..] == c[1..];
    Assoc(h, rest, Flat(c[1..]));
  }

  /** The checksum over the first octets of a packet. */
  method SumFront(b: Pbuf, ghost h: Octets, ghost rest: Octets, ghost nodes: seq<Pbuf>, ghost c: Chain) returns (ck: Half)
    requires Views(nodes, c) && nodes[0] == b && |h| == HDR_MIN && Flat(c) == h + rest
    ensures ck == Cksum(h)
  {
    ck := InCksum(b, 0, HDR_MIN, nodes, c);
    assert Range(h + rest, 0, HDR_MIN) == h;
  }

  /** Write the header of a packet whose first buffer has been opened for one, its checksum still to come. */
  method SealBlank(b: Pbuf, f: Fields, total: Half, ghost rest: Octets, ghost nodes: seq<Pbuf>, ghost c: Chain) returns (ck: Half, ghost e: Chain)
    requires Views(nodes, c) && nodes[0] == b && |c[0].bytes| == HDR_MIN + |rest| && c[0].bytes[HDR_MIN..] == rest
    modifies b`seg, b.area
    ensures e == c[0 := Seg(Blank(f, total) + rest, c[0].room)] && Views(nodes, e) && ck == Cksum(Blank(f, total))
  {
    e := HeadHeader(b, f, total, rest, nodes, c);
    BlankFields(f, total);
    FlatHead(c, e[0], Blank(f, total), rest);
    ck := SumFront(b, Blank(f, total), rest + Flat(c[1..]), nodes, e);
  }

  /** Fill in the header of a packet whose first buffer has been opened for one. */
  method Seal(b: Pbuf, f: Fields, total: Half, ghost rest: Octets, ghost nodes: seq<Pbuf>, ghost c: Chain) returns (ghost d: Chain)
    requires Views(nodes, c) && nodes[0] == b && |c[0].bytes| == HDR_MIN + |rest| && c[0].bytes[HDR_MIN..] == rest
    modifies b`seg, b.area
    ensures d == c[0 := Seg(Header(f, total) + rest, c[0].room)] && Views(nodes, d)
    ensures Flat(d) == Header(f, total) + (rest + Flat(c[1..]))
  {
    var ck;
    ghost var e;
    ck, e := SealBlank(b, f, total, rest, nodes, c);
    BlankFields(f, total);
    BlankSealed(f, total, rest);
    d := PokeHead(b, 10, Put16(ck), nodes, e);
    FlatHead(c, d[0], Header(f, total), rest);
  }

  /** The checksum over a header of any length inside the first buffer. */
  method SumHeader(b: Pbuf, hlen: nat, ghost nodes: seq<Pbuf>, ghost c: Chain) returns (ck: Half)
    requires Views(nodes, c) && nodes[0] == b && hlen <= |c[0].bytes|
    ensures ck == Cksum(c[0].bytes[..hlen])
  {
    ck := InCksum(b, 0, hlen, nodes, c);
    assert Range(Flat(c), 0, hlen) == c[0].bytes[..hlen];
  }

  method Read16(b: Pbuf, off: nat) returns (v: Half)
    requires b.Ok() && off + 2 <= |b.seg.bytes|
    ensures v == Get16(b.seg.bytes, off)
  {
    v := b.area[b.data + off] as int * 0x100 + b.area[b.data + off + 1] as int;
  }

  method Read32(b: Pbuf, off: nat) returns (v: Word)
    requires b.Ok() && off + 4 <= |b.seg.bytes|
    ensures v == Get32(b.seg.bytes, off)
  {
    var high := Read16(b, off);
    var low := Read16(b, off + 2);
    v := high as int * 0x1_0000 + low as int;
  }

  method ReadHead(b: Pbuf) returns (h: Head)
    requires b.Ok() && |b.seg.bytes| >= HDR_MIN
    ensures h == Parse(b.seg.bytes)
  {
    var total := Read16(b, 2);
    var frag := Read16(b, 6);
    var src := Read32(b, 12);
    var dst := Read32(b, 16);
    h := Head(b.area[b.data] / 16, b.area[b.data] % 16 * 4, total, Fragment(frag), b.area[b.data + 9], src, dst);
  }

  method DropPadding(b: Pbuf, blen: nat, total: Half, ghost nodes: seq<Pbuf>, ghost c: Chain) returns (ghost d: Chain)
    requires Counts(nodes, c) && nodes[0] == b && blen == Walked(c) && total <= blen
    modifies nodes
    ensures Counts(nodes, d) && d == TrimTail(c, Walked(c) - total).0
  {
    d := c;
    if blen > total {
      var ok;
      ok, d := TrimTailInPlace(b, blen - total, nodes, c);
    } else {
      TrimNothing(c, Walked(c) - total);
    }
  }

  method Strip(b: Pbuf, blen: nat, total: Half, ghost nodes: seq<Pbuf>, ghost c: Chain) returns (ghost d: Chain)
    requires Counts(nodes, c) && nodes[0] == b && blen == Walked(c) && total == TotalOf(c) <= blen
    modifies nodes
    ensures Counts(nodes, d) && d == Trimmed(c)
  {
    TrimmedIs(c, total);
    d := DropPadding(b, blen, total, nodes, c);
  }

  lemma TrimmedIs(c: Chain, total: nat)
    requires c != [] && total == TotalOf(c) <= Walked(c)
    ensures Trimmed(c) == TrimTail(c, Walked(c) - total).0
  {
  }

  lemma TrimNothing(c: Chain, n: nat)
    requires c != [] && n == 0
    ensures TrimTail(c, n).0 == c
  {
    var last := c[|c| - 1];
    assert last.bytes[..|last.bytes| - n] == last.bytes;
  }

  function NextId(id: Half): Half { if id == 0xFFFF then 0 else id + 1 }

  // ---- output ----------------------------------------------------------------------------------------------

  /** Claim the header's room at the front of a packet. */
  method Open(b: Pbuf, ghost nodes: seq<Pbuf>, ghost c: Chain) returns (ok: bool, total: nat, ghost e: Chain)
    requires Counts(nodes, c) && nodes[0] == b
    modifies b`data, b`len, b`size, b`chainlen, b`seg
    ensures ok == (HDR_MIN <= old(b.data)) && Counts(nodes, e)
    ensures ok ==> |e[0].bytes| == HDR_MIN + |c[0].bytes| && e[0].bytes[HDR_MIN..] == c[0].bytes && e[1..] == c[1..]
    ensures ok ==> total == (HDR_MIN + |Flat(c)|) % 0x1_0000 && |Flat(e)| == HDR_MIN + |Flat(c)|
    ensures !ok ==> e == c
  {
    total := 0;
    ok, e := Prepend(b, HDR_MIN, nodes, c);
    if ok {
      total := ChainLen(b, nodes, e);
    }
  }

  lemma PacketSplit(f: Fields, c: Chain, d: Chain, total: Half)
    requires c != [] && d != [] && total == (HDR_MIN + |Flat(c)|) % 0x1_0000
    requires d[0].bytes == Header(f, total) + c[0].bytes && Flat(d) == Header(f, total) + (c[0].bytes + Flat(c[1..]))
    ensures Flat(d) == Packet(f, Flat(c)) && |Flat(d)| == HDR_MIN + |Flat(c)| && HDR_MIN <= |d[0].bytes|
  {
    HeaderFields(f, total);
  }

  /** Fill in the header in the room opened for it. */
  method SealOpened(b: Pbuf, f: Fields, total: Half, ghost nodes: seq<Pbuf>, ghost c: Chain, ghost e: Chain) returns (ghost d: Chain)
    requires c != [] && Counts(nodes, e) && nodes[0] == b && total == (HDR_MIN + |Flat(c)|) % 0x1_0000
    requires |e[0].bytes| == HDR_MIN + |c[0].bytes| && e[0].bytes[HDR_MIN..] == c[0].bytes && e[1..] == c[1..]
    modifies b`seg, b.area
    ensures Views(nodes, d) && Flat(d) == Packet(f, Flat(c)) && |Flat(d)| == HDR_MIN + |Flat(c)| && HDR_MIN <= |d[0].bytes|
  {
    d := Seal(b, f, total, c[0].bytes, nodes, e);
    PacketSplit(f, c, d, total);
  }

  method Build(b: Pbuf, f: Fields, ghost nodes: seq<Pbuf>, ghost c: Chain) returns (ok: bool, ghost d: Chain)
    requires Counts(nodes, c) && nodes[0] == b
    modifies b`data, b`len, b`size, b`chainlen, b`seg, b.area
    ensures ok == (HDR_MIN <= old(b.data)) && Counts(nodes, d)
    ensures ok ==> Flat(d) == Packet(f, Flat(c)) && HDR_MIN <= |d[0].bytes|
    ensures !ok ==> d == c
  {
    ghost var e;
    var total;
    ok, total, e := Open(b, nodes, c);
    if !ok {
      return false, c;
    }
    d := SealOpened(b, f, total, nodes, c, e);
  }

  class Stack {
    const table: Table
    var ipId: Half

    constructor (t: Table)
      ensures table == t && ipId == 0
    {
      table, ipId := t, 0;
    }

    /** The packet under the next identification, if there is room for its header. */
    method Stamp(b: Pbuf, src: Word, dst: Word, proto: Byte, ttl: Byte, ghost nodes: seq<Pbuf>, ghost c: Chain) returns (ok: bool, ghost d: Chain)
      requires Counts(nodes, c) && nodes[0] == b
      modifies this`ipId, b`data, b`len, b`size, b`chainlen, b`seg, b.area
      ensures ok == (HDR_MIN <= old(b.data)) && Counts(nodes, d)
      ensures !ok ==> d == c && ipId == old(ipId)
      ensures ok ==> ipId == NextId(old(ipId)) && Flat(d) == Packet(Fields(ipId, ttl, proto, src, dst), Flat(c)) && HDR_MIN <= |d[0].bytes|
    {
      var f := Fields(NextId(ipId), ttl, proto, src, dst);
      ok, d := Build(b, f, nodes, c);
      if ok {
        ipId := f.id;
      }
    }

    /** `nsfip_output`: route, open headroom, write the header under the next identification, and hand
        the packet to the route's device. */
    method Output(b: Pbuf, src: Word, dst: Word, proto: Byte, ttl: Byte, ghost nodes: seq<Pbuf>, ghost c: Chain)
      returns (r: Sent, ghost best: nat, ghost d: Chain)
      requires Counts(nodes, c) && nodes[0] == b
      modifies this`ipId, b`data, b`len, b`size, b`chainlen, b`seg, b.area
      ensures Counts(nodes, d)
      ensures r == NoRoute <==> forall j :: 0 <= j < |table.routes| ==> !Matches(table.routes[j], dst)
      ensures r != NoRoute ==> Best(table.routes, dst, best) && r == if old(b.data) < HDR_MIN then NoRoom else Sent(HopOf(table.routes[best], dst))
      ensures !r.Sent? ==> d == c && ipId == old(ipId)
      ensures r.Sent? ==> ipId == if old(ipId) == 0xFFFF then 0 else old(ipId) + 1
      ensures r.Sent? ==> Flat(d) == Packet(Fields(ipId, ttl, proto, src, dst), Flat(c)) && HDR_MIN <= |d[0].bytes|
    {
      d := c;
      var hop;
      hop, best := table.Lookup(dst);
      if hop.None? {
        return NoRoute, best, c;
      }
      var ok;
      ok, d := Stamp(b, src, dst, proto, ttl, nodes, c);
      r := if ok then Sent(hop.value) else NoRoom;
    }

    /** The checks that need only the header and the packet's length. */
    method Verdict(b: Pbuf, h: Head, blen: nat, ghost nodes: seq<Pbuf>, ghost c: Chain) returns (v: Verdict)
      requires Views(nodes, c) && nodes[0] == b && blen == Walked(c) && |c[0].bytes| >= HDR_MIN
      ensures v == Judge(c, h, table.locals) && (v.Deliver? ==> h.total <= blen)
    {
      if h.version != 4 || h.hlen < HDR_MIN || b.len < h.hlen {
        return HdrErr;
      }
      if h.total < h.hlen || h.total > blen {
        return BadLen;
      }
      var ck := SumHeader(b, h.hlen, nodes, c);
      if ck != 0 {
        return BadCksum;
      }
      if h.fragment {
        return FragDrop;
      }
      var local := table.IsLocal(h.dst);
      v := if local then Deliver(h.proto, h.src, h.dst, h.hlen) else InAddrErr;
    }

    method Examine(b: Pbuf, blen: nat, ghost nodes: seq<Pbuf>, ghost c: Chain) returns (v: Verdict, total: nat)
      requires Views(nodes, c) && nodes[0] == b && blen == Walked(c)
      ensures v == IpPackets.Input(c, table.locals) && (v.Deliver? ==> total == TotalOf(c) <= blen)
    {
      if blen < HDR_MIN || b.len < HDR_MIN {
        return BadLen, 0;
      }
      var h := ReadHead(b);
      v := Verdict(b, h, blen, nodes, c);
      total := h.total;
      InputIs(c, h, table.locals);
    }

    /** `nsfip_input` up to the demux: the verdict, and on delivery the packet without its link padding. */
    method Input(b: Pbuf, ghost nodes: seq<Pbuf>, ghost c: Chain) returns (v: Verdict, ghost d: Chain)
      requires Counts(nodes, c) && nodes[0] == b
      modifies nodes
      ensures v == IpPackets.Input(c, table.locals) && Counts(nodes, d)
      ensures d == if v.Deliver? then Trimmed(c) else c
    {
      d := c;
      var blen := ChainLen(b, nodes, c);
      var total;
      v, total := Examine(b, blen, nodes, c);
      if v.Deliver? {
        d := Strip(b, blen, total, nodes, c);
      }
    }
  }
}
