/** The CTCI block codec: the 3088 block layout against raw IPv4 packets (src/nsfctcif.c).

    A block is a halfword `hwOffset` (end of data), then segments, each a six-octet header
    (length, type, reserved) followed by its payload. */
module Codec {
  import opened Bytes

  const HDR: nat := 2
  const SEG: nat := 6
  const TYPE_IPV4: Half := 0x0800

  datatype Span = Span(off: nat, len: nat)

  /** What a whole walk of a block yields: the spans handed up, the well-formed segments skipped
      because they are not IPv4, and whether the walk ended at a malformed segment. */
  datatype WalkResult = WalkResult(spans: seq<Span>, nonip: nat, malformed: bool)

  predicate IsIpv4(payload: Octets) {
    payload != [] && payload[0] / 16 == 4
  }

  function EndOfData(blk: Octets): nat {
    if |blk| < HDR then 0
    else
      var end := Get16(blk, 0);
      if end > |blk| then |blk| else end
  }

  function Walk(blk: Octets, off: nat, end: nat): (w: WalkResult)
    requires end <= |blk|
    ensures forall i :: 0 <= i < |w.spans| ==>
      off + SEG <= w.spans[i].off && 0 < w.spans[i].len && w.spans[i].off + w.spans[i].len <= end
    decreases end - off
  {
    if off + SEG > end then WalkResult([], 0, false)
    else
      var seglen := Get16(blk, off);
      if seglen < SEG || off + seglen > end then WalkResult([], 0, true)
      else
        var rest := Walk(blk, off + seglen, end);
        var payload := blk[off + SEG..off + seglen];
        if IsIpv4(payload) then rest.(spans := [Span(off + SEG, seglen - SEG)] + rest.spans)
        else rest.(nonip := rest.nonip + 1)
  }

  function Longer(here: Span, rest: WalkResult): WalkResult { rest.(spans := [here] + rest.spans) }

  lemma WalkIpv4(blk: Octets, off: nat, end: nat, next: nat)
    requires off + SEG <= next <= end <= |blk| && next == off + Get16(blk, off) && IsIpv4(blk[off + SEG..next])
    ensures Walk(blk, off, end) == Longer(Span(off + SEG, next - off - SEG), Walk(blk, next, end))
  {
  }

  /** A walk that hands something up begins with a well-formed segment. */
  lemma WalkStep(blk: Octets, off: nat, end: nat) returns (next: nat, skips: bool, s: seq<Span>, t: seq<Span>)
    requires end <= |blk| && Walk(blk, off, end).spans != []
    ensures off + SEG <= next <= end && (!skips ==> IsIpv4(blk[off + SEG..next]))
    ensures s == Walk(blk, off, end).spans && t == Walk(blk, next, end).spans
    ensures if skips then s == t else s == [Span(off + SEG, next - off - SEG)] + t
  {
    next := off + Get16(blk, off);
    skips := !IsIpv4(blk[off + SEG..next]);
    s, t := Walk(blk, off, end).spans, Walk(blk, next, end).spans;
  }

  /** In order, with room for a whole segment header between any two. */
  predicate Apart(s: seq<Span>) {
    forall i, j :: 0 <= i < j < |s| ==> s[i].off + s[i].len + SEG <= s[j].off
  }

  lemma ApartCons(here: Span, t: seq<Span>)
    requires Apart(t) && forall j :: 0 <= j < |t| ==> here.off + here.len + SEG <= t[j].off
    ensures Apart([here] + t)
  {
  }

  /** The payloads handed up are disjoint and in order: a whole segment header lies between two. */
  lemma {:induction false} SpansDisjoint(blk: Octets, off: nat, end: nat)
    requires end <= |blk|
    ensures Apart(Walk(blk, off, end).spans)
    decreases end - off
  {
    if Walk(blk, off, end).spans != [] {
      var next, skips, s, t := WalkStep(blk, off, end);
      SpansDisjoint(blk, next, end);
      if !skips { ApartCons(Span(off + SEG, next - off - SEG), t); }
    }
  }

  function Payload(blk: Octets, s: Span): Octets
    requires s.off + s.len <= |blk|
  {
    blk[s.off..s.off + s.len]
  }

  function Payloads(blk: Octets, spans: seq<Span>): (ps: seq<Octets>)
    requires forall i :: 0 <= i < |spans| ==> spans[i].off + spans[i].len <= |blk|
    ensures |ps| == |spans|
  {
    seq(|spans|, i requires 0 <= i < |spans| => Payload(blk, spans[i]))
  }

  /** The packets a received block carries, in order. */
  function Decode(blk: Octets): (ps: seq<Octets>)
    ensures |ps| == |Walk(blk, HDR, EndOfData(blk)).spans|
  {
    Payloads(blk, Walk(blk, HDR, EndOfData(blk)).spans)
  }

  /** `offs` lists the segment boundaries reached from `offs[0]`: every segment starts where the
      one before it ended, is at least its own header long, and ends inside the data. */
  ghost predicate SegmentChain(blk: Octets, offs: seq<nat>, end: nat)
    requires end <= |blk|
  {
    && offs != []
    && forall i :: 0 <= i < |offs| - 1 ==>
         && offs[i] + SEG <= end
         && SEG <= Get16(blk, offs[i])
         && offs[i + 1] == offs[i] + Get16(blk, offs[i]) <= end
  }

  /** The walk stopped at `off` either because no header fits or because what is there is malformed. */
  ghost predicate Stops(blk: Octets, off: nat, end: nat, malformed: bool)
    requires end <= |blk|
  {
    if off + SEG > end then !malformed
    else malformed && (Get16(blk, off) < SEG || off + Get16(blk, off) > end)
  }

  /** `s` is the payload of one of the segments `offs` delimits. */
  ghost predicate InChain(s: Span, offs: seq<nat>) {
    exists i :: 0 <= i < |offs| - 1 && s.off == offs[i] + SEG && s.off + s.len == offs[i + 1]
  }

  lemma InLongerChain(s: Span, first: nat, offs: seq<nat>)
    requires InChain(s, offs)
    ensures InChain(s, [first] + offs)
  {
    var i :| 0 <= i < |offs| - 1 && s.off == offs[i] + SEG && s.off + s.len == offs[i + 1];
    assert ([first] + offs)[i + 1] == offs[i] && ([first] + offs)[i + 2] == offs[i + 1];
  }

  lemma LongerChain(blk: Octets, first: nat, offs: seq<nat>, end: nat)
    requires end <= |blk| && SegmentChain(blk, offs, end)
    requires first + SEG <= end && SEG <= Get16(blk, first) && offs[0] == first + Get16(blk, first) <= end
    ensures SegmentChain(blk, [first] + offs, end)
  {
  }

  lemma AllInLonger(spans: seq<Span>, here: Span, first: nat, rest: seq<nat>)
    requires rest != [] && here.off == first + SEG && here.off + here.len == rest[0]
    requires forall s :: s in spans ==> InChain(s, rest)
    ensures forall s :: s in [here] + spans ==> InChain(s, [first] + rest)
  {
    var offs := [first] + rest;
    assert InChain(here, offs) by { assert offs[0] == first && offs[1] == rest[0]; }
    forall s | s in [here] + spans ensures InChain(s, offs) {
      if s in spans { InLongerChain(s, first, rest); } else { assert s == here; }
    }
  }

  /** One more segment in front of a chain that accounts for what the walk found behind it. */
  lemma OneMore(blk: Octets, off: nat, end: nat, rest: seq<nat>)
    requires end <= |blk| && off + SEG <= end && SEG <= Get16(blk, off) && off + Get16(blk, off) <= end
    requires SegmentChain(blk, rest, end) && rest[0] == off + Get16(blk, off)
    requires var w := Walk(blk, off + Get16(blk, off), end);
      |w.spans| + w.nonip == |rest| - 1 && forall s :: s in w.spans ==> InChain(s, rest)
    ensures SegmentChain(blk, [off] + rest, end)
    ensures var w := Walk(blk, off, end);
      && |w.spans| + w.nonip == |rest| && (forall s :: s in w.spans ==> InChain(s, [off] + rest))
      && w.malformed == Walk(blk, off + Get16(blk, off), end).malformed
  {
    var next := off + Get16(blk, off);
    var w := Walk(blk, next, end);
    LongerChain(blk, off, rest, end);
    AllInLonger(w.spans, Span(off + SEG, next - off - SEG), off, rest);
    FewerInLonger(w.spans, Span(off + SEG, next - off - SEG), [off] + rest);
    WalkOver(blk, off, end, next);
  }

  lemma FewerInLonger(spans: seq<Span>, here: Span, offs: seq<nat>)
    requires forall s :: s in [here] + spans ==> InChain(s, offs)
    ensures forall s :: s in spans ==> InChain(s, offs)
  {
    assert forall s :: s in spans ==> s in [here] + spans;
  }

  lemma FirstOctet(b: Octets, lo: nat, hi: nat)
    requires lo <= hi <= |b|
    ensures IsIpv4(b[lo..hi]) <==> lo < hi && b[lo] / 16 == 4
  {
  }

  lemma WalkStops(blk: Octets, off: nat, end: nat)
    requires off + SEG <= end <= |blk| && (Get16(blk, off) < SEG || off + Get16(blk, off) > end)
    ensures Walk(blk, off, end) == WalkResult([], 0, true)
  {
  }

  function Skipped(w: WalkResult): WalkResult { w.(nonip := w.nonip + 1) }

  lemma WalkOver(blk: Octets, off: nat, end: nat, next: nat)
    requires off + SEG <= next <= end <= |blk| && next == off + Get16(blk, off)
    ensures var w := Walk(blk, next, end);
      Walk(blk, off, end) == if IsIpv4(blk[off + SEG..next]) then Longer(Span(off + SEG, next - off - SEG), w) else Skipped(w)
  {
  }

  /** On arbitrary octets, what the walk hands up plus what it skips is exactly the run of
      well-formed segments before the end of data or the first malformed one. */
  lemma {:induction false} WalkCountsSegments(blk: Octets, off: nat, end: nat) returns (offs: seq<nat>)
    requires end <= |blk|
    ensures SegmentChain(blk, offs, end) && offs[0] == off
    ensures Stops(blk, offs[|offs| - 1], end, Walk(blk, off, end).malformed)
    ensures |Walk(blk, off, end).spans| + Walk(blk, off, end).nonip == |offs| - 1
    ensures forall s :: s in Walk(blk, off, end).spans ==> InChain(s, offs)
    decreases end - off
  {
    if off + SEG > end || Get16(blk, off) < SEG || off + Get16(blk, off) > end {
      offs := [off];
    } else {
      var rest := WalkCountsSegments(blk, off + Get16(blk, off), end);
      offs := [off] + rest;
      OneMore(blk, off, end, rest);
    }
  }

  // ---- framing -------------------------------------------------------------------------------

  function Segment(ip: Octets): (r: Octets)
    requires SEG + |ip| < 0x1_0000
    ensures |r| == SEG + |ip|
  {
    Put16(SEG + |ip|) + Put16(TYPE_IPV4) + Put16(0) + ip
  }

  predicate Packable(ips: seq<Octets>) {
    forall ip :: ip in ips ==> SEG + |ip| < 0x1_0000
  }

  function Body(ips: seq<Octets>): (r: Octets)
    requires Packable(ips)
  {
    if ips == [] then [] else Segment(ips[0]) + Body(ips[1..])
  }

  /** A received block: end-of-data offset and segments, with no terminator for the guest. */
  function Pack(ips: seq<Octets>): (r: Octets)
    requires Packable(ips) && HDR + |Body(ips)| < 0x1_0000
  {
    Put16(HDR + |Body(ips)|) + Body(ips)
  }

  /** What one WRITE carries: the same block for one packet, closed by a zero halfword. The two lengths
      are halfwords, whatever the packet's. */
  function Frame(ip: Octets): (r: Octets)
    ensures |r| == HDR + SEG + |ip| + HDR
  {
    Put16((HDR + SEG + |ip|) % 0x1_0000) + (Put16((SEG + |ip|) % 0x1_0000) + Put16(TYPE_IPV4) + Put16(0) + ip) + Put16(0)
  }

  /** The block `blk` holds the packet `ip` and nothing else, octet for octet. */
  predicate Holds(blk: Octets, ip: Octets) {
    && |blk| == |ip| + 10
    && blk[0] as int * 0x100 + blk[1] as int == |ip| + 8
    && blk[2] as int * 0x100 + blk[3] as int == |ip| + 6
    && blk[4..8] == [8, 0, 0, 0]
    && blk[8..|ip| + 8] == ip
    && blk[|ip| + 8..] == [0, 0]
  }

  lemma PartsOf(a: Octets, b: Octets, ip: Octets, c: Octets)
    requires |a| == |b| == |c| == 2
    ensures var blk := a + (b + [8, 0] + [0, 0] + ip) + c;
      |blk| == |ip| + 10 && blk[0] == a[0] && blk[1] == a[1] && blk[2] == b[0] && blk[3] == b[1] && blk[4..8] == [8, 0, 0, 0]
      && blk[8..|ip| + 8] == ip && blk[|ip| + 8..] == c
  {
  }

  lemma FrameHolds(ip: Octets)
    requires |ip| + 8 < 0x1_0000
    ensures Holds(Frame(ip), ip)
  {
    var end, len := Put16(|ip| + 8), Put16(|ip| + 6);
    FrameFits(ip);
    assert Put16(TYPE_IPV4) == [8, 0] && Put16(0) == [0, 0];
    assert Frame(ip) == end + (len + [8, 0] + [0, 0] + ip) + [0, 0];
    PartsOf(end, len, ip, [0, 0]);
  }

  /** The walk hands up exactly `ips` and skips nothing. */
  ghost predicate Yields(blk: Octets, w: WalkResult, ips: seq<Octets>) {
    && (forall i :: 0 <= i < |w.spans| ==> w.spans[i].off + w.spans[i].len <= |blk|)
    && Payloads(blk, w.spans) == ips && w.nonip == 0 && !w.malformed
  }

  lemma YieldsCons(blk: Octets, here: Span, rest: WalkResult, ips: seq<Octets>)
    requires ips != [] && here.off + here.len <= |blk| && Payload(blk, here) == ips[0] && Yields(blk, rest, ips[1..])
    ensures Yields(blk, Longer(here, rest), ips)
  {
    PayloadsCons(blk, here, rest.spans);
  }

  /** The first segment behind `off`, if what follows it is walked over too. */
  lemma YieldsFirst(blk: Octets, off: nat, end: nat, next: nat, ips: seq<Octets>)
    requires ips != [] && IsIpv4(ips[0]) && off + SEG <= next <= end <= |blk| && next == off + Get16(blk, off)
    requires blk[off + SEG..next] == ips[0] && Yields(blk, Walk(blk, next, end), ips[1..])
    ensures Yields(blk, Walk(blk, off, end), ips)
  {
    WalkIpv4(blk, off, end, next);
    YieldsCons(blk, Span(off + SEG, next - off - SEG), Walk(blk, next, end), ips);
  }

  lemma {:induction false} WalkBody(blk: Octets, off: nat, end: nat, ips: seq<Octets>)
    requires Packable(ips) && off + |Body(ips)| == end <= |blk|
    requires blk[off..end] == Body(ips)
    requires forall ip :: ip in ips ==> IsIpv4(ip)
    ensures Yields(blk, Walk(blk, off, end), ips)
    decreases |ips|
  {
    if ips != [] {
      FirstSegment(blk, off, end, ips);
      var next := off + SEG + |ips[0]|;
      WalkBody(blk, next, end, ips[1..]);
      YieldsFirst(blk, off, end, next, ips);
    }
  }

  lemma PayloadsCons(blk: Octets, s: Span, rest: seq<Span>)
    requires s.off + s.len <= |blk|
    requires forall i :: 0 <= i < |rest| ==> rest[i].off + rest[i].len <= |blk|
    ensures Payloads(blk, [s] + rest) == [Payload(blk, s)] + Payloads(blk, rest)
  {
  }

  lemma FirstSegment(blk: Octets, off: nat, end: nat, ips: seq<Octets>)
    requires ips != [] && Packable(ips) && off + |Body(ips)| == end <= |blk|
    requires blk[off..end] == Body(ips)
    ensures var n := SEG + |ips[0]|;
      && off + n <= end && Get16(blk, off) == n
      && blk[off + SEG..off + n] == ips[0]
      && off + n + |Body(ips[1..])| == end
      && blk[off + n..end] == Body(ips[1..])
  {
    var ip := ips[0];
    var n := SEG + |ip|;
    SplitSlice(blk, off, end, Segment(ip), Body(ips[1..]));
    SegmentFields(blk, off, ip);
  }

  lemma SegmentFields(blk: Octets, off: nat, ip: Octets)
    requires SEG + |ip| < 0x1_0000 && off + SEG + |ip| <= |blk|
    requires blk[off..off + SEG + |ip|] == Segment(ip)
    ensures Get16(blk, off) == SEG + |ip| && blk[off + SEG..off + SEG + |ip|] == ip
  {
    var n := SEG + |ip|;
    var h := Put16(n) + Put16(TYPE_IPV4) + Put16(0);
    assert Segment(ip) == h + ip;
    SplitSlice(blk, off, off + n, h, ip);
    assert h == Put16(n) + (Put16(TYPE_IPV4) + Put16(0));
    SplitSlice(blk, off, off + SEG, Put16(n), Put16(TYPE_IPV4) + Put16(0));
    Get16Of(blk, off, n);
  }

  /** Decoding a block packed from any IPv4 packets yields those packets in order, whatever octets
      the buffer holds after the data. */
  lemma DecodePack(ips: seq<Octets>, tail: Octets)
    requires Packable(ips) && HDR + |Body(ips)| < 0x1_0000
    requires forall ip :: ip in ips ==> |ip| > 0 && ip[0] / 16 == 4
    ensures Decode(Pack(ips) + tail) == ips
    ensures Walk(Pack(ips) + tail, HDR, EndOfData(Pack(ips) + tail)).nonip == 0
  {
    var blk := Pack(ips) + tail;
    var end := HDR + |Body(ips)|;
    assert blk[0] == Put16(end)[0] && blk[1] == Put16(end)[1];
    assert EndOfData(blk) == end;
    assert blk[HDR..end] == Body(ips);
    WalkBody(blk, HDR, end, ips);
  }

  lemma BodyOne(ip: Octets)
    requires SEG + |ip| < 0x1_0000
    ensures Body([ip]) == Segment(ip)
  {
    assert [ip][1..] == [] && Segment(ip) + [] == Segment(ip);
  }

  lemma PackOne(ip: Octets)
    requires HDR + SEG + |ip| < 0x1_0000
    ensures Packable([ip]) && HDR + |Body([ip])| < 0x1_0000 && Pack([ip]) == Put16(HDR + SEG + |ip|) + Segment(ip)
  {
    BodyOne(ip);
  }

  lemma FrameFits(ip: Octets)
    requires HDR + SEG + |ip| < 0x1_0000
    ensures Frame(ip) == Put16(HDR + SEG + |ip|) + Segment(ip) + Put16(0)
  {
    assert (HDR + SEG + |ip|) % 0x1_0000 == HDR + SEG + |ip| && (SEG + |ip|) % 0x1_0000 == SEG + |ip|;
  }

  /** What a WRITE puts on the wire decodes to the packet it was encoded from. */
  lemma DecodeFrame(ip: Octets)
    requires HDR + SEG + |ip| < 0x1_0000 && IsIpv4(ip)
    ensures Decode(Frame(ip)) == [ip]
  {
    PackOne(ip);
    FrameFits(ip);
    DecodePack([ip], Put16(0));
  }

  predicate AllIpv4(blk: Octets, spans: seq<Span>) {
    forall i :: 0 <= i < |spans| ==> spans[i].off + spans[i].len <= |blk| && IsIpv4(Payload(blk, spans[i]))
  }

  lemma Ipv4Cons(blk: Octets, here: Span, t: seq<Span>)
    requires here.off + here.len <= |blk| && IsIpv4(Payload(blk, here)) && AllIpv4(blk, t)
    ensures AllIpv4(blk, [here] + t)
  {
  }

  /** A walk hands up IPv4 payloads only. */
  lemma {:induction false} WalkIsIpv4(blk: Octets, off: nat, end: nat)
    requires end <= |blk|
    ensures AllIpv4(blk, Walk(blk, off, end).spans)
    decreases end - off
  {
    if Walk(blk, off, end).spans != [] {
      var next, skips, s, t := WalkStep(blk, off, end);
      WalkIsIpv4(blk, next, end);
      if !skips { Ipv4Cons(blk, Span(off + SEG, next - off - SEG), t); }
    }
  }

  /** The block sent for a packet decodes to it exactly when it is IPv4 and its end fits the halfword
      that says where the data ends. */
  lemma DecodeFrameIff(ip: Octets)
    ensures Decode(Frame(ip)) == [ip] <==> |ip| > 0 && ip[0] / 16 == 4 && |ip| + 8 < 0x1_0000
  {
    var blk := Frame(ip);
    if Decode(blk) == [ip] {
      var here := Walk(blk, HDR, EndOfData(blk)).spans[0];
      assert Decode(blk)[0] == Payload(blk, here);
      WalkIsIpv4(blk, HDR, EndOfData(blk));
    }
    if IsIpv4(ip) && HDR + SEG + |ip| < 0x1_0000 { DecodeFrame(ip); }
  }

  // ---- the decoder and encoder as the driver runs them -------------------------------------------

  /** The decode cursor (CTCIFDEC). It reads the block and never writes it. */
  class Decoder {
    const blk: array<Byte>
    const len: nat
    var off: nat
    var end: nat
    var nonipv4: nat
    var malformed: bool

    ghost predicate Valid()
      reads this, blk
    {
      len <= blk.Length && end <= len
    }

    ghost function Rest(): WalkResult
      requires Valid()
      reads this, blk
    {
      Walk(blk[..len], off, end)
    }

    constructor (blk: array<Byte>, len: nat)
      requires len <= blk.Length
      ensures Valid() && this.blk == blk && this.len == len
      ensures off == HDR && end == EndOfData(blk[..len]) && nonipv4 == 0 && !malformed
    {
      this.blk := blk;
      this.len := len;
      off := HDR;
      nonipv4 := 0;
      malformed := false;
      if len < HDR {
        end := 0;
      } else {
        var e := blk[0] as int * 0x100 + blk[1] as int;
        end := if e > len then len else e;
      }
    }

    /** The next IPv4 payload, or none when the data is exhausted or malformed. Each call accounts
        for every segment it passes, so results and counts over a whole walk are the walk's own. */
    method Next() returns (found: bool, span: Span)
      requires Valid()
      modifies this
      ensures Valid() && end == old(end)
      ensures found <==> old(Rest()).spans != []
      ensures found ==>
        && span == old(Rest()).spans[0]
        && Rest().spans == old(Rest()).spans[1..]
        && nonipv4 + Rest().nonip == old(nonipv4 + Rest().nonip)
        && malformed == old(malformed) && Rest().malformed == old(Rest()).malformed
        && off > old(off)
      ensures !found ==>
        && nonipv4 == old(nonipv4 + Rest().nonip)
        && malformed == old(malformed || Rest().malformed)
        && Rest() == WalkResult([], 0, old(Rest()).malformed)
    {
      span := Span(0, 0);
      ghost var was := Rest();
      while off + SEG <= end
        invariant Valid() && end == old(end) && off >= old(off)
        invariant Rest().spans == was.spans && Rest().malformed == was.malformed
        invariant nonipv4 + Rest().nonip == old(nonipv4) + was.nonip
        invariant malformed == old(malformed)
        decreases end - off
      {
        var bad;
        bad, found, span := Pass();
        if bad || found {
          return found, span;
        }
      }
      return false, span;
    }

    /** Pass one segment: malformed, not IPv4, or to be handed up. */
    method Pass() returns (bad: bool, found: bool, span: Span)
      requires Valid() && off + SEG <= end
      modifies this
      ensures Valid() && end == old(end) && off >= old(off)
      ensures bad ==> !found && malformed && nonipv4 == old(nonipv4) && old(Rest()) == Rest() == WalkResult([], 0, true)
      ensures !bad ==> malformed == old(malformed) && off > old(off)
      ensures found ==> old(Rest()) == Longer(span, Rest()) && nonipv4 == old(nonipv4)
      ensures !bad && !found ==> old(Rest()) == Skipped(Rest()) && nonipv4 == old(nonipv4) + 1
    {
      ghost var b := blk[..len];
      assert b[off] == blk[off] && b[off + 1] == blk[off + 1];
      var seglen := blk[off] as int * 0x100 + blk[off + 1] as int;
      span := Span(0, 0);
      if seglen < SEG || off + seglen > end {
        WalkStops(b, off, end);
        malformed := true;
        return true, false, span;
      }
      var payload := off + SEG;
      var paylen := seglen - SEG;
      FirstOctet(b, payload, off + seglen);
      WalkOver(b, off, end, off + seglen);
      var ipv4 := paylen != 0 && blk[payload] / 16 == 4;
      assert ipv4 == IsIpv4(b[payload..off + seglen]);
      off := off + seglen;
      if !ipv4 {
        nonipv4 := nonipv4 + 1;
        return false, false, span;
      }
      return false, true, Span(payload, paylen);
    }
  }

  /** Store a halfword big-endian, one octet at a time. */
  method Store16(a: array<Byte>, at: nat, v: Half)
    requires at + 2 <= a.Length
    modifies a
    ensures a[..] == Overlay(old(a[..]), at, Put16(v))
  {
    a[at] := v / 0x100;
    a[at + 1] := v % 0x100;
  }

  /** Frame a packet that already lies at offset 8 of `blk`: only the framing halfwords are
      written. Returns the block length, or 0 with the block untouched when the packet is empty or
      does not fit. */
  method EncodeHdr(blk: array<Byte>, blksize: nat, iplen: nat) returns (total: nat)
    requires blksize <= blk.Length
    modifies blk
    ensures total == if iplen == 0 || HDR + SEG + iplen + HDR > blksize then 0 else HDR + SEG + iplen + HDR
    ensures total == 0 ==> blk[..] == old(blk[..])
    ensures total != 0 ==> blk[..total] == Frame(old(blk[HDR + SEG..HDR + SEG + iplen]))
    ensures total != 0 ==> blk[total..] == old(blk[total..])
  {
    var end := HDR + SEG + iplen;
    total := end + HDR;
    if iplen == 0 || total > blksize {
      return 0;
    }
    ghost var ip := blk[HDR + SEG..end];
    Store16(blk, 0, end % 0x1_0000);
    Store16(blk, HDR, (SEG + iplen) % 0x1_0000);
    Store16(blk, HDR + 2, TYPE_IPV4);
    Store16(blk, HDR + 4, 0);
    Store16(blk, end, 0);
    FrameLayout(blk[..total], ip);
  }

  lemma FrameLayout(b: Octets, ip: Octets)
    requires |b| == HDR + SEG + |ip| + HDR
    requires b[0..2] == Put16((HDR + SEG + |ip|) % 0x1_0000) && b[2..4] == Put16((SEG + |ip|) % 0x1_0000)
    requires b[4..6] == Put16(TYPE_IPV4) && b[6..8] == Put16(0)
    requires b[8..8 + |ip|] == ip && b[8 + |ip|..] == Put16(0)
    ensures b == Frame(ip)
  {
    assert b == b[0..2] + (b[2..4] + b[4..6] + b[6..8] + b[8..8 + |ip|]) + b[8 + |ip|..];
  }

  /** Copy a packet into the block, then frame it. */
  method Encode(blk: array<Byte>, blksize: nat, ip: array<Byte>, iplen: nat) returns (total: nat)
    requires blksize <= blk.Length && iplen <= ip.Length && ip != blk
    modifies blk
    ensures total == if iplen == 0 || HDR + SEG + iplen + HDR > blksize then 0 else HDR + SEG + iplen + HDR
    ensures total == 0 ==> blk[..] == old(blk[..])
    ensures total != 0 ==> blk[..total] == Frame(ip[..iplen])
  {
    var data := HDR + SEG;
    if iplen == 0 || data + iplen + HDR > blksize {
      return 0;
    }
    var i := 0;
    while i < iplen
      invariant 0 <= i <= iplen
      invariant blk[data..data + i] == ip[..i]
      invariant ip[..] == old(ip[..])
    {
      blk[data + i] := ip[i];
      i := i + 1;
    }
    total := EncodeHdr(blk, blksize, iplen);
  }
}
