/** Packet buffers on the heap (src/nsfbuf.c): linked control blocks over data areas, updated in
    place, refining the value chains. `nodes` names the buffers of a packet in link order. */
module Pbufs {
  import opened Bytes
  import opened Chains

  const SMALL_DATA: nat := 256
  const LARGE_DATA: nat := 2048
  const HEADROOM: nat := 64

  method CopyOctets(dst: array<Byte>, at: nat, src: array<Byte>, from: nat, n: nat)
    requires dst != src && at + n <= dst.Length && from + n <= src.Length
    modifies dst
    ensures dst[..at + n] == old(dst[..at]) + src[from..from + n] && dst[at + n..] == old(dst[at + n..])
  {
    var i := 0;
    while i < n
      invariant 0 <= i <= n && dst[..at] == old(dst[..at]) && dst[at + n..] == old(dst[at + n..])
      invariant dst[at..at + i] == src[from..from + i]
    {
      dst[at + i] := src[from + i];
      i := i + 1;
    }
    assert dst[..at + n] == dst[..at] + dst[at..at + n];
  }

  class Pbuf {
    const area: array<Byte>
    var chain: Pbuf?
    var data: nat          // offset of the first valid byte in the area
    var len: nat
    var size: nat          // forward capacity from `data`
    var chainlen: nat      // total of the chain, kept on its head

    /** The valid bytes and the room behind them. */
    ghost var seg: Seg

    /** The standing layout: size runs to the end of the area, and the valid bytes fit in it. */
    ghost predicate Ok()
      reads this, area
    {
      && len <= size && data + size == area.Length <= LARGE_DATA
      && seg == Seg(area[data..data + len], size - len)
    }

    /** `buf_alloc`: the size class by payload plus headroom, opened one headroom in. */
    constructor (hint: nat)
      ensures Ok() && fresh(area) && chain == null && seg.bytes == [] && chainlen == 0 && data == HEADROOM
      ensures area.Length == if HEADROOM + hint <= SMALL_DATA then SMALL_DATA else LARGE_DATA
      ensures HEADROOM + hint <= LARGE_DATA ==> hint <= seg.room
    {
      var b := if HEADROOM + hint <= SMALL_DATA then SMALL_DATA else LARGE_DATA;
      area := new Byte[b];
      chain := null;
      data := HEADROOM;
      len := 0;
      size := b - HEADROOM;
      chainlen := 0;
      seg := Seg([], b - HEADROOM);
    }

    method Widen(n: nat)
      requires Ok() && n <= data
      modifies this`data, this`len, this`size, this`seg
      ensures Ok() && data == old(data) - n && len == old(len) + n
      ensures seg == Seg(area[data..data + n] + old(seg.bytes), old(seg.room))
    {
      data := data - n;
      len := len + n;
      size := size + n;
      seg := Seg(area[data..data + n] + seg.bytes, seg.room);
    }

    method Narrow(n: nat)
      requires Ok() && n <= len
      modifies this`data, this`len, this`size, this`seg
      ensures Ok() && data == old(data) + n
      ensures seg == Seg(old(seg.bytes)[n..], old(seg.room))
    {
      data := data + n;
      len := len - n;
      size := size - n;
      seg := Seg(seg.bytes[n..], seg.room);
    }

    method Cut(n: nat)
      requires Ok() && n <= len
      modifies this`len, this`seg
      ensures Ok() && seg == Seg(old(seg.bytes)[..|old(seg.bytes)| - n], old(seg.room) + n)
    {
      len := len - n;
      seg := Seg(seg.bytes[..|seg.bytes| - n], seg.room + n);
    }

    /** Append as much as fits into this buffer's tail room. */
    method FillFrom(src: array<Byte>, from: nat, to: nat) returns (take: nat)
      requires Ok() && src != area && from <= to <= src.Length
      modifies this`len, this`seg, area
      ensures Ok() && take == Min(to - from, old(seg.room)) && seg == Fill(old(seg), src[from..to])
      ensures src[..] == old(src[..])
    {
      take := if to - from < size - len then to - from else size - len;
      ghost var bytes := seg.bytes;
      CopyOctets(area, data + len, src, from, take);
      len := len + take;
      ghost var more := src[from..to];
      assert more[..take] == src[from..from + take];
      assert area[data..data + len] == area[..data + len][data..] == bytes + more[..take];
      seg := Fill(seg, more);
    }

    /** Write octets over part of the valid ones. */
    method Poke(at: nat, patch: Octets)
      requires Ok() && at + |patch| <= len
      modifies this`seg, area
      ensures Ok() && seg == Seg(Overlay(old(seg.bytes), at, patch), old(seg.room))
    {
      ghost var was := area[data..data + len];
      forall i | 0 <= i < |patch| {
        area[data + at + i] := patch[i];
      }
      assert area[data..data + len] == was[..at] + patch + was[at + |patch|..];
      seg := Seg(Overlay(seg.bytes, at, patch), seg.room);
    }

    /** `buf_reset_rx`: no headroom, full capacity. */
    method ResetRx()
      requires Ok()
      modifies this`data, this`len, this`size, this`chainlen, this`seg
      ensures Ok() && seg == Seg([], area.Length) && chainlen == 0
    {
      data := 0;
      len := 0;
      size := area.Length;
      chainlen := 0;
      seg := Seg([], area.Length);
    }
  }

  /** No block and no area twice. */
  ghost predicate Distinct(nodes: seq<Pbuf>) {
    forall i, j :: 0 <= i < j < |nodes| ==> nodes[i] != nodes[j] && nodes[i].area != nodes[j].area
  }

  ghost function Areas(nodes: seq<Pbuf>): set<array<Byte>> {
    set i | 0 <= i < |nodes| :: nodes[i].area
  }

  ghost function NodeAt(nodes: seq<Pbuf>, i: nat): Pbuf? {
    if i < |nodes| then nodes[i] else null
  }

  /** The buffers, linked in this order, hold the packet `c`. */
  ghost predicate Views(nodes: seq<Pbuf>, c: Chain)
    reads nodes, Areas(nodes)
  {
    && nodes != [] && |c| == |nodes| && Distinct(nodes)
    && forall i :: 0 <= i < |nodes| ==> nodes[i].Ok() && nodes[i].seg == c[i] && nodes[i].chain == NodeAt(nodes, i + 1)
  }

  /** ... and the head's cached total is right, as far as a halfword can be. */
  ghost predicate Counts(nodes: seq<Pbuf>, c: Chain)
    reads nodes, Areas(nodes)
  {
    Views(nodes, c) && nodes[0].chainlen == |Flat(c)| % 0x1_0000
  }

  /** Halfword sums and differences, wrapped as they go. */
  lemma WrapsUp(a: nat, n: nat)
    ensures (a % 0x1_0000 + n % 0x1_0000) % 0x1_0000 == (a + n) % 0x1_0000
  {
  }

  lemma WrapsDown(a: nat, n: nat)
    requires n <= a
    ensures (a % 0x1_0000 - n) % 0x1_0000 == (a - n) % 0x1_0000
  {
  }

  function Total(c: Chain): nat {
    if c == [] then 0 else |c[0].bytes| + Total(c[1..])
  }

  lemma {:induction false} TotalFlat(c: Chain)
    ensures Total(c) == |Flat(c)|
  {
    if c != [] { TotalFlat(c[1..]); }
  }

  lemma FrontGrows(c: Chain, pre: Octets)
    requires c != []
    ensures Flat(c[0 := Seg(pre + c[0].bytes, c[0].room)]) == pre + Flat(c)
  {
    assert c[0 := Seg(pre + c[0].bytes, c[0].room)][1..] == c[1..];
    Assoc(pre, c[0].bytes, Flat(c[1..]));
  }

  lemma FrontShrinks(c: Chain, n: nat)
    requires c != [] && n <= |c[0].bytes|
    ensures Flat(c[0 := Seg(c[0].bytes[n..], c[0].room)]) == Flat(c)[n..]
  {
    assert c[0 := Seg(c[0].bytes[n..], c[0].room)][1..] == c[1..];
  }

  /** `buf_chain_len`: the walk-sum, as a halfword. */
  method ChainLen(head: Pbuf, ghost nodes: seq<Pbuf>, ghost c: Chain) returns (n: nat)
    requires Views(nodes, c) && nodes[0] == head
    ensures n == Walked(c)
  {
    var total := 0;
    var p: Pbuf? := head;
    ghost var i := 0;
    assert c[0..] == c;
    while p != null
      invariant 0 <= i <= |nodes| && p == NodeAt(nodes, i)
      invariant total + Total(c[i..]) == Total(c)
      decreases |nodes| - i
    {
      assert nodes[i].Ok() && p.seg == c[i] && p.chain == NodeAt(nodes, i + 1) && c[i..][1..] == c[i + 1..];
      total := total + p.len;
      p := p.chain;
      i := i + 1;
    }
    TotalFlat(c);
    return total % 0x1_0000;
  }

  /** Views, told apart: the links, and every buffer but one. */
  ghost predicate Links(nodes: seq<Pbuf>)
    reads nodes
  {
    forall i :: 0 <= i < |nodes| ==> nodes[i].chain == NodeAt(nodes, i + 1)
  }

  ghost predicate Except(nodes: seq<Pbuf>, c: Chain, k: nat)
    requires |c| == |nodes|
    reads nodes, Areas(nodes)
  {
    forall i :: 0 <= i < |nodes| && i != k ==> nodes[i].Ok() && nodes[i].seg == c[i]
  }

  lemma ViewsBack(nodes: seq<Pbuf>, c: Chain, k: nat)
    requires k < |nodes| == |c| && Distinct(nodes) && Links(nodes) && Except(nodes, c, k) && nodes[k].Ok()
    ensures Views(nodes, c[k := nodes[k].seg])
  {
  }

  lemma ViewsWhole(nodes: seq<Pbuf>, c: Chain)
    requires |c| == |nodes| > 0 && Distinct(nodes) && Links(nodes) && Except(nodes, c, |c|)
    ensures Views(nodes, c)
  {
  }

  /** Bring the head's cached total up to date. */
  method SetTotal(b: Pbuf, total: nat, ghost nodes: seq<Pbuf>, ghost d: Chain)
    requires Views(nodes, d) && nodes[0] == b && total == |Flat(d)| % 0x1_0000
    modifies b`chainlen
    ensures Counts(nodes, d)
  {
    b.chainlen := total;
    assert Links(nodes) && Except(nodes, d, |d|);
    ViewsWhole(nodes, d);
  }

  method AddTotal(b: Pbuf, n: nat, ghost nodes: seq<Pbuf>, ghost d: Chain, ghost was: nat, ghost more: nat)
    requires Views(nodes, d) && nodes[0] == b && b.chainlen == was % 0x1_0000 && n == more % 0x1_0000 && |Flat(d)| == was + more
    modifies b`chainlen
    ensures Counts(nodes, d)
  {
    WrapsUp(was, more);
    SetTotal(b, (b.chainlen + n) % 0x1_0000, nodes, d);
  }

  method AddShort(b: Pbuf, n: nat, ghost nodes: seq<Pbuf>, ghost d: Chain, ghost was: nat)
    requires Views(nodes, d) && nodes[0] == b && b.chainlen == was % 0x1_0000 && n < 0x1_0000 && |Flat(d)| == was + n
    modifies b`chainlen
    ensures Counts(nodes, d)
  {
    AddTotal(b, n, nodes, d, was, n);
  }

  method SubTotal(b: Pbuf, n: nat, ghost nodes: seq<Pbuf>, ghost d: Chain, ghost was: nat)
    requires Views(nodes, d) && nodes[0] == b && b.chainlen == was % 0x1_0000 && n <= was && |Flat(d)| == was - n
    modifies b`chainlen
    ensures Counts(nodes, d)
  {
    WrapsDown(was, n);
    SetTotal(b, (b.chainlen - n) % 0x1_0000, nodes, d);
  }

  method WidenHead(b: Pbuf, n: nat, ghost nodes: seq<Pbuf>, ghost c: Chain) returns (ghost pre: Octets)
    requires Views(nodes, c) && nodes[0] == b && n <= b.data
    modifies b`data, b`len, b`size, b`seg
    ensures b.data == old(b.data) - n && b.len == old(b.len) + n && pre == b.area[b.data..b.data + n]
    ensures Views(nodes, c[0 := Seg(pre + c[0].bytes, c[0].room)])
  {
    assert b.seg == c[0];
    b.Widen(n);
    pre := b.area[b.data..b.data + n];
    assert b.seg == Seg(pre + c[0].bytes, c[0].room);
    assert Links(nodes) && Except(nodes, c, 0);
    ViewsBack(nodes, c, 0);
  }

  method NarrowHead(b: Pbuf, n: nat, ghost nodes: seq<Pbuf>, ghost c: Chain)
    requires Views(nodes, c) && nodes[0] == b && n <= b.len
    modifies b`data, b`len, b`size, b`seg
    ensures b.data == old(b.data) + n && n <= |c[0].bytes|
    ensures b.seg == Seg(c[0].bytes[n..], c[0].room) && Views(nodes, c[0 := b.seg])
  {
    b.Narrow(n);
    assert Links(nodes) && Except(nodes, c, 0);
    ViewsBack(nodes, c, 0);
  }

  /** The last buffer of a packet. */
  method Last(b: Pbuf, ghost nodes: seq<Pbuf>, ghost c: Chain) returns (last: Pbuf)
    requires Views(nodes, c) && nodes[0] == b
    ensures last == nodes[|nodes| - 1]
  {
    last := b;
    ghost var k := 0;
    while last.chain != null
      invariant k < |nodes| && last == nodes[k] && last.chain == NodeAt(nodes, k + 1)
      decreases |nodes| - k
    {
      assert last.chain == NodeAt(nodes, k + 1);
      last := last.chain;
      k := k + 1;
    }
    assert last.chain == NodeAt(nodes, k + 1);
  }

  method CutTail(last: Pbuf, n: nat, ghost nodes: seq<Pbuf>, ghost c: Chain)
    requires Views(nodes, c) && nodes[|nodes| - 1] == last && n <= last.len
    modifies last`len, last`seg
    ensures Views(nodes, c[|c| - 1 := last.seg]) && n <= |c[|c| - 1].bytes|
    ensures last.seg == Seg(c[|c| - 1].bytes[..|c[|c| - 1].bytes| - n], c[|c| - 1].room + n)
  {
    ghost var k := |nodes| - 1;
    last.Cut(n);
    assert Links(nodes) && Except(nodes, c, k);
    ViewsBack(nodes, c, k);
  }

  method CutLast(b: Pbuf, n: nat, ghost nodes: seq<Pbuf>, ghost c: Chain) returns (ok: bool)
    requires Views(nodes, c) && nodes[0] == b
    modifies nodes
    ensures Views(nodes, TrimTail(c, n).0) && ok == TrimTail(c, n).1
    ensures b.data == old(b.data) && b.chainlen == old(b.chainlen)
  {
    var last := Last(b, nodes, c);
    assert last.Ok() && last.seg == c[|c| - 1];
    if n > last.len {
      return false;
    }
    CutTail(last, n, nodes, c);
    return true;
  }

  lemma Apart(nodes: seq<Pbuf>, more: seq<Pbuf>, i: nat)
    requires Distinct(nodes + more) && i < |nodes|
    ensures nodes[i] !in more
  {
    forall j | 0 <= j < |more| ensures more[j] != nodes[i] {
      assert (nodes + more)[i] == nodes[i] && (nodes + more)[|nodes| + j] == more[j];
    }
  }

  method LinkChain(p: Pbuf, tail: Pbuf, ghost nodes: seq<Pbuf>, ghost more: seq<Pbuf>)
    requires nodes != [] && more != [] && Links(nodes) && Links(more) && nodes[|nodes| - 1] == p && more[0] == tail && Distinct(nodes + more)
    modifies p`chain
    ensures Links(nodes + more)
  {
    ghost var all := nodes + more;
    Apart(nodes, more, |nodes| - 1);
    assert forall i :: 0 <= i < |nodes| - 1 ==> all[i] == nodes[i] != p;
    p.chain := tail;
    forall i | 0 <= i < |all| ensures all[i].chain == NodeAt(all, i + 1) {
      if i < |nodes| - 1 { assert nodes[i].chain == NodeAt(nodes, i + 1) == nodes[i + 1] == all[i + 1]; }
      else if i >= |nodes| { assert more[i - |nodes|].chain == NodeAt(more, i - |nodes| + 1); }
    }
  }

  lemma ViewsJoin(nodes: seq<Pbuf>, c: Chain, more: seq<Pbuf>, d: Chain)
    requires |nodes| == |c| > 0 && |more| == |d| > 0 && Distinct(nodes + more) && Links(nodes + more)
    requires Except(nodes, c, |c|) && Except(more, d, |d|)
    ensures Views(nodes + more, c + d)
  {
    var all := nodes + more;
    forall i | 0 <= i < |all| ensures all[i].Ok() && all[i].seg == (c + d)[i] {
      if i < |nodes| { assert all[i] == nodes[i]; } else { assert all[i] == more[i - |nodes|]; }
    }
  }

  method LinkTail(p: Pbuf, tail: Pbuf, ghost nodes: seq<Pbuf>, ghost c: Chain, ghost more: seq<Pbuf>, ghost d: Chain)
    requires Views(nodes, c) && nodes[|nodes| - 1] == p && Views(more, d) && more[0] == tail && Distinct(nodes + more)
    modifies p`chain
    ensures Views(nodes + more, c + d)
  {
    Apart(nodes, more, |nodes| - 1);
    LinkChain(p, tail, nodes, more);
    ViewsJoin(nodes, c, more, d);
  }

  /** `buf_prepend`: claim headroom, or refuse and change nothing. */
  method Prepend(b: Pbuf, n: nat, ghost nodes: seq<Pbuf>, ghost c: Chain) returns (ok: bool, ghost d: Chain)
    requires Counts(nodes, c) && nodes[0] == b && n < 0x1_0000
    modifies b`data, b`len, b`size, b`chainlen, b`seg
    ensures ok == (n <= old(b.data)) && Counts(nodes, d)
    ensures ok ==> b.data == old(b.data) - n && b.len == old(b.len) + n && d == c[0 := Seg(b.area[b.data..b.data + n] + c[0].bytes, c[0].room)] && Flat(d) == b.area[b.data..b.data + n] + Flat(c)
    ensures !ok ==> d == c
  {
    if b.data < n {
      return false, c;
    }
    ghost var pre;
    pre := WidenHead(b, n, nodes, c);
    d := c[0 := Seg(pre + c[0].bytes, c[0].room)];
    FrontGrows(c, pre);
    AddShort(b, n, nodes, d, |Flat(c)|);
    return true, d;
  }

  /** `buf_trim_head`: drop bytes off the front of the first buffer, or refuse. */
  method TrimHead(b: Pbuf, n: nat, ghost nodes: seq<Pbuf>, ghost c: Chain) returns (ok: bool, ghost d: Chain)
    requires Counts(nodes, c) && nodes[0] == b
    modifies b`data, b`len, b`size, b`chainlen, b`seg
    ensures ok == (n <= |c[0].bytes|) && Counts(nodes, d)
    ensures ok ==> b.data == old(b.data) + n && n <= |Flat(c)| && Flat(d) == Flat(c)[n..]
    ensures !ok ==> d == c
  {
    if n > b.len {
      return false, c;
    }
    NarrowHead(b, n, nodes, c);
    d := c[0 := b.seg];
    FrontShrinks(c, n);
    SubTotal(b, n, nodes, d, |Flat(c)|);
    return true, d;
  }

  /** `buf_trim_tail`: drop bytes off the last buffer of the chain, or refuse. */
  method TrimTailInPlace(b: Pbuf, n: nat, ghost nodes: seq<Pbuf>, ghost c: Chain) returns (ok: bool, ghost d: Chain)
    requires Counts(nodes, c) && nodes[0] == b
    modifies nodes
    ensures (d, ok) == TrimTail(c, n) && Counts(nodes, d)
    ensures b.data == old(b.data)
  {
    TrimTailFlat(c, n);
    ok := CutLast(b, n, nodes, c);
    d := TrimTail(c, n).0;
    if ok {
      SubTotal(b, n, nodes, d, |Flat(c)|);
    }
  }

  method LinkLast(head: Pbuf, tail: Pbuf, ghost nodes: seq<Pbuf>, ghost c: Chain, ghost more: seq<Pbuf>, ghost d: Chain)
    requires Views(nodes, c) && nodes[0] == head && Views(more, d) && more[0] == tail && Distinct(nodes + more)
    modifies nodes`chain
    ensures Views(nodes + more, c + d) && (nodes + more)[0] == head
  {
    var p := Last(head, nodes, c);
    LinkTail(p, tail, nodes, c, more, d);
  }

  method AppendBoth(head: Pbuf, tail: Pbuf, ghost nodes: seq<Pbuf>, ghost c: Chain, ghost more: seq<Pbuf>, ghost d: Chain)
    requires Counts(nodes, c) && nodes[0] == head && Views(more, d) && more[0] == tail && Distinct(nodes + more)
    modifies nodes
    ensures Counts(nodes + more, c + d)
  {
    FlatAppend(c, d);
    var n := ChainLen(tail, more, d);
    LinkLast(head, tail, nodes, c, more, d);
    AddTotal(head, n, nodes + more, c + d, |Flat(c)|, |Flat(d)|);
  }

  /** The packet that begins at `head`, or none. */
  ghost predicate Begins(head: Pbuf?, nodes: seq<Pbuf>, c: Chain)
    reads nodes, Areas(nodes)
  {
    if head == null then nodes == [] && c == [] else Views(nodes, c) && nodes[0] == head
  }

  /** `buf_chain_append`: link a second packet behind the first, either of which may be none. */
  method Append(head: Pbuf?, tail: Pbuf?, ghost nodes: seq<Pbuf>, ghost c: Chain, ghost more: seq<Pbuf>, ghost d: Chain)
    returns (r: Pbuf?)
    requires Begins(head, nodes, c) && Begins(tail, more, d) && Distinct(nodes + more)
    requires head != null ==> Counts(nodes, c)
    modifies nodes
    ensures Begins(r, nodes + more, c + d) && Flat(c + d) == Flat(c) + Flat(d)
    ensures head != null || (tail != null && old(Counts(more, d))) ==> r != null && Counts(nodes + more, c + d)
  {
    FlatAppend(c, d);
    if head == null {
      assert nodes + more == more && c + d == d;
      return tail;
    }
    if tail == null {
      assert nodes + more == nodes && c + d == c;
      return head;
    }
    AppendBoth(head, tail, nodes, c, more, d);
    r := head;
  }

  /** Where a copy is going: the chain it ends in, and how much it takes. */
  datatype Goal = Goal(chain: Chain, taken: nat)

  /** The buffers filled so far, the rest still as they were: on the way to `goal`. */
  ghost predicate Filling(goal: Goal, c: Chain, e: Chain, k: nat, total: nat, rest: Octets) {
    && k <= |c| == |e| && e[k..] == c[k..]
    && goal.chain == e[..k] + CopyIn(c[k..], rest)
    && goal.taken == total + Taken(c[k..], |rest|)
  }

  lemma FillingStep(goal: Goal, c: Chain, e: Chain, k: nat, total: nat, rest: Octets)
    requires Filling(goal, c, e, k, total, rest) && k < |c|
    ensures Filling(goal, c, e[k := Fill(e[k], rest)], k + 1, total + Min(|rest|, e[k].room), Over(e[k], rest))
  {
    assert e[k] == e[k..][0] == c[k..][0] == c[k];
    SetAt(e, k, Fill(c[k], rest));
    assert e[k + 1..] == e[k..][1..] && c[k + 1..] == c[k..][1..];
    CopyInFirst(c[k..], rest, e[..k], c[k + 1..]);
  }

  lemma SetAt(e: Chain, k: nat, s: Seg)
    requires k < |e|
    ensures e[k := s][..k + 1] == e[..k] + [s] && e[k := s][k + 1..] == e[k + 1..]
  {
  }

  lemma CopyInFirst(c: Chain, rest: Octets, front: Chain, tail: Chain)
    requires c != [] && tail == c[1..]
    ensures front + CopyIn(c, rest) == (front + [Fill(c[0], rest)]) + CopyIn(tail, Over(c[0], rest))
  {
  }

  lemma FillingDone(goal: Goal, c: Chain, e: Chain, k: nat, total: nat, rest: Octets)
    requires Filling(goal, c, e, k, total, rest) && (k == |c| || rest == [])
    ensures goal == Goal(e, total)
  {
    CopyInNothing(c[k..]);
    assert e == e[..k] + e[k..];
  }

  lemma FillingStarts(c: Chain, src: Octets)
    ensures Filling(Goal(CopyIn(c, src), Taken(c, |src|)), c, c, 0, 0, src)
  {
    assert c[0..] == c && c[..0] == [];
  }

  /** Copying in is a partition: no byte is lost or taken twice. */
  lemma {:induction false} CopyInGrows(c: Chain, src: Octets)
    ensures |Flat(CopyIn(c, src))| == |Flat(c)| + Taken(c, |src|)
    decreases |c|
  {
    if c != [] {
      CopyInGrows(c[1..], Over(c[0], src));
      FlatCons(Fill(c[0], src), CopyIn(c[1..], Over(c[0], src)));
    }
  }

  /** One buffer's share of a copy, and the next buffer. */
  method FillStep(b: Pbuf, src: array<Byte>, from: nat, to: nat, ghost nodes: seq<Pbuf>, ghost e: Chain, ghost k: nat)
    returns (take: nat, next: Pbuf?, ghost f: Chain)
    requires Views(nodes, e) && k < |nodes| && nodes[k] == b && from <= to <= src.Length
    requires forall i :: 0 <= i < |nodes| ==> nodes[i].area != src
    modifies b`len, b`seg, b.area
    ensures Views(nodes, f) && src[..] == old(src[..]) && next == NodeAt(nodes, k + 1)
    ensures take == Min(to - from, e[k].room) && f == e[k := Fill(e[k], src[from..to])]
  {
    assert b.Ok() && b.seg == e[k] && b.chain == NodeAt(nodes, k + 1);
    next := b.chain;
    take := b.FillFrom(src, from, to);
    assert Links(nodes) && Except(nodes, e, k);
    ViewsBack(nodes, e, k);
    f := e[k := b.seg];
  }

  /** The same, told against the whole copy. */
  method FillNext(b: Pbuf, src: array<Byte>, total: nat, n: nat, ghost nodes: seq<Pbuf>, ghost goal: Goal, ghost c: Chain, ghost e: Chain, ghost k: nat)
    returns (sum: nat, next: Pbuf?, ghost f: Chain)
    requires Views(nodes, e) && k < |nodes| && nodes[k] == b && total <= n <= src.Length
    requires forall i :: 0 <= i < |nodes| ==> nodes[i].area != src
    requires Filling(goal, c, e, k, total, src[total..n])
    modifies b`len, b`seg, b.area
    ensures Views(nodes, f) && src[..] == old(src[..]) && next == NodeAt(nodes, k + 1)
    ensures sum <= n && Filling(goal, c, f, k + 1, sum, src[sum..n])
  {
    ghost var rest := src[total..n];
    FillingStep(goal, c, e, k, total, rest);
    var take;
    take, next, f := FillStep(b, src, total, n, nodes, e, k);
    sum := total + take;
    assert src[sum..n] == rest[take..];
  }

  method CopyInChain(head: Pbuf, src: array<Byte>, n: nat, ghost nodes: seq<Pbuf>, ghost c: Chain) returns (total: nat, ghost e: Chain)
    requires Views(nodes, c) && nodes[0] == head && n <= src.Length
    requires forall i :: 0 <= i < |nodes| ==> nodes[i].area != src
    modifies nodes`len, nodes`seg, Areas(nodes)
    ensures total == Taken(c, n) && e == CopyIn(c, src[..n]) && Views(nodes, e) && src[..] == old(src[..])
  {
    total := 0;
    e := c;
    var b: Pbuf? := head;
    ghost var k, goal := 0, Goal(CopyIn(c, src[..n]), Taken(c, n));
    assert src[0..n] == src[..n];
    FillingStarts(c, src[..n]);
    while b != null && total < n
      invariant 0 <= k <= |nodes| && b == NodeAt(nodes, k) && total <= n && src[..] == old(src[..])
      invariant Views(nodes, e) && Filling(goal, c, e, k, total, src[total..n])
      decreases |nodes| - k
    {
      total, b, e := FillNext(b, src, total, n, nodes, goal, c, e, k);
      k := k + 1;
    }
    FillingDone(goal, c, e, k, total, src[total..n]);
  }

  method CopyInSum(head: Pbuf, src: array<Byte>, n: nat, ghost nodes: seq<Pbuf>, ghost c: Chain) returns (total: nat, ghost e: Chain)
    requires Views(nodes, c) && nodes[0] == head && n <= src.Length
    requires forall i :: 0 <= i < |nodes| ==> nodes[i].area != src
    modifies nodes`len, nodes`seg, Areas(nodes)
    ensures total == Taken(c, n) <= n && e == CopyIn(c, src[..n]) && Views(nodes, e) && src[..] == old(src[..])
    ensures |Flat(e)| == |Flat(c)| + total && head.chainlen == old(head.chainlen)
  {
    total, e := CopyInChain(head, src, n, nodes, c);
    CopyInGrows(c, src[..n]);
  }

  /** `buf_copyin`: fill across the chain, clamped at its capacity. */
  method CopyInPlace(head: Pbuf, src: array<Byte>, n: nat, ghost nodes: seq<Pbuf>, ghost c: Chain) returns (total: nat, ghost e: Chain)
    requires Counts(nodes, c) && nodes[0] == head && n <= src.Length && n < 0x1_0000
    requires forall i :: 0 <= i < |nodes| ==> nodes[i].area != src
    modifies nodes`len, nodes`seg, head`chainlen, Areas(nodes)
    ensures total == Taken(c, n) && e == CopyIn(c, src[..n]) && Counts(nodes, e) && src[..] == old(src[..])
  {
    total, e := CopyInSum(head, src, n, nodes, c);
    AddShort(head, total, nodes, e, |Flat(c)|);
  }

  // ---- copying out ----------------------------------------------------------------------------------------

  lemma FlatDrop(c: Chain, k: nat)
    requires k < |c|
    ensures Flat(c[k..]) == c[k].bytes + Flat(c[k + 1..])
  {
    assert c[k..][1..] == c[k + 1..] && c[k..][0] == c[k];
  }

  /** Copy the front of one buffer's valid bytes. */
  method CopyFrom(b: Pbuf, dst: array<Byte>, at: nat, want: nat) returns (take: nat)
    requires b.Ok() && dst != b.area && at + want <= dst.Length
    modifies dst
    ensures take == Min(want, |b.seg.bytes|) && dst[..at] == old(dst[..at]) && dst[at..at + take] == b.seg.bytes[..take]
  {
    take := if want < b.len then want else b.len;
    ghost var bytes := b.seg.bytes;
    CopyOctets(dst, at, b.area, b.data, take);
    assert bytes[..take] == b.area[b.data..b.data + take];
    assert dst[..at] == dst[..at + take][..at] && dst[at..at + take] == dst[..at + take][at..];
  }

  /** What has come out so far, and what is still in the chain. */
  ghost predicate Emptying(all: Octets, front: Octets, c: Chain, k: nat) {
    k <= |c| && all == front + Flat(c[k..])
  }

  lemma EmptyingStep(all: Octets, front: Octets, c: Chain, k: nat)
    requires Emptying(all, front, c, k) && k < |c|
    ensures all == front + (c[k].bytes + Flat(c[k + 1..])) && Emptying(all, front + c[k].bytes, c, k + 1)
  {
    FlatDrop(c, k);
    Assoc(front, c[k].bytes, Flat(c[k + 1..]));
  }

  lemma OutStep(all: Octets, front: Octets, bytes: Octets, rest: Octets, take: nat)
    requires take <= |bytes| && all == front + (bytes + rest)
    ensures |front| + take <= |all| && front + bytes[..take] == all[..|front| + take]
  {
  }

  /** One buffer's share of a copy out. */
  method DrainNext(b: Pbuf, dst: array<Byte>, n: nat, ghost all: Octets, ghost front: Octets, ghost c: Chain, ghost k: nat, total: nat)
    returns (take: nat, ghost out: Octets)
    requires b.Ok() && dst != b.area && k < |c| && b.seg == c[k] && total <= n <= dst.Length
    requires Emptying(all, front, c, k) && dst[..total] == front
    modifies dst
    ensures take == Min(n - total, |c[k].bytes|) && total + take <= |all|
    ensures out == all[..total + take] && dst[..total + take] == out
    ensures total + take < n ==> Emptying(all, out, c, k + 1)
  {
    take := CopyFrom(b, dst, total, n - total);
    EmptyingStep(all, front, c, k);
    OutStep(all, front, c[k].bytes, Flat(c[k + 1..]), take);
    out := front + c[k].bytes[..take];
    assert dst[..total + take] == dst[..total] + dst[total..total + take] == out;
  }

  ghost predicate Drained(all: Octets, out: Octets, c: Chain, k: nat, n: nat) {
    |out| <= n && out <= all && (|out| < n ==> Emptying(all, out, c, k))
  }

  lemma DrainStarts(c: Chain, n: nat)
    ensures Drained(Flat(c), [], c, 0, n)
  {
    assert c[0..] == c;
  }

  lemma DrainDone(out: Octets, c: Chain, k: nat, n: nat)
    requires Drained(Flat(c), out, c, k, n) && (|out| == n || k == |c|)
    ensures out == CopyOut(c, n)
  {
    assert c[|c|..] == [];
  }

  method DrainStep(b: Pbuf, dst: array<Byte>, n: nat, ghost nodes: seq<Pbuf>, ghost all: Octets, ghost front: Octets, ghost c: Chain, ghost k: nat, total: nat)
    returns (take: nat, next: Pbuf?, ghost out: Octets)
    requires Views(nodes, c) && k < |nodes| && nodes[k] == b && total <= n <= dst.Length
    requires forall i :: 0 <= i < |nodes| ==> nodes[i].area != dst
    requires Drained(all, front, c, k, n) && total < n && dst[..total] == front
    modifies dst
    ensures Views(nodes, c) && next == NodeAt(nodes, k + 1)
    ensures total + take <= n && dst[..total + take] == out && Drained(all, out, c, k + 1, n)
  {
    take, out := DrainNext(b, dst, n, all, front, c, k, total);
    next := b.chain;
    assert Links(nodes) && Except(nodes, c, |c|);
    ViewsWhole(nodes, c);
  }

  /** A copy out under way: at buffer `b`, the destination holding `out` so far. */
  ghost predicate Drawing(b: Pbuf?, dst: array<Byte>, n: nat, nodes: seq<Pbuf>, c: Chain, k: nat, total: nat, out: Octets)
    reads dst, nodes, Areas(nodes)
  {
    && k <= |nodes| && b == NodeAt(nodes, k) && total <= n <= dst.Length && Views(nodes, c)
    && dst[..total] == out && Drained(Flat(c), out, c, k, n)
  }

  /** `buf_copyout`: read from the front, across the chain. */
  method CopyOutOf(head: Pbuf, dst: array<Byte>, n: nat, ghost nodes: seq<Pbuf>, ghost c: Chain) returns (total: nat)
    requires Views(nodes, c) && nodes[0] == head && n <= dst.Length
    requires forall i :: 0 <= i < |nodes| ==> nodes[i].area != dst
    modifies dst
    ensures total == |CopyOut(c, n)| && dst[..total] == CopyOut(c, n) && Views(nodes, c)
  {
    total := 0;
    var b: Pbuf? := head;
    ghost var k, out: Octets := 0, [];
    DrainStarts(c, n);
    while b != null && total < n
      invariant 0 <= k <= |nodes| && Drawing(b, dst, n, nodes, c, k, total, out)
      decreases |nodes| - k
    {
      var take;
      take, b, out := DrainStep(b, dst, n, nodes, Flat(c), out, c, k, total);
      total := total + take;
      k := k + 1;
    }
    DrainDone(out, c, k, n);
  }
}
