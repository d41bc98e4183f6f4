/** Packet buffer chains as values (src/nsfbuf.c): a packet is the concatenation of its buffers' valid
    bytes; each buffer also has room left behind them. */
module Chains {
  import opened Bytes

  datatype Seg = Seg(bytes: Octets, room: nat)

  type Chain = seq<Seg>

  function Flat(c: Chain): (r: Octets) {
    if c == [] then [] else c[0].bytes + Flat(c[1..])
  }

  /** The length of the packet as far as a halfword can say it. */
  function Walked(c: Chain): (n: nat)
    ensures n <= |Flat(c)| && n < 0x1_0000 && (|Flat(c)| < 0x1_0000 ==> n == |Flat(c)|)
  {
    |Flat(c)| % 0x1_0000
  }

  function Room(c: Chain): nat {
    if c == [] then 0 else c[0].room + Room(c[1..])
  }

  lemma {:induction false} FlatAppend(a: Chain, b: Chain)
    ensures Flat(a + b) == Flat(a) + Flat(b)
  {
    if a == [] {
      assert a + b == b;
    } else {
      assert (a + b)[1..] == a[1..] + b;
      FlatAppend(a[1..], b);
    }
  }

  function Min(a: nat, b: nat): nat { if a < b then a else b }

  // ---- copying in ----------------------------------------------------------------------------------

  /** What one buffer takes into its tail room, and what is left over. */
  function Fill(s: Seg, src: Octets): Seg {
    Seg(s.bytes + src[..Min(|src|, s.room)], s.room - Min(|src|, s.room))
  }

  function Over(s: Seg, src: Octets): Octets {
    src[Min(|src|, s.room)..]
  }

  /** `buf_copyin`: fill the tail room of each buffer in turn, stopping when the source is used up. */
  function CopyIn(c: Chain, src: Octets): (r: Chain)
    ensures |r| == |c|
  {
    if c == [] then [] else [Fill(c[0], src)] + CopyIn(c[1..], Over(c[0], src))
  }

  /** How much of `n` bytes a chain takes. */
  function Taken(c: Chain, n: nat): nat { Min(n, Room(c)) }

  predicate AllEmpty(c: Chain) {
    forall i :: 0 <= i < |c| ==> c[i].bytes == []
  }

  /** Everything behind the first buffer with room is empty. */
  predicate AppendReady(c: Chain) {
    c == [] || (if c[0].room > 0 then AllEmpty(c[1..]) else AppendReady(c[1..]))
  }

  lemma {:induction false} EmptyFlat(c: Chain)
    requires AllEmpty(c)
    ensures Flat(c) == []
  {
    if c != [] {
      assert c[0].bytes == [];
      EmptyFlat(c[1..]);
    }
  }

  lemma {:induction false} CopyInNothing(c: Chain)
    ensures CopyIn(c, []) == c
  {
    if c != [] {
      FillFits(c[0], []);
      assert c[0].bytes + [] == c[0].bytes;
      CopyInNothing(c[1..]);
    }
  }

  lemma FillFits(s: Seg, src: Octets)
    requires |src| <= s.room
    ensures Fill(s, src) == Seg(s.bytes + src, s.room - |src|) && Over(s, src) == []
  {
    assert src[..|src|] == src;
  }

  lemma {:induction false} EmptyReady(c: Chain)
    requires AllEmpty(c)
    ensures AppendReady(c)
  {
    if c != [] {
      assert AllEmpty(c[1..]) by { forall i | 0 <= i < |c[1..]| ensures c[1..][i].bytes == [] { assert c[1..][i] == c[i + 1]; } }
      EmptyReady(c[1..]);
    }
  }

  lemma FillFull(s: Seg, src: Octets)
    requires s.room == 0
    ensures Fill(s, src) == s && Over(s, src) == src
  {
    assert src[..0] == [] && s.bytes + [] == s.bytes;
  }

  lemma FlatCons(s: Seg, c: Chain)
    ensures Flat([s] + c) == s.bytes + Flat(c) && Room([s] + c) == s.room + Room(c)
  {
    assert ([s] + c)[1..] == c;
  }

  /** What goes into the head and what goes into the rest make up what the chain takes. */
  lemma TakenSplit(c: Chain, src: Octets)
    requires c != []
    ensures src[..Taken(c, |src|)] == src[..Min(|src|, c[0].room)] + Over(c[0], src)[..Taken(c[1..], |Over(c[0], src)|)]
  {
  }

  lemma TailEmpty(c: Chain)
    requires c != [] && AllEmpty(c)
    ensures c[0].bytes == [] && AllEmpty(c[1..])
  {
    forall i | 0 <= i < |c[1..]| ensures c[1..][i].bytes == [] { assert c[1..][i] == c[i + 1]; }
  }

  lemma {:induction false} EmptyTakes(c: Chain, src: Octets)
    requires AllEmpty(c)
    ensures Flat(CopyIn(c, src)) == src[..Taken(c, |src|)]
    decreases |c|
  {
    if c == [] {
      assert src[..0] == [];
    } else {
      TailEmpty(c);
      TakenSplit(c, src);
      EmptyTakes(c[1..], Over(c[0], src));
      FlatCons(Fill(c[0], src), CopyIn(c[1..], Over(c[0], src)));
    }
  }

  lemma Assoc(a: Octets, b: Octets, c: Octets)
    ensures (a + b) + c == a + (b + c)
  {
  }

  lemma HeadTakes(c: Chain, src: Octets)
    requires c != [] && AllEmpty(c[1..])
    ensures Flat(CopyIn(c, src)) == c[0].bytes + src[..Taken(c, |src|)]
  {
    var head, rest := src[..Min(|src|, c[0].room)], Over(c[0], src);
    TakenSplit(c, src);
    EmptyTakes(c[1..], rest);
    FlatCons(Fill(c[0], src), CopyIn(c[1..], rest));
    Assoc(c[0].bytes, head, rest[..Taken(c[1..], |rest|)]);
  }

  /** On an append-ready chain a copy in is an append, clamped at the chain's capacity. */
  lemma {:induction false} CopyInAppends(c: Chain, src: Octets)
    requires AppendReady(c)
    ensures Flat(CopyIn(c, src)) == Flat(c) + src[..Taken(c, |src|)]
    decreases |c|
  {
    if c == [] {
      assert src[..0] == [];
    } else {
      if c[0].room == 0 {
        FillFull(c[0], src);
        CopyInAppends(c[1..], src);
        FlatCons(c[0], CopyIn(c[1..], src));
        Assoc(c[0].bytes, Flat(c[1..]), src[..Taken(c, |src|)]);
      } else {
        EmptyFlat(c[1..]);
        HeadTakes(c, src);
      }
    }
  }

  /** ... and leaves the chain append-ready. */
  lemma {:induction false} CopyInStaysReady(c: Chain, src: Octets)
    requires AppendReady(c)
    ensures AppendReady(CopyIn(c, src))
    decreases |c|
  {
    if c != [] {
      assert CopyIn(c, src)[1..] == CopyIn(c[1..], Over(c[0], src));
      if c[0].room == 0 {
        FillFull(c[0], src);
        CopyInStaysReady(c[1..], src);
      } else {
        EmptyReady(c[1..]);
        if |src| < c[0].room {
          FillFits(c[0], src);
          CopyInNothing(c[1..]);
        } else {
          CopyInStaysReady(c[1..], Over(c[0], src));
        }
      }
    }
  }

  /** A chain that is not append-ready puts some byte in the middle of the packet. */
  lemma {:induction false} CopyInInserts(c: Chain) returns (x: Byte)
    requires !AppendReady(c)
    ensures Flat(CopyIn(c, [x])) != Flat(c) + [x] && Taken(c, 1) == 1
  {
    if c[0].room > 0 {
      var tail := Flat(c[1..]);
      NonEmptyFlat(c[1..]);
      x := if tail[0] == 0 then 1 else 0;
      FillFits(c[0], [x]);
      CopyInNothing(c[1..]);
      FlatCons(Fill(c[0], [x]), c[1..]);
      var at := |c[0].bytes|;
      assert (c[0].bytes + [x] + tail)[at] == x && (c[0].bytes + tail + [x])[at] == tail[0];
    } else {
      x := CopyInInserts(c[1..]);
      FillFull(c[0], [x]);
      FlatCons(c[0], CopyIn(c[1..], [x]));
      Assoc(c[0].bytes, Flat(c[1..]), [x]);
      if Flat(CopyIn(c, [x])) == Flat(c) + [x] {
        SamePrefix(c[0].bytes, Flat(CopyIn(c[1..], [x])), Flat(c[1..]) + [x]);
      }
    }
  }

  lemma SamePrefix(a: Octets, b: Octets, c: Octets)
    requires a + b == a + c
    ensures b == c
  {
    assert b == (a + b)[|a|..];
    assert c == (a + c)[|a|..];
  }

  lemma {:induction false} NonEmptyFlat(c: Chain)
    requires !AllEmpty(c)
    ensures Flat(c) != []
  {
    if c[0].bytes == [] {
      var i :| 0 <= i < |c| && c[i].bytes != [];
      assert c[1..][i - 1] == c[i];
      NonEmptyFlat(c[1..]);
    }
  }

  ghost predicate Appends(c: Chain, src: Octets) {
    Flat(CopyIn(c, src)) == Flat(c) + src[..Taken(c, |src|)]
  }

  /** Copying in appends, whatever is copied, exactly on append-ready chains. */
  lemma AppendsIffReady(c: Chain)
    ensures AppendReady(c) <==> forall src: Octets :: Appends(c, src)
  {
    if AppendReady(c) {
      forall src: Octets ensures Appends(c, src) { CopyInAppends(c, src); }
    } else {
      var x := CopyInInserts(c);
      assert [x][..1] == [x];
      assert !Appends(c, [x]);
    }
  }

  // ---- copying out ------------------------------------------------------------------------------------

  /** `buf_copyout`: the first `n` bytes of the packet, or all of it. */
  function CopyOut(c: Chain, n: nat): Octets {
    Flat(c)[..Min(n, |Flat(c)|)]
  }

  /** What was copied in comes out behind what was there. */
  lemma InThenOut(c: Chain, src: Octets)
    requires AppendReady(c)
    ensures CopyOut(CopyIn(c, src), |Flat(c)| + |src|) == Flat(c) + src[..Taken(c, |src|)]
  {
    CopyInAppends(c, src);
  }

  // ---- trimming -----------------------------------------------------------------------------------------

  /** `buf_trim_tail`: drop bytes off the last buffer, if it has that many. */
  function TrimTail(c: Chain, n: nat): (r: (Chain, bool))
    requires c != []
  {
    var last := c[|c| - 1];
    if n > |last.bytes| then (c, false)
    else (c[|c| - 1 := Seg(last.bytes[..|last.bytes| - n], last.room + n)], true)
  }

  lemma FlatSnoc(c: Chain, s: Seg)
    ensures Flat(c + [s]) == Flat(c) + s.bytes
  {
    FlatAppend(c, [s]);
    assert Flat([s]) == s.bytes + Flat([]) == s.bytes;
  }

  /** Trimming shortens the packet by exactly `n` if the last buffer holds that much, and otherwise
      leaves all of it. */
  lemma TrimTailFlat(c: Chain, n: nat)
    requires c != []
    ensures var last := c[|c| - 1];
      if n <= |last.bytes| then n <= |Flat(c)| && Flat(TrimTail(c, n).0) == Flat(c)[..|Flat(c)| - n]
      else TrimTail(c, n).0 == c
  {
    var k := |c| - 1;
    var front, last := c[..k], c[k];
    assert c == front + [last];
    FlatSnoc(front, last);
    if n <= |last.bytes| {
      var cut := Seg(last.bytes[..|last.bytes| - n], last.room + n);
      FlatSnoc(front, cut);
      assert TrimTail(c, n).0 == front + [cut];
    }
  }
}
