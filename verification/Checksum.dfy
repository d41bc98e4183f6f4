/** The Internet checksum over a range of a buffer chain (src/nsfcksum.c; RFC 1071): the byte-at-a-time
    parity sum refines the big-endian word sum, wherever the buffers' boundaries fall. */
module Checksum {
  import opened Bytes
  import opened Chains
  import opened Pbufs

  // ---- the reference: big-endian words, an odd last octet padded with zero ------------------------

  function WordSum(s: Octets): nat {
    if s == [] then 0
    else if |s| == 1 then s[0] * 0x100
    else Get16(s, 0) + WordSum(s[2..])
  }

  /** The representative of a nonzero multiple of 0xFFFF is 0xFFFF, and zero stands only for zero. */
  function Ones(n: nat): (r: Half) {
    if n == 0 then 0 else (n - 1) % 0xFFFF + 1
  }

  function Cksum(s: Octets): (r: Half) {
    0xFFFF - Ones(WordSum(s))
  }

  /** The part of the packet from `off` on, at most `len` octets of it. */
  function Range(s: Octets, off: nat, len: nat): (r: Octets) {
    var from := Min(off, |s|);
    s[from..from + Min(len, |s| - from)]
  }

  // ---- octets by parity -----------------------------------------------------------------------------

  /** What an octet counts for in its word. */
  function Weight(x: Byte, low: bool): nat { if low then x else x * 0x100 }

  function ParitySum(s: Octets, odd: bool): nat {
    if s == [] then 0 else Weight(s[0], odd) + ParitySum(s[1..], !odd)
  }

  predicate Odd(n: nat) { n % 2 == 1 }

  lemma {:induction false} ParityIsWords(s: Octets)
    ensures ParitySum(s, false) == WordSum(s)
    decreases |s|
  {
    if |s| >= 2 {
      assert s[1..][1..] == s[2..] && s[1..][0] == s[1];
      ParityIsWords(s[2..]);
    }
  }

  lemma {:induction false} ParityAppend(a: Octets, b: Octets, odd: bool)
    ensures ParitySum(a + b, odd) == ParitySum(a, odd) + ParitySum(b, odd != Odd(|a|))
    decreases |a|
  {
    if a == [] {
      assert a + b == b;
    } else {
      assert (a + b)[1..] == a[1..] + b;
      ParityAppend(a[1..], b, !odd);
    }
  }

  lemma WordAppend(a: Octets, b: Octets)
    requires !Odd(|a|)
    ensures WordSum(a + b) == WordSum(a) + WordSum(b)
  {
    ParityIsWords(a);
    ParityIsWords(b);
    ParityIsWords(a + b);
    ParityAppend(a, b, false);
  }

  ghost predicate Composes(a: Octets, b: Octets) {
    WordSum(a + b) == WordSum(a) + WordSum(b)
  }

  /** Regions chain through the seed, whatever follows, exactly when the first has even length. */
  lemma ComposesIffEven(a: Octets)
    ensures !Odd(|a|) <==> forall b: Octets :: Composes(a, b)
  {
    if !Odd(|a|) {
      forall b: Octets ensures Composes(a, b) { WordAppend(a, b); }
    } else {
      var b: Octets := [1];
      ParityIsWords(a);
      ParityIsWords(a + b);
      ParityAppend(a, b, false);
      assert b[1..] == [];
      assert ParitySum(b, true) == 1 && WordSum(b) == 0x100;
      assert !Composes(a, b);
    }
  }

  /** A range of at most 65535 octets adds at most 32768 words. */
  lemma {:induction false} WordBound(s: Octets)
    ensures WordSum(s) <= (|s| + 1) / 2 * 0xFFFF
    decreases |s|
  {
    if |s| >= 2 { WordBound(s[2..]); }
  }

  // ---- the walk -----------------------------------------------------------------------------------------

  lemma RangeSkips(bytes: Octets, rest: Octets, need: nat, len: nat)
    requires need >= |bytes|
    ensures Range(bytes + rest, need, len) == Range(rest, need - |bytes|, len)
  {
  }

  lemma RangeSplits(bytes: Octets, rest: Octets, need: nat, len: nat)
    requires need <= |bytes|
    ensures Range(bytes + rest, need, len)
      == bytes[need..need + Min(len, |bytes| - need)] + Range(rest, 0, len - Min(len, |bytes| - need))
  {
  }

  lemma RangeNone(s: Octets, off: nat)
    ensures Range(s, off, 0) == []
  {
  }

  /** Add one octet's share to a 32-bit sum; `carries` counts what falls out of the top. */
  method AddOctet(sum: Word, x: Byte, low: bool, ghost carries: nat) returns (r: Word, ghost c: nat)
    ensures c >= carries && r + c * 0x1_0000_0000 == sum + carries * 0x1_0000_0000 + Weight(x, low)
  {
    var y: int := x;
    y := if low then y else y * 0x100;
    if sum + y < 0x1_0000_0000 {
      r, c := sum + y, carries;
    } else {
      r, c := sum + y - 0x1_0000_0000, carries + 1;
    }
  }

  lemma ParityNext(s: Octets, n: nat, low: bool)
    requires n < |s|
    ensures ParitySum(s[n..], low) == Weight(s[n], low) + ParitySum(s[n + 1..], !low)
  {
    assert s[n..][1..] == s[n + 1..];
  }

  /** Sum the octets of one buffer from `from` on, at most `want` of them, in 32-bit arithmetic. */
  method SumBuffer(p: Pbuf, from: nat, want: nat, odd: bool, seed: Word, ghost before: nat) returns (sum: Word, n: nat, ghost carries: nat)
    requires p.Ok() && from <= |p.seg.bytes|
    ensures n == Min(want, |p.seg.bytes| - from) && carries >= before
    ensures sum + carries * 0x1_0000_0000 == seed + before * 0x1_0000_0000 + ParitySum(p.seg.bytes[from..from + n], odd)
  {
    sum, n, carries := seed, 0, before;
    ghost var part := p.seg.bytes[from..from + Min(want, |p.seg.bytes| - from)];
    var low := odd;
    assert part[0..] == part;
    while from + n < p.len && n < want
      invariant n <= |part| && carries >= before && low == (odd != Odd(n))
      invariant sum + carries * 0x1_0000_0000 + ParitySum(part[n..], low) == seed + before * 0x1_0000_0000 + ParitySum(part, odd)
      decreases want - n
    {
      ParityNext(part, n, low);
      assert part[n] == p.seg.bytes[from + n] == p.area[p.data + from + n];
      sum, carries := AddOctet(sum, p.area[p.data + from + n], low, carries);
      low := !low;
      n := n + 1;
    }
    assert part[|part|..] == [];
  }

  /** What is still to be summed of the packet's remaining octets. */
  ghost function ToCome(s: Octets, off: nat, skipped: nat, len: nat, taken: nat): nat
    requires skipped <= off && taken <= len
  {
    ParitySum(Range(s, off - skipped, len - taken), Odd(taken))
  }

  lemma ToComeSplits(bytes: Octets, rest: Octets, off: nat, skipped: nat, len: nat, taken: nat)
    requires skipped <= off && taken < len && off - skipped <= |bytes|
    ensures var need := off - skipped; var n := Min(len - taken, |bytes| - need);
      ToCome(bytes + rest, off, skipped, len, taken)
        == ParitySum(bytes[need..need + n], Odd(taken)) + ToCome(rest, off, off, len, taken + n)
  {
    var need := off - skipped;
    var n := Min(len - taken, |bytes| - need);
    RangeSplits(bytes, rest, need, len - taken);
    ParityAppend(bytes[need..need + n], Range(rest, 0, len - taken - n), Odd(taken));
    assert (Odd(taken) != Odd(n)) == Odd(taken + n);
  }

  /** One buffer of the walk: skip it whole, or sum what of it is in range. */
  method SumStep(p: Pbuf, off: nat, len: nat, skipped: nat, taken: nat, seed: Word, ghost before: nat, ghost bytes: Octets, ghost rest: Octets)
    returns (skipped': nat, taken': nat, sum: Word, ghost carries: nat)
    requires p.Ok() && p.seg.bytes == bytes && skipped <= off && taken < len && (skipped < off ==> taken == 0)
    ensures skipped' <= off && taken' <= len && (skipped' < off ==> taken' == 0)
    ensures sum + carries * 0x1_0000_0000 + ToCome(rest, off, skipped', len, taken')
      == seed + before * 0x1_0000_0000 + ToCome(bytes + rest, off, skipped, len, taken)
  {
    var need := off - skipped;
    if skipped < off && need >= p.len {
      RangeSkips(bytes, rest, need, len - taken);
      return skipped + p.len, taken, seed, before;
    }
    ToComeSplits(bytes, rest, off, skipped, len, taken);
    var n;
    sum, n, carries := SumBuffer(p, need, len - taken, taken % 2 == 1, seed, before);
    skipped' := off;
    taken' := taken + n;
  }

  /** The walk over the chain; `carries` counts what fell out of the top. */
  method Walk(head: Pbuf, off: nat, len: nat, seed: Word, ghost nodes: seq<Pbuf>, ghost c: Chain) returns (sum: Word, ghost carries: nat)
    requires Views(nodes, c) && nodes[0] == head
    ensures sum + carries * 0x1_0000_0000 == seed + WordSum(Range(Flat(c), off, len))
  {
    sum, carries := seed, 0;
    var skipped: nat, taken: nat := 0, 0;
    var p: Pbuf? := head;
    ghost var k := 0;
    ParityIsWords(Range(Flat(c), off, len));
    assert c[0..] == c;
    while p != null && taken < len
      invariant k <= |nodes| && p == NodeAt(nodes, k) && skipped <= off && taken <= len && (skipped < off ==> taken == 0)
      invariant sum + carries * 0x1_0000_0000 + ToCome(Flat(c[k..]), off, skipped, len, taken) == seed + ToCome(Flat(c), off, 0, len, 0)
      decreases |nodes| - k
    {
      FlatDrop(c, k);
      skipped, taken, sum, carries := SumStep(p, off, len, skipped, taken, sum, carries, c[k].bytes, Flat(c[k + 1..]));
      p := p.chain;
      k := k + 1;
    }
    assert ToCome(Flat(c[k..]), off, skipped, len, taken) == 0 by {
      RangeNone(Flat(c[k..]), off - skipped);
      if k == |nodes| { assert Flat(c[k..]) == []; }
    }
  }

  lemma {:induction false} LowWord(sum: Word, carries: nat, total: nat)
    requires sum + carries * 0x1_0000_0000 == total
    ensures sum == total % 0x1_0000_0000
  {
    if carries > 0 {
      LowWord(sum, carries - 1, total - 0x1_0000_0000);
    }
  }

  /** `in_cksum_partial`: seed plus the word sum of the range, in 32-bit arithmetic. */
  method InCksumPartial(head: Pbuf, off: nat, len: nat, seed: Word, ghost nodes: seq<Pbuf>, ghost c: Chain) returns (sum: Word)
    requires Views(nodes, c) && nodes[0] == head
    ensures sum == (seed + WordSum(Range(Flat(c), off, len))) % 0x1_0000_0000
  {
    ghost var carries;
    sum, carries := Walk(head, off, len, seed, nodes, c);
    LowWord(sum, carries, seed + WordSum(Range(Flat(c), off, len)));
  }

  /** For every range a halfword can name and every seed that leaves 32768 words of room, nothing is
      lost to 32-bit arithmetic. */
  lemma NoOverflow(s: Octets, off: nat, len: nat, seed: Word)
    requires len <= 0xFFFF && seed <= 0xFFFF_FFFF - 32768 * 0xFFFF
    ensures (seed + WordSum(Range(s, off, len))) % 0x1_0000_0000 == seed + WordSum(Range(s, off, len))
  {
    WordBound(Range(s, off, len));
  }

  // ---- folding --------------------------------------------------------------------------------------------

  lemma FoldOnce(sum: nat)
    ensures Ones(sum % 0x1_0000 + sum / 0x1_0000) == Ones(sum)
  {
    var hi := sum / 0x1_0000;
    var next := sum % 0x1_0000 + hi;
    assert next == sum - hi * 0xFFFF;
    if sum > 0 {
      assert next > 0;
      SameOnes(next, sum, hi);
    }
  }

  lemma SameOnes(a: nat, b: nat, k: nat)
    requires a > 0 && b == a + k * 0xFFFF
    ensures Ones(b) == Ones(a)
  {
    Shift(a - 1, k);
  }

  lemma {:induction false} Shift(a: nat, k: nat)
    ensures (a + k * 0xFFFF) % 0xFFFF == a % 0xFFFF
  {
    if k > 0 {
      Shift(a, k - 1);
      assert (a + (k - 1) * 0xFFFF + 0xFFFF) % 0xFFFF == (a + (k - 1) * 0xFFFF) % 0xFFFF;
    }
  }

  /** `in_cksum_fold`: end-around carries until none is left, then the complement. */
  method InCksumFold(partial: Word) returns (r: Half)
    ensures r == 0xFFFF - Ones(partial)
  {
    var sum := partial;
    while sum / 0x1_0000 != 0
      invariant 0 <= sum && Ones(sum) == Ones(partial)
      decreases sum
    {
      FoldOnce(sum);
      sum := sum % 0x1_0000 + sum / 0x1_0000;
    }
    if sum > 0 { assert (sum - 1) % 0xFFFF == sum - 1; }
    r := 0xFFFF - sum;
  }

  /** `in_cksum`: the one's complement of the one's complement sum of the range. */
  method InCksum(head: Pbuf, off: nat, len: nat, ghost nodes: seq<Pbuf>, ghost c: Chain) returns (r: Half)
    requires Views(nodes, c) && nodes[0] == head && len <= 0xFFFF
    ensures r == Cksum(Range(Flat(c), off, len))
  {
    var sum := InCksumPartial(head, off, len, 0, nodes, c);
    NoOverflow(Flat(c), off, len, 0);
    r := InCksumFold(sum);
  }

  // ---- what the checksum is for -----------------------------------------------------------------------

  lemma WordAt(s: Octets, at: nat)
    requires at + 2 <= |s| && !Odd(at)
    ensures WordSum(s) == WordSum(s[..at]) + Get16(s, at) + WordSum(s[at + 2..])
  {
    assert s == s[..at] + s[at..] && s[at..][2..] == s[at + 2..];
    WordAppend(s[..at], s[at..]);
    assert s[at..][0] == s[at] && s[at..][1] == s[at + 1];
  }

  lemma WordReplaced(s: Octets, at: nat, v: Half)
    requires at + 2 <= |s| && !Odd(at)
    ensures WordSum(Overlay(s, at, Put16(v))) == WordSum(s) - Get16(s, at) + v
  {
    var t := Overlay(s, at, Put16(v));
    WordAt(s, at);
    WordAt(t, at);
    Get16Of(t, at, v);
    assert t[..at] == s[..at] && t[at + 2..] == s[at + 2..];
  }

  lemma OnesFull(n: nat)
    ensures Ones(n + (0xFFFF - Ones(n))) == 0xFFFF
  {
    if n > 0 {
      var k := (n - 1) / 0xFFFF;
      assert n == Ones(n) + k * 0xFFFF;
      SameOnes(0xFFFF, n + (0xFFFF - Ones(n)), k);
    }
  }

  /** Storing the checksum of a region in its own zeroed, even-offset field makes the region verify. */
  lemma StoredVerifies(s: Octets, at: nat)
    requires at + 2 <= |s| && !Odd(at) && Get16(s, at) == 0
    ensures Cksum(Overlay(s, at, Put16(Cksum(s)))) == 0
  {
    WordReplaced(s, at, Cksum(s));
    OnesFull(WordSum(s));
  }

  /** A sum folds to all ones exactly when it is a nonzero multiple of 0xFFFF. */
  lemma Multiple(n: nat)
    ensures Ones(n) == 0xFFFF <==> n > 0 && n % 0xFFFF == 0
  {
    if n > 0 {
      var q, r := (n - 1) / 0xFFFF, (n - 1) % 0xFFFF;
      assert n == q * 0xFFFF + r + 1;
      if r == 0xFFFE {
        Shift(0, q + 1);
      } else {
        Shift(r + 1, q);
      }
    }
  }

  lemma OnesChange(rest: nat, was: Half, v: Half)
    requires Ones(rest + was) == 0xFFFF
    ensures Ones(rest + v) == 0xFFFF <==> v == was || (v == 0xFFFF && was == 0) || (v == 0 && was == 0xFFFF && rest > 0)
  {
    Multiple(rest + was);
    Multiple(rest + v);
    var q := (rest + was) / 0xFFFF;
    assert rest == q * 0xFFFF - was;
    NearMultiple(rest + v, q, v - was);
  }

  lemma NearMultiple(n: nat, q: nat, d: int)
    requires -0xFFFF <= d <= 0xFFFF && n == q * 0xFFFF + d
    ensures n % 0xFFFF == 0 <==> d == 0 || d == 0xFFFF || d == -0xFFFF
  {
    if d == -0xFFFF { assert n == (q - 1) * 0xFFFF; }
    else if d < 0 { assert n == (q - 1) * 0xFFFF + (0xFFFF + d); }
  }

  /** ... and that field is the only one that verifies, but for the two forms of zero. */
  lemma OnlyStoredVerifies(s: Octets, at: nat, v: Half)
    requires at + 2 <= |s| && !Odd(at) && Cksum(s) == 0
    ensures var was := Get16(s, at); var t := Overlay(s, at, Put16(v));
      Cksum(t) == 0 <==> v == was || (v == 0xFFFF && was == 0) || (v == 0 && was == 0xFFFF && WordSum(t) > 0)
  {
    WordReplaced(s, at, v);
    WordAt(s, at);
    OnesChange(WordSum(s) - Get16(s, at), Get16(s, at), v);
  }
}
