/** Octets, octet strings and the big-endian halfwords and fullwords every wire format here uses. */
module Bytes {

  type Byte = x: int | 0 <= x < 0x100
  type Half = x: int | 0 <= x < 0x1_0000
  type Word = x: int | 0 <= x < 0x1_0000_0000

  type Octets = seq<Byte>

  function Pow2(n: nat): (p: nat)
    ensures p > 0
  {
    if n == 0 then 1 else 2 * Pow2(n - 1)
  }

  function Get16(s: Octets, off: nat): (v: Half)
    requires off + 2 <= |s|
  {
    s[off] as int * 0x100 + s[off + 1] as int
  }

  function Get32(s: Octets, off: nat): (v: Word)
    requires off + 4 <= |s|
  {
    s[off] as int * 0x100_0000 + s[off + 1] as int * 0x1_0000 + s[off + 2] as int * 0x100 + s[off + 3] as int
  }

  function Put16(v: Half): (s: Octets)
    ensures |s| == 2 && Get16(s, 0) == v
  {
    [v / 0x100, v % 0x100]
  }

  function Put32(v: Word): (s: Octets)
    ensures |s| == 4 && Get32(s, 0) == v
  {
    [v / 0x100_0000, v / 0x1_0000 % 0x100, v / 0x100 % 0x100, v % 0x100]
  }

  /** `s` with the octets of `patch` written over it from offset `at`. */
  function Overlay(s: Octets, at: nat, patch: Octets): (r: Octets)
    requires at + |patch| <= |s|
    ensures |r| == |s|
    ensures r[at..at + |patch|] == patch
    ensures forall i :: 0 <= i < |s| && !(at <= i < at + |patch|) ==> r[i] == s[i]
  {
    s[..at] + patch + s[at + |patch|..]
  }

  lemma SplitSlice(s: Octets, lo: nat, hi: nat, a: Octets, b: Octets)
    requires lo <= hi <= |s| && s[lo..hi] == a + b
    ensures lo + |a| + |b| == hi
    ensures s[lo..lo + |a|] == a && s[lo + |a|..hi] == b
  {
    assert s[lo..lo + |a|] == s[lo..hi][..|a|];
    assert s[lo + |a|..hi] == s[lo..hi][|a|..];
  }

  lemma Get16Of(s: Octets, off: nat, v: Half)
    requires off + 2 <= |s| && s[off..off + 2] == Put16(v)
    ensures Get16(s, off) == v
  {
    assert s[off] == s[off..off + 2][0] && s[off + 1] == s[off..off + 2][1];
  }
}
