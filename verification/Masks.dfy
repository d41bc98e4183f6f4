/** The SELECT descriptor masks (src/nsfeza.c): fullwords of 32 bits numbered from the right, kept as
    big-endian octets. */
module Masks {
  import opened Bytes

  /** Bit `j` of `x`, counted from the low end. */
  predicate Bit(x: nat, j: nat) {
    if j == 0 then x % 2 == 1 else Bit(x / 2, j - 1)
  }

  function WithBit(x: nat, j: nat): nat {
    if j == 0 then x / 2 * 2 + 1 else WithBit(x / 2, j - 1) * 2 + x % 2
  }

  lemma {:induction false} WithBitSets(x: nat, j: nat, i: nat)
    ensures Bit(WithBit(x, j), i) <==> i == j || Bit(x, i)
  {
    if j == 0 {
      assert WithBit(x, 0) / 2 == x / 2;
    } else {
      assert WithBit(x, j) / 2 == WithBit(x / 2, j - 1);
      if i > 0 { WithBitSets(x / 2, j - 1, i - 1); }
    }
  }

  lemma {:induction false} WithBitFits(x: nat, j: nat, w: nat)
    requires j < w && x < Pow2(w)
    ensures WithBit(x, j) < Pow2(w)
  {
    if j > 0 { WithBitFits(x / 2, j - 1, w - 1); }
  }

  /** Where number `n` lives: the octet, and the bit in it. */
  function Octet(n: nat): nat { n / 32 * 4 + 3 - n % 32 / 8 }

  /** A number from its fullword, its octet in that, and its bit. */
  lemma Parts(n: nat) returns (word: nat, octet: nat, bit: nat)
    ensures n == 32 * word + 8 * octet + bit && octet < 4 && bit == n % 8
    ensures Octet(n) == 4 * word + 3 - octet
  {
    word, octet, bit := n / 32, n % 32 / 8, n % 8;
    assert n % 32 == 8 * octet + n % 32 % 8;
  }

  lemma OneBit(n: nat, m: nat)
    ensures Octet(n) == Octet(m) && n % 8 == m % 8 ==> n == m
  {
    var a, b, c := Parts(n);
    var d, e, f := Parts(m);
  }

  lemma OctetInside(n: nat, words: nat)
    ensures n < 32 * words <==> Octet(n) < 4 * words
  {
  }

  /** `mask_get` */
  predicate MaskBit(mask: Octets, n: nat) {
    Octet(n) < |mask| && Bit(mask[Octet(n)], n % 8)
  }

  function Set(x: Byte, j: nat): (y: Byte)
    requires j < 8
  {
    assert Pow2(8) == 0x100;
    WithBitFits(x, j, 8);
    WithBit(x, j)
  }

  /** `mask_set` sets its own bit and no other. */
  lemma SetIsOne(mask: Octets, n: nat, m: nat)
    requires Octet(n) < |mask|
    ensures MaskBit(mask[Octet(n) := Set(mask[Octet(n)], n % 8)], m) <==> m == n || MaskBit(mask, m)
  {
    OneBit(n, m);
    WithBitSets(mask[Octet(n)], n % 8, m % 8);
  }

  // ---- the fullword reading ---------------------------------------------------------------------------

  lemma {:induction false} BitLow(hi: nat, lo: nat, w: nat, j: nat)
    requires lo < Pow2(w) && j < w
    ensures Bit(hi * Pow2(w) + lo, j) == Bit(lo, j)
  {
    var p := Pow2(w - 1);
    assert hi * Pow2(w) == 2 * (hi * p);
    assert (2 * (hi * p) + lo) % 2 == lo % 2 && (2 * (hi * p) + lo) / 2 == hi * p + lo / 2;
    if j > 0 { BitLow(hi, lo / 2, w - 1, j - 1); }
  }

  lemma {:induction false} BitHigh(hi: nat, lo: nat, w: nat, j: nat)
    requires lo < Pow2(w) && j >= w
    ensures Bit(hi * Pow2(w) + lo, j) == Bit(hi, j - w)
  {
    if w > 0 {
      var p := Pow2(w - 1);
      assert hi * Pow2(w) == 2 * (hi * p);
      assert (2 * (hi * p) + lo) / 2 == hi * p + lo / 2;
      BitHigh(hi, lo / 2, w - 1, j - 1);
    }
  }

  lemma BitUpper(hi: nat, d: Byte, j: nat)
    requires j >= 8
    ensures Bit(hi * 0x100 + d, j) == Bit(hi, j - 8)
  {
    Eight();
    BitHigh(hi, d, 8, j);
  }

  lemma BitLower(hi: nat, d: Byte, j: nat)
    requires j < 8
    ensures Bit(hi * 0x100 + d, j) == Bit(d, j)
  {
    Eight();
    BitLow(hi, d, 8, j);
  }

  /** Bits of a fullword, octet by octet. */
  lemma FullwordBit(a: Byte, b: Byte, c: Byte, d: Byte, j: nat)
    requires j < 32
    ensures Bit(((a * 0x100 + b) * 0x100 + c) * 0x100 + d, j)
      == Bit(if j < 8 then d else if j < 16 then c else if j < 24 then b else a, j % 8)
  {
    var ab := a * 0x100 + b;
    var abc := ab * 0x100 + c;
    if j < 8 {
      BitLower(abc, d, j);
    } else if j < 16 {
      BitUpper(abc, d, j);
      BitLower(ab, c, j - 8);
    } else if j < 24 {
      BitUpper(abc, d, j);
      BitUpper(ab, c, j - 8);
      BitLower(a, b, j - 16);
    } else {
      BitUpper(abc, d, j);
      BitUpper(ab, c, j - 8);
      BitUpper(a, b, j - 16);
    }
  }

  /** Number `n` is bit `n mod 32`, counted from the low end, of fullword `n div 32`. */
  lemma RightToLeft(mask: Octets, n: nat)
    requires n / 32 * 4 + 4 <= |mask|
    ensures MaskBit(mask, n) == Bit(Get32(mask, n / 32 * 4), n % 32)
  {
    var at, j := n / 32 * 4, n % 32;
    FullwordBit(mask[at], mask[at + 1], mask[at + 2], mask[at + 3], j);
    assert n % 8 == j % 8;
  }

  lemma Eight()
    ensures Pow2(8) == 0x100
  {
  }
}
