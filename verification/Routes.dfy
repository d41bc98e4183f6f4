/** The routing table and the local addresses (src/nsfip.c): longest-mask match, and what that means for
    prefix masks. */
module Routes {
  import opened Options
  import opened Bytes

  const MAX_ROUTES: nat := 16
  const MAX_LOCAL: nat := 8

  /** A device is its index; None is a route whose device is unresolved. */
  datatype Route = Route(net: Word, mask: Word, gw: Word, dev: Option<nat>)

  datatype Hop = Hop(dev: nat, nexthop: Word)

  // ---- masking ------------------------------------------------------------------------------------------

  /** Bitwise and, of `bits` low bits. */
  function And(a: nat, b: nat, bits: nat): (r: nat)
    ensures r <= a && r <= b
  {
    if bits == 0 then 0 else And(a / 2, b / 2, bits - 1) * 2 + (if a % 2 == 1 && b % 2 == 1 then 1 else 0)
  }

  function Masked(a: Word, mask: Word): (r: Word) { And(a, mask, 32) }

  /** The mask of the top `bits - low` of `bits` bits. */
  function Prefix(low: nat, bits: nat): int
    requires low <= bits
  {
    Pow2(bits) - Pow2(low)
  }

  lemma {:induction false} PowUp(a: nat, b: nat)
    requires a <= b
    ensures Pow2(a) <= Pow2(b) && (a < b ==> Pow2(a) < Pow2(b))
  {
    if a < b { PowUp(a, b - 1); }
  }

  lemma {:induction false} AndTwice(a: nat, m: nat, bits: nat)
    ensures And(And(a, m, bits), m, bits) == And(a, m, bits)
  {
    if bits > 0 { AndTwice(a / 2, m / 2, bits - 1); }
  }

  lemma {:induction false} AndAll(a: nat, bits: nat)
    requires a < Pow2(bits)
    ensures And(a, Pow2(bits) - 1, bits) == a
  {
    if bits > 0 {
      assert (Pow2(bits) - 1) / 2 == Pow2(bits - 1) - 1;
      AndAll(a / 2, bits - 1);
    }
  }

  lemma DivPow(a: nat, low: nat)
    ensures a / Pow2(low + 1) == a / 2 / Pow2(low)
  {
    var p := Pow2(low);
    var q, r := a / 2 / p, a / 2 % p;
    assert a / 2 == q * p + r;
    assert a == q * (2 * p) + (2 * r + a % 2);
    assert 2 * r + a % 2 < 2 * p;
    DivIs(a, 2 * p, q, 2 * r + a % 2);
  }

  lemma {:induction false} MulLe(x: nat, y: nat, d: nat)
    requires x <= y
    ensures x * d <= y * d
  {
    if x < y {
      MulLe(x, y - 1, d);
      assert y * d == (y - 1) * d + d;
    }
  }

  lemma MulOrder(x: nat, y: nat, d: nat)
    requires d > 0
    ensures x <= y <==> x * d <= y * d
  {
    if x <= y {
      MulLe(x, y, d);
    } else {
      MulLe(y + 1, x, d);
      assert (y + 1) * d == y * d + d;
    }
  }

  lemma DivIs(a: nat, d: nat, q: nat, r: nat)
    requires a == q * d + r && r < d
    ensures a / d == q
  {
    var k := a / d;
    MulOrder(k + 1, q, d);
    MulOrder(q + 1, k, d);
  }

  lemma PrefixHalf(low: nat, bits: nat)
    requires 0 < low <= bits
    ensures low - 1 <= bits - 1 && Prefix(low, bits) == 2 * Prefix(low - 1, bits - 1)
    ensures Prefix(low - 1, bits - 1) >= 0
  {
    PowUp(low - 1, bits - 1);
  }

  lemma AndEven(a: nat, m: nat, bits: nat)
    requires bits > 0
    ensures And(a, 2 * m, bits) == 2 * And(a / 2, m, bits - 1)
  {
  }

  lemma Whole(a: nat, low: nat)
    requires low > 0
    ensures 2 * (a / 2 / Pow2(low - 1) * Pow2(low - 1)) == a / Pow2(low) * Pow2(low)
  {
    DivPow(a, low - 1);
    var q, p := a / Pow2(low), Pow2(low - 1);
    assert 2 * (q * p) == q * (2 * p);
  }

  /** Masking with a prefix mask drops the low bits. */
  lemma {:induction false} AndPrefix(a: nat, low: nat, bits: nat)
    requires low <= bits && a < Pow2(bits)
    ensures Prefix(low, bits) >= 0 && And(a, Prefix(low, bits), bits) == a / Pow2(low) * Pow2(low)
  {
    PowUp(low, bits);
    if low == 0 {
      AndAll(a, bits);
    } else {
      PrefixHalf(low, bits);
      AndPrefix(a / 2, low - 1, bits - 1);
      AndEven(a, Prefix(low - 1, bits - 1), bits);
      Whole(a, low);
    }
  }

  lemma Pow32()
    ensures Pow2(32) == 0x1_0000_0000
  {
    assert Pow2(8) == 0x100;
    assert Pow2(16) == 0x1_0000 by { assert Pow2(12) == 0x1000; }
    assert Pow2(24) == 0x100_0000 by { assert Pow2(20) == 0x10_0000; }
    assert Pow2(28) == 0x1000_0000;
  }

  predicate Matches(r: Route, dst: Word) {
    r.dev.Some? && Masked(dst, r.mask) == r.net
  }

  lemma Multiples(x: nat, y: nat, d: nat)
    requires d > 0
    ensures x * d == y * d <==> x == y
  {
    MulOrder(x, y, d);
    MulOrder(y, x, d);
  }

  lemma SameFloor(a: nat, b: nat, d: nat)
    requires d > 0
    ensures a / d * d == b / d * d <==> a / d == b / d
  {
    Multiples(a / d, b / d, d);
  }

  lemma MaskedPrefix(a: Word, mask: Word, low: nat)
    requires low <= 32 && mask == Prefix(low, 32)
    ensures Masked(a, mask) == a / Pow2(low) * Pow2(low)
  {
    Pow32();
    AndPrefix(a, low, 32);
  }

  /** A route through a prefix mask covers exactly the addresses that share its network's high bits. */
  lemma PrefixCovers(r: Route, low: nat, net: Word, dst: Word)
    requires low <= 32 && r.dev.Some? && r.mask == Prefix(low, 32) && r.net == Masked(net, r.mask)
    ensures Matches(r, dst) <==> dst / Pow2(low) == net / Pow2(low)
  {
    MaskedPrefix(dst, r.mask, low);
    MaskedPrefix(net, r.mask, low);
    SameFloor(dst, net, Pow2(low));
  }

  /** Of two prefix masks the larger is the longer. */
  lemma LargerIsLonger(low: nat, high: nat)
    requires low <= 32 && high <= 32
    ensures Prefix(low, 32) > Prefix(high, 32) <==> low < high
  {
    PowUp(low, 32);
    PowUp(high, 32);
    if low <= high { PowUp(low, high); } else { PowUp(high, low); }
  }

  /** The best route for `dst`: no other usable match has a larger mask, none before it as large a one. */
  ghost predicate Best(routes: seq<Route>, dst: Word, k: nat) {
    && k < |routes| && Matches(routes[k], dst)
    && forall j :: 0 <= j < |routes| && Matches(routes[j], dst) ==>
         routes[j].mask <= routes[k].mask && (j < k ==> routes[j].mask < routes[k].mask)
  }

  function HopOf(r: Route, dst: Word): Hop
    requires r.dev.Some?
  {
    Hop(r.dev.value, if r.gw != 0 then r.gw else dst)
  }

  class Table {
    var routes: seq<Route>
    var locals: seq<Word>

    /** Both tables bounded, networks normalized, no local address twice. */
    ghost predicate Valid()
      reads this
    {
      && |routes| <= MAX_ROUTES && |locals| <= MAX_LOCAL
      && (forall i :: 0 <= i < |routes| ==> Masked(routes[i].net, routes[i].mask) == routes[i].net)
      && forall i, j :: 0 <= i < j < |locals| ==> locals[i] != locals[j]
    }

    constructor ()
      ensures Valid() && routes == [] && locals == []
    {
      routes, locals := [], [];
    }

    method RouteAdd(net: Word, mask: Word, dev: Option<nat>, gw: Word) returns (ok: bool)
      requires Valid()
      modifies this`routes
      ensures Valid() && ok == (|old(routes)| < 16)
      ensures routes == if ok then old(routes) + [Route(Masked(net, mask), mask, gw, dev)] else old(routes)
      ensures ok && dev.Some? ==> Matches(routes[|routes| - 1], net)
    {
      if |routes| >= MAX_ROUTES {
        return false;
      }
      AndTwice(net, mask, 32);
      routes := routes + [Route(Masked(net, mask), mask, gw, dev)];
      return true;
    }

    method LocalAdd(ip: Word) returns (ok: bool)
      requires Valid()
      modifies this`locals
      ensures Valid() && ok == (ip in locals)
      ensures locals == if ip in old(locals) || !ok then old(locals) else old(locals) + [ip]
      ensures !ok ==> |old(locals)| == 8
    {
      var known := IsLocal(ip);
      if known {
        return true;
      }
      if |locals| >= MAX_LOCAL {
        return false;
      }
      locals := locals + [ip];
      assert locals[|locals| - 1] == ip;
      return true;
    }

    method IsLocal(ip: Word) returns (found: bool)
      ensures found == (ip in locals)
    {
      for i := 0 to |locals|
        invariant ip !in locals[..i]
      {
        if locals[i] == ip {
          return true;
        }
      }
      return false;
    }

    /** `nsfip_route`: the longest match, the gateway or the destination itself as the next hop. */
    method Lookup(dst: Word) returns (hop: Option<Hop>, ghost best: nat)
      ensures hop.None? <==> forall j :: 0 <= j < |routes| ==> !Matches(routes[j], dst)
      ensures hop.Some? ==> Best(routes, dst, best) && hop == Some(HopOf(routes[best], dst))
      ensures hop.Some? ==>
        && best < |routes| && Matches(routes[best], dst)
        && Some(hop.value.dev) == routes[best].dev && hop.value.nexthop == (if routes[best].gw == 0 then dst else routes[best].gw)
        && forall j :: 0 <= j < |routes| && Matches(routes[j], dst) && j != best ==>
             routes[j].mask < routes[best].mask || (routes[j].mask == routes[best].mask && best < j)
    {
      var at, bestMask: Word := -1, 0;
      for i := 0 to |routes|
        invariant -1 <= at < i
        invariant at == -1 ==> forall j :: 0 <= j < i ==> !Matches(routes[j], dst)
        invariant at >= 0 ==> Best(routes[..i], dst, at) && bestMask == routes[at].mask
      {
        assert routes[..i + 1][i] == routes[i] && routes[..i + 1][..i] == routes[..i];
        if routes[i].dev.Some? && Masked(dst, routes[i].mask) == routes[i].net {
          if at < 0 || routes[i].mask > bestMask {
            at, bestMask := i, routes[i].mask;
          }
        }
      }
      assert routes[..|routes|] == routes;
      if at < 0 {
        return None, 0;
      }
      best := at;
      hop := Some(Hop(routes[at].dev.value, if routes[at].gw != 0 then routes[at].gw else dst));
    }
  }
}
