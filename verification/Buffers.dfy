/** The two pools that packet buffers come from and go back to (src/nsfbuf.c): `buf_alloc` and
    `buf_free`. */
module Buffers {
  import opened Chains
  import opened Pbufs

  /** The buffers of a size class among `bs`. */
  ghost function OfSize(bs: set<Pbuf>, n: nat): set<Pbuf> {
    set b | b in bs && b.area.Length == n
  }

  lemma OfSizeAdd(bs: set<Pbuf>, b: Pbuf, n: nat)
    requires b !in bs
    ensures |OfSize(bs + {b}, n)| == |OfSize(bs, n)| + if b.area.Length == n then 1 else 0
  {
    if b.area.Length == n { assert OfSize(bs + {b}, n) == OfSize(bs, n) + {b}; }
    else { assert OfSize(bs + {b}, n) == OfSize(bs, n); }
  }

  ghost function Those(nodes: seq<Pbuf>): set<Pbuf> { set i | 0 <= i < |nodes| :: nodes[i] }

  class BufferPools {
    const smallCount: nat
    const largeCount: nat
    var small: nat                  // free small buffers
    var large: nat
    ghost var out: set<Pbuf>        // the buffers somebody owns

    /** Every buffer is free or out, class by class. */
    ghost predicate Valid()
      reads this
    {
      && (forall b :: b in out ==> b.area.Length == SMALL_DATA || b.area.Length == LARGE_DATA)
      && small + |OfSize(out, SMALL_DATA)| == smallCount && large + |OfSize(out, LARGE_DATA)| == largeCount
    }

    /** `buf_init_counts` */
    constructor (smallCount: nat, largeCount: nat)
      ensures Valid() && out == {} && this.smallCount == small == smallCount && this.largeCount == large == largeCount
    {
      this.smallCount, this.largeCount := smallCount, largeCount;
      small, large := smallCount, largeCount;
      out := {};
    }

    ghost method Issue(b: Pbuf)
      requires b !in out && (b.area.Length == SMALL_DATA || b.area.Length == LARGE_DATA)
      requires small + (if b.area.Length == SMALL_DATA then 1 else 0) + |OfSize(out, SMALL_DATA)| == smallCount
      requires large + (if b.area.Length == LARGE_DATA then 1 else 0) + |OfSize(out, LARGE_DATA)| == largeCount
      requires forall o :: o in out ==> o.area.Length == SMALL_DATA || o.area.Length == LARGE_DATA
      modifies this`out
      ensures Valid() && out == old(out) + {b}
    {
      OfSizeAdd(out, b, SMALL_DATA);
      OfSizeAdd(out, b, LARGE_DATA);
      out := out + {b};
    }

    /** `buf_alloc`: an empty buffer of the class the hint asks for, one headroom in; none exactly when that
        class is exhausted, whatever the other has left. */
    method Alloc(hint: nat) returns (b: Pbuf?)
      requires Valid()
      modifies this
      ensures Valid()
      ensures b == null <==> if 64 + hint <= 256 then old(small) == 0 else old(large) == 0
      ensures b == null ==> out == old(out) && small == old(small) && large == old(large)
      ensures b != null ==>
        && fresh(b) && fresh(b.area) && out == old(out) + {b} && b !in old(out)
        && b.Ok() && b.chain == null && b.seg.bytes == [] && b.chainlen == 0 && b.data == 64
        && b.area.Length == (if 64 + hint <= 256 then 256 else 2048)
        && (64 + hint <= 2048 ==> hint <= b.seg.room)
    {
      if HEADROOM + hint <= SMALL_DATA {
        if small == 0 {
          return null;
        }
        small := small - 1;
      } else {
        if large == 0 {
          return null;
        }
        large := large - 1;
      }
      var p := new Pbuf(hint);
      Issue(p);
      b := p;
    }

    method FreeOne(b: Pbuf)
      requires Valid() && b in out
      modifies this
      ensures Valid() && out == old(out) - {b}
    {
      ghost var rest := out - {b};
      assert out == rest + {b};
      OfSizeAdd(rest, b, SMALL_DATA);
      OfSizeAdd(rest, b, LARGE_DATA);
      if b.area.Length == SMALL_DATA {
        small := small + 1;
      } else {
        large := large + 1;
      }
      out := rest;
    }

    /** `buf_free`: every buffer of the packet goes back to its own class. */
    method Free(b: Pbuf?, ghost nodes: seq<Pbuf>, ghost c: Chain)
      requires Valid() && Begins(b, nodes, c) && Those(nodes) <= out
      modifies this
      ensures Valid() && out == old(out) - Those(nodes)
    {
      var p := b;
      ghost var k := 0;
      assert nodes[..0] == [];
      while p != null
        invariant k <= |nodes| && p == NodeAt(nodes, k) && Valid() && Links(nodes) && Distinct(nodes)
        invariant out == old(out) - Those(nodes[..k])
        decreases |nodes| - k
      {
        ThoseNext(nodes, k);
        var next := p.chain;
        FreeOne(p);
        p := next;
        k := k + 1;
      }
      assert nodes[..k] == nodes;
    }
  }

  lemma ThoseNext(nodes: seq<Pbuf>, k: nat)
    requires k < |nodes| && Distinct(nodes)
    ensures Those(nodes[..k + 1]) == Those(nodes[..k]) + {nodes[k]} && nodes[k] !in Those(nodes[..k]) && nodes[k] in Those(nodes)
  {
    assert nodes[..k + 1] == nodes[..k] + [nodes[k]];
  }
}
