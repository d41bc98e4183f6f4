/** The three hops of a request between an application address space and the server
    (src/nsfreqx.c, with the moves of asm/nsfvsvc.asm and the drain of src/nsfsx.c around them): for
    every dispatcher that reads only a request's scalar fields and the bytes of its buffer, the
    crossing is invisible. */
module Crossing {
  import opened Bytes

  const CHUNK: nat := 2048

  /** What a dispatcher may read of a request besides its buffer. */
  datatype Fields = Fields(fn: nat, flags: nat, sockdesc: nat, ulen: nat, p1: nat, p2: nat, p3: nat, reqid: nat, apptok: nat)

  datatype Results = Results(retcode: int, errno: int, apptok: nat, p1: nat, p2: nat, p3: nat)

  /** A verb's effect: its results, and what it leaves in the buffer. */
  type Dispatcher = (Fields, Octets) -> (Results, Octets)

  ghost predicate KeepsLength(d: Dispatcher) {
    forall f: Fields, b: Octets :: |d(f, b).1| == |b|
  }

  class Rqe {
    var link: nat
    var fn: nat
    var flags: nat
    var sockdesc: nat
    var ubuf: array?<Byte>
    var ulen: nat
    var p1: nat
    var p2: nat
    var p3: nat
    var retcode: int
    var errno: int
    var ecb: nat
    var reqid: nat
    var apptok: nat

    ghost function In(): Fields
      reads this
    {
      Fields(fn, flags, sockdesc, ulen, p1, p2, p3, reqid, apptok)
    }

    ghost function Out(): Results
      reads this
    {
      Results(retcode, errno, apptok, p1, p2, p3)
    }

    /** The buffer the request names really holds the bytes it claims. */
    ghost predicate Backed()
      reads this
    {
      ulen > 0 ==> ubuf != null && ulen <= ubuf.Length
    }

    ghost function Buffer(): Octets
      requires Backed()
      reads this, ubuf
    {
      if ulen == 0 then [] else ubuf[..ulen]
    }
  }

  function StageLen(ulen: nat): (n: nat)
    ensures n <= ulen && n <= CHUNK && (n == ulen || n == CHUNK)
  {
    if ulen > CHUNK then CHUNK else ulen
  }

  /** Move one staged chunk, never more than the clamp whatever length is asked for. */
  method LandCopy(dst: array?<Byte>, src: array?<Byte>, xlen: nat) returns (n: nat)
    requires dst != null && src != null ==> dst != src && StageLen(xlen) <= dst.Length && StageLen(xlen) <= src.Length
    modifies dst
    ensures n == if dst == null || src == null then 0 else if xlen > 2048 then 2048 else xlen
    ensures dst != null && src != null ==> dst[..n] == src[..n] && dst[n..] == old(dst[n..])
    ensures dst != null && src == null ==> dst[..] == old(dst[..])
  {
    n := StageLen(xlen);
    if dst == null || src == null || n == 0 {
      return 0;
    }
    var i := 0;
    while i < n
      invariant 0 <= i <= n
      invariant dst[..i] == src[..i] && dst[i..] == old(dst[i..]) && src[..] == old(src[..])
    {
      dst[i] := src[i];
      i := i + 1;
    }
  }

  /** Hop 1: the whole image, verbatim. */
  method SlotIn(slot: Rqe, caller: Rqe)
    requires slot != caller
    modifies slot
    ensures slot.In() == caller.In() && slot.Out() == caller.Out()
    ensures slot.link == caller.link && slot.ubuf == caller.ubuf && slot.ecb == caller.ecb
  {
    slot.link, slot.fn, slot.flags, slot.sockdesc := caller.link, caller.fn, caller.flags, caller.sockdesc;
    slot.ubuf, slot.ulen := caller.ubuf, caller.ulen;
    slot.p1, slot.p2, slot.p3 := caller.p1, caller.p2, caller.p3;
    slot.retcode, slot.errno := caller.retcode, caller.errno;
    slot.ecb, slot.reqid, slot.apptok := caller.ecb, caller.reqid, caller.apptok;
  }

  /** Hop 2: the server's private copy, its buffer and length rewritten to what was staged, its
      linkage and ECB its own. */
  method DispatchIn(priv: Rqe, slot: Rqe, stage: array<Byte>, staged: nat)
    requires priv != slot
    modifies priv
    ensures priv.In() == slot.In().(ulen := staged) && priv.Out() == slot.Out()
    ensures priv.ubuf == stage && priv.link == 0 && priv.ecb == 0
  {
    SlotIn(priv, slot);
    priv.link := 0;
    priv.ecb := 0;
    priv.ubuf := stage;
    priv.ulen := staged;
  }

  /** Hop 3, either half: result fields only. */
  method ResultOut(to: Rqe, from: Rqe)
    requires to != from
    modifies to`retcode, to`errno, to`apptok, to`p1, to`p2, to`p3
    ensures to.Out() == from.Out()
  {
    to.retcode := from.retcode;
    to.errno := from.errno;
    to.apptok := from.apptok;
    to.p1, to.p2, to.p3 := from.p1, from.p2, from.p3;
  }

  /** A verb served on a request block: results and buffer from the dispatcher, ECB posted. */
  method Serve(r: Rqe, d: Dispatcher)
    requires r.Backed() && KeepsLength(d)
    modifies r`retcode, r`errno, r`apptok, r`p1, r`p2, r`p3, r`ecb, r.ubuf
    ensures r.Out() == d(old(r.In()), old(r.Buffer())).0
    ensures r.Buffer() == d(old(r.In()), old(r.Buffer())).1
    ensures r.ubuf != null ==> r.ubuf[r.ulen..] == old(r.ubuf[r.ulen..])
    ensures r.ecb == 0x4000_0000
  {
    var bytes: Octets := if r.ulen == 0 then [] else r.ubuf[..r.ulen];
    var (res, left) := d(Fields(r.fn, r.flags, r.sockdesc, r.ulen, r.p1, r.p2, r.p3, r.reqid, r.apptok), bytes);
    var i := 0;
    while i < r.ulen
      invariant 0 <= i <= r.ulen && (r.ulen > 0 ==> r.ubuf != null && r.ulen <= r.ubuf.Length)
      invariant |left| == r.ulen
      invariant r.ubuf != null ==> i <= r.ubuf.Length && r.ubuf[..i] == left[..i] && r.ubuf[i..] == old(r.ubuf[i..])
    {
      r.ubuf[i] := left[i];
      i := i + 1;
    }
    r.retcode, r.errno, r.apptok := res.retcode, res.errno, res.apptok;
    r.p1, r.p2, r.p3 := res.p1, res.p2, res.p3;
    r.ecb := 0x4000_0000;
  }

  /** The whole crossing of one request. The caller sees exactly what a direct call with its length
      clamped to the chunk would have shown it: the same result fields, the same bytes, and nothing
      else of its request or its buffer touched. */
  method Cross(caller: Rqe, slot: Rqe, stage: array<Byte>, priv: Rqe, land: array<Byte>, d: Dispatcher)
    requires caller != slot && caller != priv && slot != priv
    requires stage.Length == CHUNK == land.Length && stage != land && caller.ubuf != stage && caller.ubuf != land
    requires KeepsLength(d)
    requires caller.ulen > 0 ==> caller.ubuf != null && caller.ulen <= caller.ubuf.Length
    modifies caller`retcode, caller`errno, caller`apptok, caller`p1, caller`p2, caller`p3, caller.ubuf, slot, priv, stage, land
    ensures var n := StageLen(caller.ulen);
      var f := old(caller.In()).(ulen := n);
      var b: Octets := if n == 0 then [] else old(caller.ubuf[..n]);
      && caller.Out() == d(f, b).0
      && (n > 0 ==> caller.ubuf[..n] == d(f, b).1)
      && (caller.ubuf != null && n <= caller.ubuf.Length ==> caller.ubuf[n..] == old(caller.ubuf[n..]))
  {
    // the SVC routine, in the caller's address space
    var xlen := StageLen(caller.ulen);
    var moved := 0;
    if xlen > 0 { moved := LandCopy(stage, caller.ubuf, xlen); }
    SlotIn(slot, caller);
    // the server
    var staged := LandCopy(land, stage, xlen);
    assert land[..staged] == if xlen == 0 then [] else old(caller.ubuf[..xlen]);
    DispatchIn(priv, slot, land, staged);
    Serve(priv, d);
    var back := LandCopy(stage, land, xlen);
    ResultOut(slot, priv);
    // back in the caller's address space
    if xlen > 0 { moved := LandCopy(caller.ubuf, stage, xlen); }
    ResultOut(caller, slot);
  }
}
