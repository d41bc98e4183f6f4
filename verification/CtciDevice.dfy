/** The CTCI device block with the callbacks the executive runs on it, updated in place
    (src/nsfctcib.c). */
module CtciDevice {
  import opened Options
  import opened Bytes
  import opened Codec
  import opened CtciMachine
  import opened CtciDriver

  // ---- what a walk of decoded packets does to the intake -------------------------------------------------

  /** Queued events, buffers taken from the pool and given straight back, packets counted in and dropped. */
  datatype Intake = Intake(events: seq<Pbuf>, allocs: nat, freed: seq<nat>, inp: nat, ierr: nat)

  /** A packet is handed up if the pool gave it a buffer of at least its length and an event is left for it. */
  function FateOf(len: nat, cap: Option<nat>, room: bool): Fate {
    if cap.None? then NoBuffer else if cap.value < len then NoRoom else if !room then NoEvent else Up
  }

  function Take(b: Intake, p: Octets, fate: Fate): Intake {
    match fate
    case NoBuffer => b.(ierr := b.ierr + 1)
    case NoRoom | NoEvent => b.(allocs := b.allocs + 1, freed := b.freed + [b.allocs], ierr := b.ierr + 1)
    case Up => b.(events := b.events + [Pbuf(b.allocs, p)], allocs := b.allocs + 1, inp := b.inp + 1)
  }

  /** One packet after the other; `caps[i]` is what the pool has for packet `i`. */
  function Deliver(b: Intake, ps: seq<Octets>, caps: seq<Option<nat>>): Intake
    requires |ps| <= |caps|
  {
    if ps == [] then b
    else
      var n := |ps| - 1;
      var c := Deliver(b, ps[..n], caps);
      Take(c, ps[n], FateOf(|ps[n]|, caps[n], |c.events| < EVT_POOL))
  }

  /** The fates of the packets of a walk, with `queued` events in the queue before it. */
  function FatesOf(queued: nat, ps: seq<Octets>, caps: seq<Option<nat>>): (fates: seq<Fate>)
    requires |ps| <= |caps|
    ensures |fates| == |ps| && (queued <= EVT_POOL ==> queued + Ups(fates) <= EVT_POOL)
  {
    if ps == [] then []
    else
      var n := |ps| - 1;
      var before := FatesOf(queued, ps[..n], caps);
      var fate := FateOf(|ps[n]|, caps[n], queued + Ups(before) < EVT_POOL);
      assert (before + [fate])[..n] == before;
      before + [fate]
  }

  /** The intake after packets with these fates, all at once. */
  function Fated(b: Intake, ps: seq<Octets>, fates: seq<Fate>): Intake
    requires |ps| == |fates|
  {
    Intake(b.events + HandedUp(ps, fates, b.allocs), b.allocs + Taken(fates), b.freed + Returned(fates, b.allocs),
           b.inp + Ups(fates), b.ierr + (|fates| - Ups(fates)))
  }

  /** The intake as the histories have it. */
  predicate Books(b: Intake, h: History) {
    b.allocs == h.rx.allocs && b.freed == h.rx.freed && b.inp == h.inp && b.ierr == h.ierr
  }

  lemma FatedBooks(b: Intake, h: History, blk: Octets, fates: seq<Fate>)
    requires Books(b, h) && |fates| == |Decode(blk)|
    ensures Books(Fated(b, Decode(blk), fates), Decoded(h, blk, fates))
    ensures Fated(b, Decode(blk), fates).events == b.events + HandedUp(Decode(blk), fates, h.rx.allocs)
  {
  }

  lemma FatedSnoc(b: Intake, ps: seq<Octets>, fates: seq<Fate>, p: Octets, fate: Fate)
    requires |ps| == |fates|
    ensures Fated(b, ps + [p], fates + [fate]) == Take(Fated(b, ps, fates), p, fate)
  {
    assert (ps + [p])[..|ps|] == ps && (fates + [fate])[..|fates|] == fates;
    var n := b.allocs + Taken(fates);
    if fate.Up? {
      assert b.events + (HandedUp(ps, fates, b.allocs) + [Pbuf(n, p)]) == b.events + HandedUp(ps, fates, b.allocs) + [Pbuf(n, p)];
    } else if !fate.NoBuffer? {
      assert b.freed + (Returned(fates, b.allocs) + [n]) == b.freed + Returned(fates, b.allocs) + [n];
    }
  }

  /** Delivered one by one, the packets have the fates that the room for events gives them. */
  lemma {:induction false} DeliverIs(b: Intake, ps: seq<Octets>, caps: seq<Option<nat>>)
    requires |ps| <= |caps| && |b.events| <= EVT_POOL
    ensures Deliver(b, ps, caps) == Fated(b, ps, FatesOf(|b.events|, ps, caps))
  {
    if ps != [] {
      var n, queued := |ps| - 1, |b.events|;
      DeliverIs(b, ps[..n], caps);
      var before := FatesOf(queued, ps[..n], caps);
      FatedSnoc(b, ps[..n], before, ps[n], FateOf(|ps[n]|, caps[n], queued + Ups(before) < EVT_POOL));
      assert ps[..n] + [ps[n]] == ps;
    }
  }

  /** With buffers and events for all, every packet is handed up, in order, in a buffer of its own. */
  lemma {:induction false} DeliverAll(b: Intake, ps: seq<Octets>, caps: seq<Option<nat>>)
    requires |ps| <= |caps| && |b.events| + |ps| <= 128
    requires forall i :: 0 <= i < |ps| ==> caps[i].Some? && |ps[i]| <= caps[i].value
    ensures Deliver(b, ps, caps)
         == b.(events := b.events + seq(|ps|, i requires 0 <= i < |ps| => Pbuf(b.allocs + i, ps[i])), allocs := b.allocs + |ps|, inp := b.inp + |ps|)
  {
    if ps != [] {
      var n := |ps| - 1;
      DeliverAll(b, ps[..n], caps);
      var up := seq(|ps|, i requires 0 <= i < |ps| => Pbuf(b.allocs + i, ps[i]));
      assert up == seq(n, i requires 0 <= i < n => Pbuf(b.allocs + i, ps[..n][i])) + [Pbuf(b.allocs + n, ps[n])];
    }
  }

  /** A packet goes up exactly if the pool has a buffer at least as long as it and fewer than 128 events are
      queued, those of the packets before it included; otherwise its buffer, if it got one, goes straight back. */
  lemma {:induction false} UpIff(queued: nat, ps: seq<Octets>, caps: seq<Option<nat>>, i: nat)
    requires i < |ps| <= |caps|
    ensures var f := FatesOf(queued, ps, caps);
      && (f[i].Up? <==> caps[i].Some? && |ps[i]| <= caps[i].value && queued + Ups(f[..i]) < 128)
      && (f[i].NoBuffer? <==> caps[i].None?)
  {
    var n := |ps| - 1;
    var before, f := FatesOf(queued, ps[..n], caps), FatesOf(queued, ps, caps);
    assert f[..n] == before;
    if i < n {
      UpIff(queued, ps[..n], caps, i);
      assert f[..i] == before[..i];
    }
  }

  lemma PayloadInBuffer(blk: Octets, buf: Octets, span: Span)
    requires blk <= buf && span.off + span.len <= |blk|
    ensures Payload(blk, span) == buf[span.off..span.off + span.len]
  {
  }

  class Device {
    const bufsize: nat
    const rbuf: array<Byte>
    const wbuf: array<Byte>

    // read side, written by the read subtask until handed up
    var rready: bool
    var rarmed: bool
    var rpost: Byte
    var rlen: nat
    // write side
    var wready: bool
    var wpost: Byte
    // the executive's own
    var rhold: bool
    var halting: bool
    var txbusy: bool
    var txpbuf: Option<Pbuf>
    var txlen: nat
    var sendq: seq<Pbuf>
    var events: seq<Pbuf>
    var allocs: nat                       // inbound buffers taken from the pool so far, each numbered
    var rxfreed: seq<nat>                 // ... and given straight back
    // ECBs the executive posts
    var returnecb: bool
    var txgoecb: bool
    // counters
    var inp: nat
    var ierr: nat
    var out: nat
    var oerr: nat
    var nonip: nat
    var rpurge: nat

    /** The whole system as the step system sees it; the fields above are parts of it. */
    ghost var sys: State

    ghost predicate Valid()
      reads this, rbuf, wbuf
    {
      && rbuf.Length == wbuf.Length == bufsize <= BUF_MAX && rbuf != wbuf
      && rlen <= bufsize && |events| <= EVT_POOL
    }

    ghost predicate ExecFields(x: Exec)
      reads this
    {
      && rhold == x.rhold && halting == x.halting && txbusy == x.txbusy && x.hand.None?
      && txpbuf == x.txpbuf && txlen == x.txlen && sendq == x.sendq && events == x.evq
    }

    ghost predicate ReadFields(r: ReadSide)
      reads this, rbuf
    {
      && rready == r.rready && rarmed == r.rarmed && rpost == r.rpost && rlen == r.rlen && returnecb == r.returnecb
      && rbuf[..] == r.rbuf
    }

    ghost predicate WriteFields(w: WriteSide)
      reads this, wbuf
    {
      wready == w.wready && wpost == w.wpost && txgoecb == w.txgoecb && wbuf[..] == w.wbuf
    }

    function In(): Intake
      reads this
    {
      Intake(events, allocs, rxfreed, inp, ierr)
    }

    ghost predicate Counters(h: History)
      reads this
    {
      Books(In(), h) && out == h.out && oerr == h.oerr && rpurge == h.rpurge
    }

    ghost predicate Coupled()
      reads this, rbuf, wbuf
    {
      Valid() && bufsize == sys.bufsize && ExecFields(sys.x) && ReadFields(sys.r) && WriteFields(sys.w) && Counters(sys.h)
    }

    /** Copy one packet out of the read buffer into a fresh one and post it as an event; without a buffer, or
        without room in it or an event for it, drop and count the packet and give the buffer back. */
    method HandUp(span: Span, cap: Option<nat>)
      requires Valid() && span.off + span.len <= bufsize
      modifies this`events, this`allocs, this`rxfreed, this`inp, this`ierr
      ensures Valid()
      ensures In() == Take(old(In()), rbuf[span.off..span.off + span.len], FateOf(span.len, cap, old(|events|) < EVT_POOL))
    {
      if cap.None? {
        ierr := ierr + 1;
        return;
      }
      var b := Pbuf(allocs, rbuf[span.off..span.off + span.len]);
      allocs := allocs + 1;
      if cap.value < span.len {
        rxfreed := rxfreed + [b.id];
        ierr := ierr + 1;
      } else if |events| == EVT_POOL {
        rxfreed := rxfreed + [b.id];
        ierr := ierr + 1;
      } else {
        events := events + [b];
        inp := inp + 1;
      }
    }

    /** The decoder has just offered packet `k` of the walk, or has come to its end. */
    ghost predicate Offers(dec: Decoder, walk: WalkResult, k: nat, found: bool, span: Span)
      reads dec, dec.blk
    {
      && dec.Valid() && k <= |walk.spans|
      && if found
         then k < |walk.spans| && span == walk.spans[k] && dec.Rest() == WalkResult(walk.spans[k + 1..], dec.Rest().nonip, walk.malformed)
              && dec.nonipv4 + dec.Rest().nonip == walk.nonip && !dec.malformed
         else k == |walk.spans| && dec.nonipv4 == walk.nonip && dec.malformed == walk.malformed
    }

    method Advance(dec: Decoder, ghost walk: WalkResult, ghost k: nat, ghost was: Span) returns (found: bool, span: Span)
      requires dec.Valid() && Offers(dec, walk, k, true, was)
      modifies dec
      ensures Offers(dec, walk, k + 1, found, span)
    {
      found, span := dec.Next();
      assert found ==> walk.spans[k + 1..][1..] == walk.spans[k + 2..];
    }

    /** The first `k` packets of a walk gone through. */
    ghost predicate Tally(ps: seq<Octets>, caps: seq<Option<nat>>, k: nat, was: Intake)
      reads this
    {
      k <= |ps| <= |caps| && In() == Deliver(was, ps[..k], caps)
    }

    method HandUpNext(ghost ps: seq<Octets>, caps: seq<Option<nat>>, k: nat, span: Span, ghost was: Intake)
      requires Valid() && Tally(ps, caps, k, was) && k < |ps|
      requires span.off + span.len <= bufsize && ps[k] == rbuf[span.off..span.off + span.len]
      modifies this`events, this`allocs, this`rxfreed, this`inp, this`ierr
      ensures Valid() && Tally(ps, caps, k + 1, was)
    {
      assert ps[..k + 1][..k] == ps[..k];
      HandUp(span, caps[k]);
    }

    /** Hand up the packet the decoder has just offered. */
    method HandUpOffered(caps: seq<Option<nat>>, ghost len: nat, ghost ps: seq<Octets>, ghost spans: seq<Span>, k: nat, span: Span,
                         ghost was: Intake)
      requires Valid() && Tally(ps, caps, k, was) && len <= bufsize && k < |spans| && span == spans[k]
      requires forall i :: 0 <= i < |spans| ==> spans[i].off + spans[i].len <= len
      requires ps == Payloads(rbuf[..len], spans)
      modifies this`events, this`allocs, this`rxfreed, this`inp, this`ierr
      ensures Valid() && Tally(ps, caps, k + 1, was)
    {
      PayloadInBuffer(rbuf[..len], rbuf[..], span);
      HandUpNext(ps, caps, k, span, was);
    }

    /** The loop over the packets of a block whose decoder has just been set up. */
    method HandUpAll(dec: Decoder, caps: seq<Option<nat>>, ghost ps: seq<Octets>, ghost walk: WalkResult)
      requires Valid() && dec.Valid() && dec.blk == rbuf && dec.nonipv4 == 0 && !dec.malformed
      requires walk == dec.Rest() && ps == Payloads(rbuf[..dec.len], walk.spans) && |ps| <= |caps|
      modifies this`events, this`allocs, this`rxfreed, this`inp, this`ierr, dec
      ensures Valid() && Tally(ps, caps, |ps|, old(In()))
      ensures dec.nonipv4 == walk.nonip && dec.malformed == walk.malformed
    {
      ghost var blk := rbuf[..dec.len];
      var k := 0;
      assert walk.spans[0..] == walk.spans;
      var found, span := dec.Next();
      while found
        invariant Valid() && dec.blk == rbuf
        invariant Offers(dec, walk, k, found, span)
        invariant Tally(ps, caps, k, old(In()))
        decreases |walk.spans| - k
      {
        HandUpOffered(caps, |blk|, ps, walk.spans, k, span, old(In()));
        found, span := Advance(dec, walk, k, span);
        k := k + 1;
      }
    }

    /** Hand every IPv4 packet of the received block up, dropping what finds no buffer or event. */
    method DecodeBlock(len: nat, caps: seq<Option<nat>>)
      requires Valid() && len <= bufsize
      requires |Decode(rbuf[..len])| <= |caps|
      modifies this`events, this`allocs, this`rxfreed, this`inp, this`ierr, this`nonip
      ensures Valid()
      ensures In() == Deliver(old(In()), Decode(rbuf[..len]), caps)
      ensures var w := Walk(rbuf[..len], HDR, EndOfData(rbuf[..len]));
        nonip == old(nonip) + w.nonip + if w.malformed then 1 else 0
    {
      var dec := new Decoder(rbuf, len);
      ghost var ps := Decode(rbuf[..len]);
      HandUpAll(dec, caps, ps, dec.Rest());
      assert ps[..|ps|] == ps;
      nonip := nonip + dec.nonipv4 + if dec.malformed then 1 else 0;
    }

    /** What becomes of the packets a service would decode: there are none unless a block completed with data. */
    ghost function Fates(caps: seq<Option<nat>>): seq<Fate>
      requires Valid() && |Decode(rbuf[..rlen])| <= |caps|
      reads this, rbuf, wbuf
    {
      if rready && rpost == POST_NORMAL then FatesOf(|events|, Decode(rbuf[..rlen]), caps) else []
    }

    /** The data block handed up, as the step system accounts for it. */
    method DecodeData(caps: seq<Option<nat>>, ghost blk: Octets)
      requires Valid() && blk == rbuf[..rlen] && |Decode(blk)| <= |caps| && Counters(sys.h) && sys.x.evq == events
      modifies this`events, this`allocs, this`rxfreed, this`nonip, this`inp, this`ierr
      ensures Valid()
      ensures var fates := FatesOf(old(|events|), Decode(blk), caps);
        events == old(events) + HandedUp(Decode(blk), fates, sys.h.rx.allocs) && Counters(Decoded(sys.h, blk, fates))
    {
      DeliverIs(In(), Decode(blk), caps);
      FatedBooks(In(), sys.h, blk, FatesOf(|events|, Decode(blk), caps));
      DecodeBlock(rlen, caps);
    }

    method AccountBlock(caps: seq<Option<nat>>)
      requires Valid() && |Decode(rbuf[..rlen])| <= |caps| && rready && Counters(sys.h) && ReadFields(sys.r) && sys.x.evq == events
      modifies this`events, this`allocs, this`rxfreed, this`nonip, this`inp, this`ierr, this`rpurge
      ensures Valid() && Posts(sys, old(Fates(caps)))
      ensures events == old(events) + Sent(sys, old(Fates(caps))) && Counters(Accounted(sys, old(Fates(caps))))
    {
      ghost var blk := sys.r.rbuf[..sys.r.rlen];
      assert blk == rbuf[..rlen];
      if rpost == POST_NORMAL {
        DecodeData(caps, blk);
      } else if rpost == POST_PURGED {
        rpurge := rpurge + 1;
      } else {
        ierr := ierr + 1;
      }
    }

    /** The step system catches up with the fields. */
    ghost method Become(x: Exec, r: ReadSide, h: History)
      requires Valid() && bufsize == sys.bufsize && ExecFields(x) && ReadFields(r) && WriteFields(sys.w) && Counters(h)
      modifies this`sys
      ensures Coupled() && sys == old(sys).(x := x, r := r, h := h)
    {
      sys := sys.(x := x, r := r, h := h);
    }

    /** The block is accounted for: the read buffer is free again, and the READ is held. */
    method HoldRead(ghost fates: seq<Fate>)
      requires Valid() && rready && sys.r.rready && Posts(sys, fates) && bufsize == sys.bufsize
      requires ExecFields(sys.x.(evq := sys.x.evq + Sent(sys, fates))) && ReadFields(sys.r) && WriteFields(sys.w)
      requires Counters(Accounted(sys, fates))
      modifies this`rready, this`rhold, this`sys
      ensures Coupled() && sys == Consumed(old(sys), fates)
    {
      rready := false;
      rhold := true;
      Become(sys.x.(rhold := true, evq := sys.x.evq + Sent(sys, fates)), sys.r.(rready := false), Accounted(sys, fates));
    }

    method ConsumeReady(caps: seq<Option<nat>>)
      requires Coupled() && |Decode(rbuf[..rlen])| <= |caps| && rready
      modifies this`events, this`allocs, this`rxfreed, this`inp, this`ierr, this`nonip, this`rpurge, this`rready, this`rhold, this`sys
      ensures Coupled() && Posts(old(sys), old(Fates(caps))) && sys == Consumed(old(sys), old(Fates(caps)))
    {
      ghost var fates := Fates(caps);
      AccountBlock(caps);
      HoldRead(fates);
    }

    method ConsumeRead(caps: seq<Option<nat>>)
      requires Coupled() && |Decode(rbuf[..rlen])| <= |caps|
      modifies this`events, this`allocs, this`rxfreed, this`inp, this`ierr, this`nonip, this`rpurge, this`rready, this`rhold, this`sys
      ensures Coupled() && Posts(old(sys), old(Fates(caps))) && sys == Consumed(old(sys), old(Fates(caps)))
    {
      if rready {
        ConsumeReady(caps);
      }
    }

    method CountWrite()
      requires wready && txbusy && Counters(sys.h) && WriteFields(sys.w) && ExecFields(sys.x)
      modifies this`out, this`oerr
      ensures Counters(Reaped(sys).h)
    {
      if wpost == POST_NORMAL {
        out := out + 1;
      } else {
        oerr := oerr + 1;
      }
    }

    method ReapWrite()
      requires Coupled()
      modifies this`out, this`oerr, this`sys, this`txpbuf, this`wready, this`txbusy
      ensures Coupled() && sys == Reaped(old(sys))
    {
      if wready && txbusy {
        CountWrite();
        txpbuf := None;
        wready := false;
        txbusy := false;
        sys := Reaped(sys);
      }
    }

    /** The executive goes on to the dispatch; the device does not notice. */
    ghost method GoOn()
      requires Coupled()
      modifies this`sys
      ensures Coupled() && sys == old(sys).(x := old(sys).x.(pc := Handlers, budget := DRAIN_BUDGET))
    {
      sys := sys.(x := sys.x.(pc := Handlers, budget := DRAIN_BUDGET));
    }

    /** Pass start: decode a filled read block and mark the READ held, reap a completed WRITE. */
    method IoService(caps: seq<Option<nat>>)
      requires Coupled() && |Decode(rbuf[..rlen])| <= |caps|
      modifies this
      ensures Coupled() && Posts(old(sys), old(Fates(caps))) && sys == Serviced(old(sys), old(Fates(caps)))
      // a filled read block is free again and the READ held; a completed WRITE is counted by its post code
      ensures !rready && rhold == old(rhold || rready) && txbusy == old(txbusy && !wready) && wready == old(wready && !txbusy)
      ensures old(wready && txbusy) ==> txpbuf.None? && out == old(out) + if old(wpost) == 0x7F then 1 else 0
      ensures old(rready) && old(rpost) == 0x48 ==> rpurge == old(rpurge) + 1 && events == old(events) && ierr == old(ierr)
    {
      ConsumeRead(caps);
      ReapWrite();
      GoOn();
    }

    /** Whether a service would consume something right now. */
    method IoPending() returns (pending: bool)
      requires Coupled()
      ensures !pending ==> forall fates :: Posts(sys, fates) ==>
        Serviced(sys, fates) == sys.(x := sys.x.(pc := Handlers, budget := DRAIN_BUDGET))
      ensures pending ==> forall fates :: Posts(sys, fates) ==>
        (rready && !Serviced(sys, fates).r.rready && Serviced(sys, fates).x.rhold) || (txbusy && !Serviced(sys, fates).x.txbusy)
    {
      pending := rready || (wready && txbusy);
    }

    /** Copy a packet into the write buffer behind the headers, then frame it. */
    method FrameIn(ip: Octets) returns (blklen: nat)
      requires Valid() && Fits(bufsize, ip)
      modifies wbuf
      ensures blklen == |FrameOf(bufsize, ip)| && wbuf[..] == Overlay(old(wbuf[..]), 0, FrameOf(bufsize, ip))
    {
      var iplen := |ip| % 0x1_0000;
      var i := 0;
      while i < iplen
        invariant 0 <= i <= iplen
        invariant wbuf[HDR + SEG..HDR + SEG + i] == ip[..i]
        invariant wbuf[HDR + SEG + iplen..] == old(wbuf[HDR + SEG + iplen..])
      {
        wbuf[HDR + SEG + i] := ip[i];
        i := i + 1;
      }
      assert wbuf[HDR + SEG + iplen + HDR..] == old(wbuf[HDR + SEG + iplen + HDR..]) by {
        assert wbuf[HDR + SEG + iplen..][HDR..] == wbuf[HDR + SEG + iplen + HDR..];
        assert old(wbuf[HDR + SEG + iplen..])[HDR..] == old(wbuf[HDR + SEG + iplen + HDR..]);
      }
      blklen := EncodeHdr(wbuf, bufsize, iplen);
      assert wbuf[..] == wbuf[..blklen] + wbuf[blklen..];
    }

    method DropHead()
      requires Coupled() && sendq != [] && !Fits(bufsize, sendq[0].data)
      modifies this`sendq, this`oerr, this`sys
      ensures Coupled() && sys == Dropped(old(sys), 1)
    {
      sendq := sendq[1..];
      oerr := oerr + 1;
      sys := Dropped(sys, 1);
    }

    /** The packet `b` is framed in the write buffer: tell the write subtask to go. */
    method TellWriter(b: Pbuf, n: nat)
      requires Valid() && bufsize == sys.bufsize && ReadFields(sys.r) && Counters(sys.h)
      requires sys.x.txpbuf == Some(b) && sys.x.txlen == n && sys.x.txbusy && sys.w.txgoecb
      requires rhold == sys.x.rhold && halting == sys.x.halting && sys.x.hand.None? && sendq == sys.x.sendq && events == sys.x.evq
      requires wready == sys.w.wready && wpost == sys.w.wpost && wbuf[..] == sys.w.wbuf
      modifies this`txlen, this`txpbuf, this`txbusy, this`txgoecb
      ensures Coupled()
    {
      txpbuf := Some(b);
      txlen := n;
      txbusy := true;
      txgoecb := true;
    }

    method StartHead()
      requires Coupled() && sendq != [] && Fits(bufsize, sendq[0].data)
      modifies this`sendq, this`txlen, this`sys, this`txpbuf, this`txbusy, this`txgoecb, wbuf
      ensures Coupled() && sys == Loaded(old(sys))
    {
      var b := sendq[0];
      sendq := sendq[1..];
      var n := FrameIn(b.data);
      sys := Loaded(sys);
      TellWriter(b, n);
    }

    method Release()
      requires Coupled()
      modifies this`rhold, this`halting, this`returnecb, this`sys
      ensures Coupled() && sys == Released(old(sys))
    {
      rhold := false;
      halting := false;
      returnecb := true;
      sys := Released(sys);
    }

    method ParkRead()
      requires Coupled() && !txbusy && !rhold
      modifies this`halting, this`sys
      ensures Coupled() && sys == Kicked(old(sys))
    {
      if sendq != [] && !halting && rarmed {
        halting := true;
      }
      sys := Kicked(sys);
    }

    /** What kick has made of the queue `q`: its first `k` packets dropped and counted, no block can be made of
        them; the next one in the write buffer, octet for octet, with the write subtask told to start; or none
        left and the READ released. */
    ghost predicate DrainedFrom(q: seq<Pbuf>, errors: nat, k: nat)
      reads this, wbuf
    {
      && k <= |q| && (forall i :: 0 <= i < k ==> Unsendable(bufsize, q[i])) && oerr == errors + k
      && if k < |q|
         then
           var n := |q[k].data| % 0x1_0000;
           && !Unsendable(bufsize, q[k]) && sendq == q[k + 1..] && txbusy && txgoecb
           && txpbuf == Some(q[k]) && txlen == n + 10 <= wbuf.Length && Holds(wbuf[..n + 10], q[k].data[..n])
         else sendq == [] && !rhold && !halting && returnecb
    }

    ghost method Seen(was: State) returns (k: nat)
      requires Coupled() && |was.w.wbuf| == was.bufsize <= 0xFFFF && sys == Drain(was)
      ensures DrainedFrom(was.x.sendq, was.h.oerr, k)
    {
      k := DrainDrops(was);
    }

    method DrainLoop()
      requires Coupled()
      modifies this, wbuf
      ensures Coupled() && sys == Drain(old(sys))
    {
      ghost var goal := Drain(sys);
      while sendq != []
        invariant Coupled() && Drain(sys) == goal
        decreases |sendq|
      {
        var iplen := |sendq[0].data| % 0x1_0000;
        DrainOne(sys);
        if iplen == 0 || HDR + SEG + iplen + HDR > bufsize {
          DropHead();
          continue;
        }
        StartHead();
        return;
      }
      DrainOne(sys);
      Release();
    }

    /** The send queue under the hold: drop what does not fit, start one WRITE, or release the READ. */
    method DrainQueue() returns (ghost k: nat)
      requires Coupled()
      modifies this, wbuf
      ensures Coupled() && sys == Drain(old(sys))
      ensures DrainedFrom(old(sendq), old(oerr), k)
    {
      ghost var was := sys;
      DrainLoop();
      k := Seen(was);
    }

    /** Start at most one WRITE; with outbound work drained, release a held READ; with outbound work
        waiting behind an armed READ, halt it. */
    method IoKick() returns (ghost k: nat)
      requires Coupled()
      modifies this, wbuf
      ensures Coupled() && sys == Kicked(old(sys))
      ensures old(rhold && !txbusy) ==> DrainedFrom(old(sendq), old(oerr), k)
      ensures old(!rhold || txbusy) ==> sendq == old(sendq) && txpbuf == old(txpbuf) && wbuf[..] == old(wbuf[..]) && rhold == old(rhold)
      ensures old(!rhold || txbusy) ==> halting == old(halting || (!txbusy && sendq != [] && rarmed))
    {
      k := 0;
      if txbusy {
        sys := sys.(x := sys.x.(pc := Gate));
        return;
      }
      if !rhold {
        ParkRead();
        return;
      }
      k := DrainQueue();
    }
  }
}
