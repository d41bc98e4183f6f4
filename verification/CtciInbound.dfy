/** Where every inbound packet buffer of the CTCI driver is: each allocated one was freed by the decode, is in
    one queued event, or has gone to its handler; and handlers get the decoded packets in order. */
module CtciInbound {
  import opened Bytes
  import opened Codec
  import opened CtciMachine
  import opened CtciHandoff
  import opened CtciDriver

  // ---- fates and identities -----------------------------------------------------------------------------

  lemma {:induction false} TakenJoin(fates: seq<Fate>, more: seq<Fate>)
    ensures Taken(fates + more) == Taken(fates) + Taken(more)
  {
    if more == [] {
      assert fates + more == fates;
    } else {
      var n := |more| - 1;
      TakenJoin(fates, more[..n]);
      assert (fates + more)[..|fates + more| - 1] == fates + more[..n];
    }
  }

  /** The buffer of one packet, if it goes up. */
  function Raised(f: Fate, p: Octets, id: nat): seq<Pbuf> { if f.Up? then [Pbuf(id, p)] else [] }

  lemma HandedSnoc(ps: seq<Octets>, fates: seq<Fate>, p: Octets, f: Fate, id: nat)
    requires |ps| == |fates|
    ensures HandedUp(ps + [p], fates + [f], id) == HandedUp(ps, fates, id) + Raised(f, p, id + Taken(fates))
  {
    assert (ps + [p])[..|fates|] == ps && (fates + [f])[..|fates|] == fates;
  }

  lemma Grouped<T>(a: seq<T>, b: seq<T>, c: seq<T>)
    ensures (a + b) + c == a + (b + c)
  {
  }

  lemma HandedOne(ps: seq<Octets>, fates: seq<Fate>, qs: seq<Octets>, more: seq<Fate>, q: Octets, f: Fate, id: nat, next: nat, up: seq<Pbuf>)
    requires |ps| == |fates| && |qs| == |more| && id + Taken(fates) == next + Taken(more)
    requires HandedUp(ps, fates, id) == up + HandedUp(qs, more, next)
    ensures HandedUp(ps + [q], fates + [f], id) == up + HandedUp(qs + [q], more + [f], next)
  {
    HandedSnoc(ps, fates, q, f, id);
    HandedSnoc(qs, more, q, f, next);
    Grouped(up, HandedUp(qs, more, next), Raised(f, q, next + Taken(more)));
  }

  lemma LastOff<T>(a: seq<T>, b: seq<T>)
    requires b != []
    ensures (a + b[..|b| - 1]) + [b[|b| - 1]] == a + b && b[..|b| - 1] + [b[|b| - 1]] == b
  {
  }

  lemma {:induction false} HandedJoin(ps: seq<Octets>, fates: seq<Fate>, qs: seq<Octets>, more: seq<Fate>, id: nat, next: nat)
    requires |ps| == |fates| && |qs| == |more| && next == id + Taken(fates)
    ensures HandedUp(ps + qs, fates + more, id) == HandedUp(ps, fates, id) + HandedUp(qs, more, next)
  {
    if more == [] {
      assert ps + qs == ps && fates + more == fates;
    } else {
      var n := |more| - 1;
      HandedJoin(ps, fates, qs[..n], more[..n], id, next);
      TakenJoin(fates, more[..n]);
      HandedOne(ps + qs[..n], fates + more[..n], qs[..n], more[..n], qs[n], more[n], id, next, HandedUp(ps, fates, id));
      LastOff(ps, qs);
      LastOff(fates, more);
    }
  }

  lemma {:induction false} ReturnedJoin(fates: seq<Fate>, more: seq<Fate>, id: nat, next: nat)
    requires next == id + Taken(fates)
    ensures Returned(fates + more, id) == Returned(fates, id) + Returned(more, next)
  {
    if more == [] {
      assert fates + more == fates;
    } else {
      var n := |more| - 1;
      ReturnedJoin(fates, more[..n], id, next);
      TakenJoin(fates, more[..n]);
      assert (fates + more)[..|fates + more| - 1] == fates + more[..n];
    }
  }

  lemma HandedLast(ps: seq<Octets>, fates: seq<Fate>)
    requires |ps| == |fates| > 0
    ensures var n := |fates| - 1;
      Ids(HandedUp(ps, fates, 0)) == Ids(HandedUp(ps[..n], fates[..n], 0)) + if fates[n].Up? then multiset{Taken(fates[..n])} else multiset{}
  {
    var n := |fates| - 1;
    var before := HandedUp(ps[..n], fates[..n], 0);
    if fates[n].Up? { IdsAppend(before, Pbuf(Taken(fates[..n]), ps[n])); } else { assert before + [] == before; }
  }

  lemma ReturnedLast(fates: seq<Fate>, id: nat)
    requires |fates| > 0
    ensures var (n, f) := (|fates| - 1, fates[|fates| - 1]);
      multiset(Returned(fates, 0))[id]
        == multiset(Returned(fates[..n], 0))[id] + if (f.NoRoom? || f.NoEvent?) && id == Taken(fates[..n]) then 1 else 0
  {
  }

  /** Every buffer taken is either handed up or returned, and none twice. */
  lemma {:induction false} FatesPart(ps: seq<Octets>, fates: seq<Fate>, id: nat)
    requires |ps| == |fates|
    ensures multiset(Returned(fates, 0))[id] + Ids(HandedUp(ps, fates, 0))[id] == if id < Taken(fates) then 1 else 0
  {
    if fates != [] {
      FatesPart(ps[..|fates| - 1], fates[..|fates| - 1], id);
      HandedLast(ps, fates);
      ReturnedLast(fates, id);
    }
  }

  /** Numbers go up in the order of allocation. */
  lemma {:induction false} UpsOrdered(ps: seq<Octets>, fates: seq<Fate>, id: nat, i: nat, j: nat)
    requires |ps| == |fates| && i < j < |HandedUp(ps, fates, id)|
    ensures HandedUp(ps, fates, id)[i].id < HandedUp(ps, fates, id)[j].id
  {
    var n := |fates| - 1;
    var before := HandedUp(ps[..n], fates[..n], id);
    if j < |before| { UpsOrdered(ps[..n], fates[..n], id, i, j); } else { UpsBelow(ps[..n], fates[..n], id, i); }
  }

  lemma {:induction false} UpsBelow(ps: seq<Octets>, fates: seq<Fate>, id: nat, i: nat)
    requires |ps| == |fates| && i < |HandedUp(ps, fates, id)|
    ensures HandedUp(ps, fates, id)[i].id < id + Taken(fates)
  {
    var n := |fates| - 1;
    if i < |HandedUp(ps[..n], fates[..n], id)| { UpsBelow(ps[..n], fates[..n], id, i); }
  }

  /** The packets of a list of blocks, in order. */
  function Packets(blks: seq<Octets>): seq<Octets> {
    if blks == [] then [] else Packets(blks[..|blks| - 1]) + Decode(blks[|blks| - 1])
  }

  lemma PacketsSnoc(blks: seq<Octets>, blk: Octets)
    ensures Packets(blks + [blk]) == Packets(blks) + Decode(blk)
  {
    assert (blks + [blk])[..|blks|] == blks;
  }

  // ---- the invariant ---------------------------------------------------------------------------------------

  /** Every packet decoded has one fate; the buffers that went up are those handed over and those queued. */
  ghost predicate Accounts(evq: seq<Pbuf>, ps: seq<Octets>, rx: Receipts) {
    |rx.fates| == |ps| && Tallies(evq, rx, Taken(rx.fates), Returned(rx.fates, 0), HandedUp(ps, rx.fates, 0))
  }

  predicate Tallies(evq: seq<Pbuf>, rx: Receipts, n: nat, freed: seq<nat>, ups: seq<Pbuf>) {
    rx.allocs == n && rx.freed == freed && rx.handed + evq == ups
  }

  ghost predicate Received(s: State) {
    Accounts(s.x.evq, Packets(s.h.decoded), s.h.rx)
  }

  predicate SameInputs(s: State, t: State) {
    t.x.evq == s.x.evq && t.h.decoded == s.h.decoded && t.h.rx == s.h.rx
  }

  lemma TalliesJoin(evq: seq<Pbuf>, rx: Receipts, n: nat, freed: seq<nat>, ups: seq<Pbuf>, fates: seq<Fate>, back: seq<nat>, more: seq<Pbuf>)
    requires Tallies(evq, rx, n, freed, ups)
    ensures Tallies(evq + more, Receipts(rx.fates + fates, n + Taken(fates), freed + back, rx.handed), n + Taken(fates), freed + back, ups + more)
  {
    assert rx.handed + (evq + more) == (rx.handed + evq) + more;
  }

  lemma AccountsJoin(evq: seq<Pbuf>, ps: seq<Octets>, rx: Receipts, qs: seq<Octets>, fates: seq<Fate>)
    requires Accounts(evq, ps, rx) && |fates| == |qs|
    ensures Accounts(evq + HandedUp(qs, fates, rx.allocs), ps + qs, CtciMachine.Received(rx, fates))
  {
    var n, ups, freed := Taken(rx.fates), HandedUp(ps, rx.fates, 0), Returned(rx.fates, 0);
    var more, back := HandedUp(qs, fates, rx.allocs), Returned(fates, rx.allocs);
    TalliesJoin(evq, rx, n, freed, ups, fates, back, more);
    assert Taken(rx.fates + fates) == n + Taken(fates) by { TakenJoin(rx.fates, fates); }
    assert Returned(rx.fates + fates, 0) == freed + back by { ReturnedJoin(rx.fates, fates, 0, rx.allocs); }
    assert HandedUp(ps + qs, rx.fates + fates, 0) == ups + more by { HandedJoin(ps, rx.fates, qs, fates, 0, rx.allocs); }
  }

  lemma UnpackReceives(s: State, fates: seq<Fate>)
    requires Received(s) && s.x.pc.DecodeBlock? && ExecEnabled(s, fates)
    ensures Received(Unpack(s, fates))
  {
    if s.r.rpost == POST_NORMAL && s.r.rlen <= |s.r.rbuf| {
      var blk := s.r.rbuf[..s.r.rlen];
      PacketsSnoc(s.h.decoded, blk);
      AccountsJoin(s.x.evq, Packets(s.h.decoded), s.h.rx, Decode(blk), fates);
    }
  }

  lemma HandOverReceives(s: State)
    requires Received(s) && s.x.evq != [] && s.x.budget > 0
    ensures Received(HandOver(s))
  {
    assert s.h.rx.handed + [s.x.evq[0]] + s.x.evq[1..] == s.h.rx.handed + s.x.evq;
  }

  lemma ServiceSame(s: State, fates: seq<Fate>)
    requires ExecEnabled(s, fates) && AtService(s.x.pc) && !s.x.pc.DecodeBlock?
    ensures SameInputs(s, DoService(s, fates))
  {
  }

  lemma PassSame(s: State)
    requires AtPass(s.x.pc) && !s.x.pc.Handlers?
    ensures SameInputs(s, DoPass(s))
  {
  }

  lemma EncodeSame(s: State)
    requires s.x.pc.EncodePacket? && s.x.hand.Some? && |s.w.wbuf| == s.bufsize <= BUF_MAX
    ensures SameInputs(s, DoSend(s))
  {
  }

  lemma HandSame(s: State)
    requires AtSend(s.x.pc) && !s.x.pc.EncodePacket?
    ensures SameInputs(s, DoSend(s))
  {
  }

  lemma SendSame(s: State)
    requires AtSend(s.x.pc) && (s.x.pc.EncodePacket? ==> s.x.hand.Some? && |s.w.wbuf| == s.bufsize <= BUF_MAX)
    ensures SameInputs(s, DoSend(s))
  {
    if s.x.pc.EncodePacket? { EncodeSame(s); } else { HandSame(s); }
  }

  lemma ParkSame(s: State)
    requires AtPark(s.x.pc)
    ensures SameInputs(s, DoPark(s))
  {
  }

  lemma ReleaseSame(s: State)
    requires AtRelease(s.x.pc)
    ensures SameInputs(s, DoRelease(s))
  {
  }

  lemma StoppingSame(s: State)
    requires AtShutdown(s.x.pc) && !s.x.pc.Join? && !s.x.pc.FreeTx? && !s.x.pc.Flush?
    ensures SameInputs(s, DoShutdown(s))
  {
  }

  lemma FreeingSame(s: State)
    requires s.x.pc.Join? || s.x.pc.FreeTx? || s.x.pc.Flush?
    ensures SameInputs(s, DoShutdown(s))
  {
  }

  lemma ShutdownSame(s: State)
    requires AtShutdown(s.x.pc)
    ensures SameInputs(s, DoShutdown(s))
  {
    if s.x.pc.Join? || s.x.pc.FreeTx? || s.x.pc.Flush? { FreeingSame(s); } else { StoppingSame(s); }
  }

  lemma ReadSame(s: State)
    requires ReadEnabled(s)
    ensures SameInputs(s, DoRead(s))
  {
  }

  lemma WriteSame(s: State)
    requires WriteEnabled(s)
    ensures SameInputs(s, DoWrite(s))
  {
  }

  lemma EnvironmentSame(s: State, a: Action)
    requires Enabled(s, a) && !a.ExecStep? && !a.ReadStep? && !a.WriteStep?
    ensures SameInputs(s, Step(s, a))
  {
  }

  lemma ExecSame(s: State, fates: seq<Fate>, t: State)
    requires ExecEnabled(s, fates) && !s.x.pc.DecodeBlock? && !s.x.pc.Handlers? && t == DoExec(s, fates)
    ensures SameInputs(s, t)
  {
    if AtPass(s.x.pc) { assert t == DoPass(s); PassSame(s); }
    else if AtService(s.x.pc) { assert t == DoService(s, fates); ServiceSame(s, fates); }
    else if AtPark(s.x.pc) { assert t == DoPark(s); ParkSame(s); }
    else if AtSend(s.x.pc) { assert t == DoSend(s); SendSame(s); }
    else if AtRelease(s.x.pc) { assert t == DoRelease(s); ReleaseSame(s); }
    else { assert t == DoShutdown(s); ShutdownSame(s); }
  }

  lemma ExecReceives(s: State, fates: seq<Fate>)
    requires Received(s) && ExecEnabled(s, fates)
    ensures Received(DoExec(s, fates))
  {
    if s.x.pc.DecodeBlock? { UnpackReceives(s, fates); }
    else if s.x.pc.Handlers? { if s.x.evq != [] && s.x.budget > 0 { HandOverReceives(s); } }
    else { ExecSame(s, fates, DoExec(s, fates)); }
  }

  lemma StepReceives(s: State, a: Action)
    requires Received(s) && Enabled(s, a)
    ensures Received(Step(s, a))
  {
    match a {
      case ExecStep(fates) => ExecReceives(s, fates);
      case ReadStep => ReadSame(s);
      case WriteStep => WriteSame(s);
      case _ => EnvironmentSame(s, a);
    }
  }

  lemma {:induction false} RunReceives(ss: seq<State>, acts: seq<Action>, n: nat)
    requires Run(ss, acts) && Initial(ss[0]) && n <= |acts|
    ensures Received(ss[n])
  {
    if n > 0 {
      RunReceives(ss, acts, n - 1);
      StepReceives(ss[n - 1], acts[n - 1]);
    }
  }

  lemma ReachableReceived(s: State)
    requires Reachable(s)
    ensures Received(s)
  {
    var ss, acts :| Run(ss, acts) && Initial(ss[0]) && ss[|acts|] == s;
    RunReceives(ss, acts, |acts|);
  }

  // ---- what it means ---------------------------------------------------------------------------------------

  /** Every inbound buffer ever allocated is in exactly one place: freed once by the decode, in one queued
      event, or handed over to one handler. */
  lemma InboundConserved(s: State, id: nat)
    requires Reachable(s) && id < s.h.rx.allocs
    ensures multiset(s.h.rx.freed)[id] + Ids(s.x.evq)[id] + Ids(s.h.rx.handed)[id] == 1
  {
    ReachableReceived(s);
    FatesPart(Packets(s.h.decoded), s.h.rx.fates, id);
    IdsSplit(s.x.evq, s.h.rx.handed);
  }

  /** What handlers have got, and next will get, are the packets of the decoded blocks that found a buffer
      with room and an event, each in the buffer allocated for it, in the order received. */
  lemma HandlersGet(s: State)
    requires Reachable(s)
    ensures |s.h.rx.fates| == |Packets(s.h.decoded)| && s.h.rx.handed + s.x.evq == HandedUp(Packets(s.h.decoded), s.h.rx.fates, 0)
    ensures var q := s.h.rx.handed + s.x.evq; forall i, j :: 0 <= i < j < |q| ==> q[i].id < q[j].id
  {
    ReachableReceived(s);
    var q := s.h.rx.handed + s.x.evq;
    forall i, j | 0 <= i < j < |q| ensures q[i].id < q[j].id {
      UpsOrdered(Packets(s.h.decoded), s.h.rx.fates, 0, i, j);
    }
  }
}
