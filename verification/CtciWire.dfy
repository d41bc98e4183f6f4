/** What the CTCI driver puts on the wire and what it drops, in octets and numbers (src/nsfctcib.c). */
module CtciWire {
  import opened Bytes
  import opened Codec
  import opened CtciMachine
  import opened CtciSafety
  import opened CtciProgress
  import opened CtciHandoff
  import opened CtciDriver

  // ---- which packets go, and as what ---------------------------------------------------------------------

  /** Of a run of packets those that go, in order. */
  function Going(bufsize: nat, ps: seq<Octets>): seq<Octets> {
    if ps == [] then []
    else
      var p := ps[|ps| - 1];
      Going(bufsize, ps[..|ps| - 1]) + if 0 < |p| % 0x1_0000 <= bufsize - 10 then [p[..|p| % 0x1_0000]] else []
  }

  /** Block for block, the packets are what the blocks hold. */
  predicate AllHold(blks: seq<Octets>, ps: seq<Octets>) {
    |blks| == |ps| && forall i :: 0 <= i < |blks| ==> Holds(blks[i], ps[i])
  }

  lemma {:induction false} FramesHold(bufsize: nat, ps: seq<Octets>)
    requires bufsize <= 0xFFFF
    ensures AllHold(Frames(bufsize, ps), Going(bufsize, ps))
  {
    if ps != [] {
      FramesHold(bufsize, ps[..|ps| - 1]);
      FitsIff(bufsize, ps[|ps| - 1]);
    }
  }

  /** Every packet has between one octet and what a block leaves room for. */
  predicate Proper(bufsize: nat, ps: seq<Octets>) {
    forall i :: 0 <= i < |ps| ==> 1 <= |ps[i]| <= bufsize - 10
  }

  lemma {:induction false} AllGo(bufsize: nat, ps: seq<Octets>)
    requires bufsize <= 0xFFFF && Proper(bufsize, ps)
    ensures Going(bufsize, ps) == ps
  {
    if ps != [] {
      AllGo(bufsize, ps[..|ps| - 1]);
      var p := ps[|ps| - 1];
      assert |p| % 0x1_0000 == |p| && p[..|p|] == p;
    }
  }

  // ---- over all runs ---------------------------------------------------------------------------------------

  lemma BlockSize(s: State)
    requires Reachable(s)
    ensures s.bufsize <= 0xFFFF
  {
    ReachableControl(s);
  }

  /** While the driver runs, the blocks the WRITEs carried and the one that waits in the write buffer hold,
      one each and in order, the packets taken from the queue whose halfword length is not zero and leaves
      room for the ten octets around it. Under a stop, the WRITEs have carried the first of them. */
  lemma WireHolds(s: State)
    requires Reachable(s)
    ensures s.x.txlen <= |s.w.wbuf|
    ensures !s.stop ==> AllHold(s.h.wire + InBuffer(s.x, s.w), Going(s.bufsize, s.h.taken))
    ensures |s.h.wire| <= |Going(s.bufsize, s.h.taken)| && AllHold(s.h.wire, Going(s.bufsize, s.h.taken)[..|s.h.wire|])
  {
    ReachableHandoff(s);
    BlockSize(s);
    FramesHold(s.bufsize, s.h.taken);
  }

  lemma TakenProper(s: State)
    requires Reachable(s) && Proper(s.bufsize, s.h.accepted)
    ensures Going(s.bufsize, s.h.taken) == s.h.taken
  {
    WireIsAccepted(s);
    BlockSize(s);
    AllGo(s.bufsize, s.h.taken);
  }

  /** If every packet accepted so far has between one octet and ten less than the block size, none is
      dropped: the wire and the write buffer hold every packet taken from the queue. */
  lemma ProperGoOut(s: State)
    requires Reachable(s) && !s.stop && Proper(s.bufsize, s.h.accepted)
    ensures s.x.txlen <= |s.w.wbuf|
    ensures AllHold(s.h.wire + if s.x.txpbuf.Some? && !s.w.onwire then [s.w.wbuf[..s.x.txlen]] else [], s.h.taken)
  {
    WireHolds(s);
    TakenProper(s);
  }

  lemma ServiceAccepts(s: State, fates: seq<Fate>)
    requires ExecEnabled(s, fates) && AtService(s.x.pc)
    ensures DoService(s, fates).h.accepted == s.h.accepted && DoService(s, fates).bufsize == s.bufsize
  {
  }

  lemma ShutdownAccepts(s: State)
    requires AtShutdown(s.x.pc)
    ensures DoShutdown(s).h.accepted == s.h.accepted && DoShutdown(s).bufsize == s.bufsize
  {
  }

  lemma SendAccepts(s: State)
    requires ExecEnabled(s, []) && AtSend(s.x.pc)
    ensures DoSend(s).h.accepted == s.h.accepted && DoSend(s).bufsize == s.bufsize
  {
  }

  lemma ExecAccepts(s: State, fates: seq<Fate>)
    requires ExecEnabled(s, fates)
    ensures DoExec(s, fates).h.accepted == s.h.accepted && DoExec(s, fates).bufsize == s.bufsize
  {
    if AtService(s.x.pc) { ServiceAccepts(s, fates); }
    else if AtSend(s.x.pc) { SendAccepts(s); }
    else if AtShutdown(s.x.pc) { ShutdownAccepts(s); }
  }

  lemma ReadAccepts(s: State)
    requires ReadEnabled(s)
    ensures DoRead(s).h.accepted == s.h.accepted && DoRead(s).bufsize == s.bufsize
  {
  }

  lemma WriteAccepts(s: State)
    requires WriteEnabled(s)
    ensures DoWrite(s).h.accepted == s.h.accepted && DoWrite(s).bufsize == s.bufsize
  {
  }

  lemma InternalAccepts(s: State, a: Action)
    requires Enabled(s, a) && Internal(a)
    ensures Step(s, a).h.accepted == s.h.accepted && Step(s, a).bufsize == s.bufsize
  {
    if a.ExecStep? { ExecAccepts(s, a.fates); }
    else if a.ReadStep? { ReadAccepts(s); }
    else if a.WriteStep? { WriteAccepts(s); }
  }

  lemma {:induction false} InternalRunAccepts(ss: seq<State>, acts: seq<Action>, n: nat)
    requires Run(ss, acts) && n <= |acts|
    requires forall i :: 0 <= i < |acts| ==> Internal(acts[i])
    ensures ss[n].h.accepted == ss[0].h.accepted && ss[n].bufsize == ss[0].bufsize
  {
    if n > 0 {
      InternalRunAccepts(ss, acts, n - 1);
      InternalAccepts(ss[n - 1], acts[n - 1]);
    }
  }

  /** Whatever the interleaving: where the driver comes to rest without a stop, every packet `dev_send` had
      accepted is on the wire in a block of its own, in the order accepted. */
  lemma AllSent(ss: seq<State>, acts: seq<Action>)
    requires Run(ss, acts) && Reachable(ss[0]) && (forall i :: 0 <= i < |acts| ==> Internal(acts[i]))
    requires Stuck(ss[|acts|]) && !ss[|acts|].stop
    requires Proper(ss[0].bufsize, ss[0].h.accepted)
    ensures AllHold(ss[|acts|].h.wire, ss[0].h.accepted)
  {
    var e := ss[|acts|];
    InternalRunAccepts(ss, acts, |acts|);
    Quiesces(ss, acts);
    ReachableOn(ss, acts);
    ReachableHandoff(e);
    ProperGoOut(e);
    assert e.h.accepted == e.h.taken;
  }

  /** Every block size the reservation can leave in force is within the model. */
  lemma AnyBlockSize(rbuf: Octets, wbuf: Octets)
    requires 10 < |rbuf| == |wbuf| <= 0xFFFF
    ensures Reachable(Init(|rbuf|, rbuf, wbuf))
  {
    var s := Init(|rbuf|, rbuf, wbuf);
    var ss: seq<State>, acts: seq<Action> := [s], [];
    assert Run(ss, acts) && Initial(ss[0]) && ss[|acts|] == s;
  }

  /** `dev_send` takes a packet of any length unless 32 are queued; then it frees it and counts an error. */
  lemma SendQueues(s: State, data: Octets)
    requires Reachable(s) && Enabled(s, Send(data))
    ensures var t := Step(s, Send(data)); t.h.sends == s.h.sends + 1 && t.h.wire == s.h.wire
    ensures var t := Step(s, Send(data));
      if |s.x.sendq| < 32 then t.x.sendq == s.x.sendq + [Pbuf(s.h.sends, data)] && t.h.oerr == s.h.oerr && t.h.freed == s.h.freed && t.wakeecb
      else t.x.sendq == s.x.sendq && t.h.oerr == s.h.oerr + 1 && t.h.freed == s.h.freed + multiset{s.h.sends}
  {
  }

  // ---- kick --------------------------------------------------------------------------------------------------

  /** The packet in hand is dropped, freed once and counted, if no block can be made of it, and only then;
      otherwise it goes into the write buffer. */
  ghost predicate HandGoes(s: State, t: State, b: Pbuf) {
    && t.h.taken == s.h.taken + [b.data] && t.x.sendq == s.x.sendq && t.h.wire == s.h.wire && t.x.hand.None?
    && if Unsendable(s.bufsize, b)
       then t.x.pc.Dequeue? && t.x.txpbuf == s.x.txpbuf && t.w == s.w && t.h.oerr == s.h.oerr + 1 && t.h.freed == s.h.freed + multiset{b.id}
       else t.x.pc.SetTxbusy? && Waits(t, b) && t.h.oerr == s.h.oerr && t.h.freed == s.h.freed
  }

  /** What kick does with the one packet it holds, in every reachable state. */
  lemma PacketInHand(s: State)
    requires Reachable(s) && s.x.pc.EncodePacket?
    ensures s.x.hand.Some? && Enabled(s, ExecStep([]))
    ensures HandGoes(s, Step(s, ExecStep([])), s.x.hand.value)
  {
    HandEnabled(s);
    if Fits(s.bufsize, s.x.hand.value.data) { HandLoads(s); } else { HandDrops(s); }
  }

  lemma HandEnabled(s: State)
    requires Reachable(s) && s.x.pc.EncodePacket?
    ensures ExecEnabled(s, []) && Enabled(s, ExecStep([])) && Step(s, ExecStep([])) == DoSend(s)
  {
    ReachableControl(s);
  }

  lemma HandLoads(s: State)
    requires s.x.pc.EncodePacket? && ExecEnabled(s, []) && Fits(s.bufsize, s.x.hand.value.data)
    ensures HandGoes(s, DoSend(s), s.x.hand.value)
  {
    var b, t := s.x.hand.value, DoSend(s);
    Misfit(s.bufsize, b);
    assert Waits(t, b) by { LoadWaits(t, b, s.bufsize, s.w.wbuf); }
  }

  lemma HandDrops(s: State)
    requires s.x.pc.EncodePacket? && ExecEnabled(s, []) && !Fits(s.bufsize, s.x.hand.value.data)
    ensures HandGoes(s, DoSend(s), s.x.hand.value)
  {
    Misfit(s.bufsize, s.x.hand.value);
  }
}
