/** The executive's callbacks on one CTCI device, as the code runs them: uninterrupted, updating the
    device block in place (src/nsfctcib.c). Each is proved to do what the step system does when the
    executive takes its steps in a row, so the step system's theorems apply to it. */
module CtciDriver {
  import opened Options
  import opened Bytes
  import opened Codec
  import opened CtciMachine
  import opened CtciProgress

  // ---- runs of executive steps ---------------------------------------------------------------------------

  /** The executive is inside `ctci_io_kick`, with what that code relies on. */
  predicate InKick(s: State) {
    && (AtPark(s.x.pc) || AtSend(s.x.pc) || AtRelease(s.x.pc))
    && (s.x.hand.Some? <==> s.x.pc.EncodePacket?)
    && |s.w.wbuf| == s.bufsize <= BUF_MAX
  }

  function KickRank(pc: ExecPc): nat {
    match pc
    case Kick => 10 case TestArmed => 9 case SetHalting => 8 case HaltRead => 7
    case Dequeue => 6 case EncodePacket => 5 case SetTxbusy => 4 case PostGo => 3
    case ClearHold => 2 case ClearHalting => 1 case _ => 0
  }

  function KickLeft(x: Exec): nat {
    8 * (|x.sendq| + One(x.hand.Some?)) + KickRank(x.pc)
  }

  /** One more step of kick: back at the gate, or still inside with less to do. */
  ghost predicate KickGoes(s: State, t: State) {
    && |t.w.wbuf| == t.bufsize == s.bufsize
    && (t.x.pc.Gate? || (InKick(t) && KickLeft(t.x) < KickLeft(s.x)))
  }

  lemma ParkGoes(s: State)
    requires InKick(s) && AtPark(s.x.pc)
    ensures KickGoes(s, DoPark(s))
  {
  }

  lemma DequeueGoes(s: State)
    requires InKick(s) && s.x.pc.Dequeue?
    ensures KickGoes(s, DoSend(s))
  {
    var t := DoSend(s);
    assert t.w == s.w && if s.x.sendq == [] then t.x.pc.ClearHold? else t.x.pc.EncodePacket?;
  }

  lemma DropGoes(s: State)
    requires InKick(s) && s.x.pc.EncodePacket? && !Fits(s.bufsize, s.x.hand.value.data)
    ensures KickGoes(s, DoSend(s))
  {
    var t := DoSend(s);
    assert t.x.sendq == s.x.sendq && t.x.hand.None? && t.w == s.w && t.x.pc.Dequeue?;
  }

  lemma LoadGoes(s: State)
    requires InKick(s) && s.x.pc.EncodePacket? && Fits(s.bufsize, s.x.hand.value.data)
    ensures KickGoes(s, DoSend(s))
  {
    var t := DoSend(s);
    assert t.x.sendq == s.x.sendq && t.x.hand.None? && |t.w.wbuf| == |s.w.wbuf| && t.x.pc.SetTxbusy?;
  }

  lemma StartGoes(s: State)
    requires InKick(s) && (s.x.pc.SetTxbusy? || s.x.pc.PostGo?)
    ensures KickGoes(s, DoSend(s))
  {
  }

  lemma ReleaseGoes(s: State)
    requires InKick(s) && AtRelease(s.x.pc)
    ensures KickGoes(s, DoRelease(s))
  {
  }

  function KickStep(s: State): (t: State)
    requires InKick(s)
    ensures KickGoes(s, t)
  {
    if AtPark(s.x.pc) then ParkGoes(s); DoPark(s)
    else if s.x.pc.Dequeue? then DequeueGoes(s); DoSend(s)
    else if s.x.pc.EncodePacket? then
      if Fits(s.bufsize, s.x.hand.value.data) then LoadGoes(s); DoSend(s) else DropGoes(s); DoSend(s)
    else if AtSend(s.x.pc) then StartGoes(s); DoSend(s)
    else ReleaseGoes(s); DoRelease(s)
  }

  /** The rest of one `ctci_io_kick`, with no step of another agent in between. */
  function KickRun(s: State): (t: State)
    requires InKick(s)
    ensures t.x.pc.Gate? && |t.w.wbuf| == t.bufsize == s.bufsize
    decreases KickLeft(s.x)
  {
    var t := KickStep(s);
    if t.x.pc.Gate? then t else KickRun(t)
  }

  lemma {:induction false} KickRunSteps(s: State) returns (ss: seq<State>, acts: seq<Action>)
    requires InKick(s)
    ensures Run(ss, acts) && ss[0] == s && ss[|acts|] == KickRun(s)
    ensures forall i :: 0 <= i < |acts| ==> acts[i] == ExecStep([])
    decreases KickLeft(s.x)
  {
    var t := KickStep(s);
    assert t == Step(s, ExecStep([]));
    if t.x.pc.Gate? {
      return [s, t], [ExecStep([])];
    }
    var tt, more := KickRunSteps(t);
    RunCons(s, ExecStep([]), tt, more);
    ss, acts := [s] + tt, [ExecStep([])] + more;
  }

  lemma RunCons(s: State, a: Action, tt: seq<State>, more: seq<Action>)
    requires Run(tt, more) && Enabled(s, a) && tt[0] == Step(s, a)
    ensures Run([s] + tt, [a] + more)
  {
    var ss, acts := [s] + tt, [a] + more;
    forall i | 0 <= i < |acts| ensures Enabled(ss[i], acts[i]) && ss[i + 1] == Step(ss[i], acts[i]) {
      if i > 0 { assert ss[i] == tt[i - 1] && ss[i + 1] == tt[i] && acts[i] == more[i - 1]; }
    }
  }

  // ---- what one kick does --------------------------------------------------------------------------------------

  /** How many packets at the head of the queue do not fit a block. */
  function Misfits(bufsize: nat, q: seq<Pbuf>): (k: nat)
    ensures k <= |q|
    ensures forall i :: 0 <= i < k ==> !Fits(bufsize, q[i].data)
    ensures k < |q| ==> Fits(bufsize, q[k].data)
  {
    if q == [] || Fits(bufsize, q[0].data) then 0 else 1 + Misfits(bufsize, q[1..])
  }

  /** The first `k` queued packets dropped: each is freed and counted as an output error. */
  function Dropped(s: State, k: nat): State
    requires k <= |s.x.sendq|
  {
    s.(x := s.x.(sendq := s.x.sendq[k..]), h := Drop(s.h, k, Ids(s.x.sendq[..k]), Datas(s.x.sendq[..k])))
  }

  function Drop(h: History, k: nat, ids: multiset<nat>, ds: seq<Octets>): History {
    h.(oerr := h.oerr + k, freed := h.freed + ids, taken := h.taken + ds)
  }

  /** Outbound drained: the held READ is released. */
  function Released(s: State): State {
    s.(x := s.x.(pc := Gate, rhold := false, halting := false), r := s.r.(returnecb := true))
  }

  /** The head of the queue goes into the write buffer and the write subtask is told to start. */
  function Loaded(s: State): State
    requires s.x.sendq != [] && Fits(s.bufsize, s.x.sendq[0].data) && |s.w.wbuf| == s.bufsize
  {
    var p := s.x.sendq[0];
    var f := FrameOf(s.bufsize, p.data);
    s.(x := s.x.(pc := Gate, sendq := s.x.sendq[1..], txpbuf := Some(p), txlen := |f|, txbusy := true),
       w := s.w.(wbuf := Overlay(s.w.wbuf, 0, f), onwire := false, txgoecb := true),
       h := s.h.(taken := s.h.taken + [p.data]))
  }

  function Drain(s: State): State
    requires |s.w.wbuf| == s.bufsize
  {
    var k := Misfits(s.bufsize, s.x.sendq);
    var d := Dropped(s, k);
    if d.x.sendq == [] then Released(d) else Loaded(d)
  }

  /** The IOHALT takes effect at once on an outstanding READ, and is a no-op otherwise. */
  function Halted(s: State): State {
    s.(x := s.x.(pc := Gate, halting := true), h := s.h.(lastHalt := s.h.started),
       r := if s.r.ch.Out? then s.r.(ch := Posting, chPost := POST_PURGED, chResid := s.bufsize) else s.r)
  }

  function Kicked(s: State): State
    requires |s.w.wbuf| == s.bufsize
  {
    if s.x.txbusy then s.(x := s.x.(pc := Gate))
    else if s.x.rhold then Drain(s)
    else if s.x.sendq != [] && !s.x.halting && s.r.rarmed then Halted(s)
    else s.(x := s.x.(pc := Gate))
  }

  lemma DropOne(s: State, t: State)
    requires InKick(s) && s.x.pc.Dequeue? && s.x.sendq != [] && !Fits(s.bufsize, s.x.sendq[0].data)
    requires t == Dropped(s, 1)
    ensures InKick(t) && KickRun(s) == KickRun(t)
  {
    var p := s.x.sendq[0];
    var e := KickStep(s);
    assert e == s.(x := s.x.(pc := EncodePacket, hand := Some(p), sendq := s.x.sendq[1..]));
    assert s.x.sendq[..1] == [p];
    assert Ids([p]) == multiset{p.id} by { assert Ids([]) == multiset{}; assert [p][..0] == []; }
    assert KickStep(e) == t;
  }

  lemma ReleaseTail(s: State)
    requires InKick(s) && s.x.pc.ClearHalting?
    ensures KickRun(s) == s.(x := s.x.(pc := Gate, halting := false), r := s.r.(returnecb := true))
  {
    var c := KickStep(s);
    assert c == s.(x := s.x.(pc := PostReturn, halting := false));
    assert KickRun(s) == KickRun(c);
  }

  lemma ReleaseRun(s: State)
    requires InKick(s) && s.x.pc.Dequeue? && s.x.sendq == []
    ensures KickRun(s) == Released(s)
  {
    var a := KickStep(s);
    assert a == s.(x := s.x.(pc := ClearHold));
    var b := KickStep(a);
    assert b == s.(x := s.x.(pc := ClearHalting, rhold := false));
    assert KickRun(s) == KickRun(a) == KickRun(b);
    ReleaseTail(b);
  }

  lemma LoadRun(s: State)
    requires InKick(s) && s.x.pc.Dequeue? && s.x.sendq != [] && Fits(s.bufsize, s.x.sendq[0].data)
    ensures KickRun(s) == Loaded(s)
  {
    var a := KickStep(s);
    assert a == s.(x := s.x.(pc := EncodePacket, hand := Some(s.x.sendq[0]), sendq := s.x.sendq[1..]));
    var b := Framed(s);
    assert KickStep(a) == b;
    StartRun(s, b);
    assert KickRun(s) == KickRun(a) == KickRun(b);
  }

  function Framed(s: State): State
    requires s.x.sendq != [] && Fits(s.bufsize, s.x.sendq[0].data) && |s.w.wbuf| == s.bufsize
  {
    var p := s.x.sendq[0];
    var f := FrameOf(s.bufsize, p.data);
    s.(x := s.x.(pc := SetTxbusy, hand := None, sendq := s.x.sendq[1..], txpbuf := Some(p), txlen := |f|),
       w := s.w.(wbuf := Overlay(s.w.wbuf, 0, f), onwire := false),
       h := s.h.(taken := s.h.taken + [p.data]))
  }

  lemma StartRun(s: State, b: State)
    requires s.x.sendq != [] && Fits(s.bufsize, s.x.sendq[0].data) && |s.w.wbuf| == s.bufsize && s.x.hand.None?
    requires b == Framed(s) && InKick(b)
    ensures KickRun(b) == Loaded(s)
  {
    var c := KickStep(b);
    assert c == b.(x := b.x.(pc := PostGo, txbusy := true));
    assert KickRun(b) == KickRun(c) == KickStep(c);
  }

  lemma DroppedNone(s: State)
    ensures Dropped(s, 0) == s
  {
    assert s.x.sendq[0..] == s.x.sendq && s.x.sendq[..0] == [];
    assert Ids([]) == multiset{} && Datas([]) == [];
  }

  lemma {:induction false} IdsSplit(q: seq<Pbuf>, p: seq<Pbuf>)
    ensures Ids(p + q) == Ids(p) + Ids(q)
  {
    if q == [] {
      assert p + q == p;
    } else {
      var n := |q| - 1;
      assert (p + q)[..|p + q| - 1] == p + q[..n];
      IdsSplit(q[..n], p);
    }
  }

  lemma DroppedIds(q: seq<Pbuf>, i: nat, j: nat)
    requires i + j <= |q|
    ensures q[i..][j..] == q[i + j..]
    ensures Ids(q[..i]) + Ids(q[i..][..j]) == Ids(q[..i + j])
    ensures Datas(q[..i]) + Datas(q[i..][..j]) == Datas(q[..i + j])
  {
    assert q[..i + j] == q[..i] + q[i..][..j];
    IdsSplit(q[i..][..j], q[..i]);
  }

  lemma DropTwice(h: History, i: nat, a: multiset<nat>, d: seq<Octets>, j: nat, b: multiset<nat>, e: seq<Octets>)
    ensures Drop(Drop(h, i, a, d), j, b, e) == Drop(h, i + j, a + b, d + e)
  {
    assert h.freed + a + b == h.freed + (a + b);
    assert h.taken + d + e == h.taken + (d + e);
  }

  lemma DroppedMore(s: State, i: nat, j: nat)
    requires i + j <= |s.x.sendq|
    ensures Dropped(Dropped(s, i), j) == Dropped(s, i + j)
  {
    var q := s.x.sendq;
    DroppedIds(q, i, j);
    DropTwice(s.h, i, Ids(q[..i]), Datas(q[..i]), j, Ids(q[i..][..j]), Datas(q[i..][..j]));
  }

  /** The drain, one packet at a time. */
  lemma DrainOne(s: State)
    requires |s.w.wbuf| == s.bufsize
    ensures s.x.sendq == [] ==> Drain(s) == Released(s)
    ensures s.x.sendq != [] && Fits(s.bufsize, s.x.sendq[0].data) ==> Drain(s) == Loaded(s)
    ensures s.x.sendq != [] && !Fits(s.bufsize, s.x.sendq[0].data) ==> Drain(s) == Drain(Dropped(s, 1))
  {
    DroppedNone(s);
    var q := s.x.sendq;
    if q != [] && !Fits(s.bufsize, q[0].data) {
      DroppedMore(s, 1, Misfits(s.bufsize, q[1..]));
    }
  }

  /** The loop of kick over the send queue drops the packets that do not fit, then either starts one
      WRITE with the first that does or, with the queue drained, releases the READ. */
  lemma {:induction false} DrainRun(s: State)
    requires InKick(s) && s.x.pc.Dequeue?
    ensures KickRun(s) == Drain(s)
    decreases |s.x.sendq|
  {
    DrainOne(s);
    if s.x.sendq == [] {
      ReleaseRun(s);
    } else if Fits(s.bufsize, s.x.sendq[0].data) {
      LoadRun(s);
    } else {
      DropOne(s, Dropped(s, 1));
      DrainRun(Dropped(s, 1));
    }
  }

  lemma HaltLast(s: State, u: State)
    requires InKick(u) && u.x.pc.HaltRead? && u == s.(x := s.x.(pc := HaltRead, halting := true))
    ensures KickRun(u) == Halted(s)
  {
    assert KickRun(u) == KickStep(u) == DoPark(u);
  }

  lemma HaltRun(s: State)
    requires InKick(s) && s.x.pc.TestArmed? && s.r.rarmed
    ensures KickRun(s) == Halted(s)
  {
    var t := KickStep(s);
    assert t == s.(x := s.x.(pc := SetHalting));
    var u := KickStep(t);
    assert u == s.(x := s.x.(pc := HaltRead, halting := true));
    assert KickRun(s) == KickRun(t) == KickRun(u);
    HaltLast(s, u);
  }

  lemma HeldRun(s: State)
    requires InKick(s) && s.x.pc.Kick? && !s.x.txbusy && s.x.rhold
    ensures KickRun(s) == Drain(s)
  {
    DrainRun(KickStep(s));
  }

  lemma ArmedRun(s: State)
    requires InKick(s) && s.x.pc.Kick? && !s.x.txbusy && !s.x.rhold && s.x.sendq != [] && !s.x.halting && s.r.rarmed
    ensures KickRun(s) == Halted(s)
  {
    HaltRun(KickStep(s));
  }

  /** One whole kick, taken without interruption. */
  lemma KickRunIs(s: State)
    requires InKick(s) && s.x.pc.Kick?
    ensures KickRun(s) == Kicked(s)
  {
    if s.x.txbusy { }
    else if s.x.rhold { HeldRun(s); }
    else if s.x.sendq != [] && !s.x.halting && s.r.rarmed { ArmedRun(s); }
  }

  /** After any kick the READ is held only behind a WRITE: nothing can be left stranded. */
  lemma KickLeavesNothingHeld(s: State)
    requires InKick(s) && s.x.pc.Kick?
    ensures var t := KickRun(s); t.x.rhold ==> t.x.txbusy
    ensures var t := KickRun(s); s.x.rhold && !s.x.txbusy && !t.x.txbusy ==> t.x.sendq == [] && t.r.returnecb && !t.x.halting
  {
    KickRunIs(s);
    KickedHoldsNothing(s);
  }

  lemma KickedHoldsNothing(s: State)
    requires |s.w.wbuf| == s.bufsize
    ensures var t := Kicked(s); t.x.rhold ==> t.x.txbusy
    ensures var t := Kicked(s); s.x.rhold && !s.x.txbusy && !t.x.txbusy ==> t.x.sendq == [] && t.r.returnecb && !t.x.halting
  {
  }

  // ---- ... in octets and numbers --------------------------------------------------------------------------------

  /** The driver counts a packet in a halfword: `n` octets of it go, in a block ten octets longer. */
  lemma FitsIff(bufsize: nat, p: Octets)
    requires bufsize <= 0xFFFF
    ensures Fits(bufsize, p) <==> 0 < |p| % 0x1_0000 <= bufsize - 10
    ensures Fits(bufsize, p) ==> Holds(FrameOf(bufsize, p), p[..|p| % 0x1_0000])
  {
    if Fits(bufsize, p) { FrameHolds(p[..|p| % 0x1_0000]); }
  }

  /** No block can be made of the packet: it is empty by its halfword length, or leaves no room for the framing. */
  predicate Unsendable(bufsize: nat, b: Pbuf) {
    |b.data| % 0x1_0000 == 0 || |b.data| % 0x1_0000 + 10 > bufsize
  }

  lemma Misfit(bufsize: nat, b: Pbuf)
    requires bufsize <= 0xFFFF
    ensures Unsendable(bufsize, b) <==> !Fits(bufsize, b.data)
  {
    FitsIff(bufsize, b.data);
  }

  /** The block that waits to be written is made of the packet `b`. */
  ghost predicate Waits(t: State, b: Pbuf) {
    var n := |b.data| % 0x1_0000;
    t.x.txpbuf == Some(b) && t.x.txlen == n + 10 <= |t.w.wbuf| && Holds(t.w.wbuf[..n + 10], b.data[..n]) && !t.w.onwire
  }

  lemma LoadWaits(t: State, b: Pbuf, bufsize: nat, wbuf: Octets)
    requires Fits(bufsize, b.data) && |wbuf| == bufsize <= 0xFFFF
    requires t.x.txpbuf == Some(b) && t.x.txlen == |FrameOf(bufsize, b.data)| && !t.w.onwire
    requires t.w.wbuf == Overlay(wbuf, 0, FrameOf(bufsize, b.data))
    ensures Waits(t, b)
  {
    FitsIff(bufsize, b.data);
  }

  /** The first `k` packets in the queue are dropped, each freed and counted: no block can be made of them. */
  ghost predicate DropsHead(s: State, t: State, k: nat) {
    && k <= |s.x.sendq| && (forall i :: 0 <= i < k ==> Unsendable(s.bufsize, s.x.sendq[i]))
    && t.h.oerr == s.h.oerr + k && t.h.freed == s.h.freed + Ids(s.x.sendq[..k]) && t.h.wire == s.h.wire
  }

  /** Packet `k` of the queue goes into the write buffer, and the write subtask is told to start. */
  ghost predicate SendsNext(s: State, t: State, k: nat) {
    && k < |s.x.sendq| && !Unsendable(s.bufsize, s.x.sendq[k]) && Waits(t, s.x.sendq[k]) && t.x.sendq == s.x.sendq[k + 1..]
    && t.x.txbusy && t.w.txgoecb && t.x.rhold == s.x.rhold && t.r == s.r && t.h.taken == s.h.taken + Datas(s.x.sendq[..k + 1])
  }

  /** The queue is empty and the held READ is released. */
  ghost predicate LetsGo(s: State, t: State) {
    && t.x.sendq == [] && t.x.txbusy == s.x.txbusy && t.w == s.w && t.h.taken == s.h.taken + Datas(s.x.sendq)
    && !t.x.rhold && !t.x.halting && t.r == s.r.(returnecb := true)
  }

  /** A kick with the READ held and no WRITE in flight drops the packets at the head of the queue no block
      can be made of, up to the first that can be sent. That one is sent; with none left the READ is released. */
  lemma KickDrops(s: State) returns (k: nat)
    requires InKick(s) && s.x.pc.Kick? && !s.x.txbusy && s.x.rhold
    ensures DropsHead(s, KickRun(s), k)
    ensures SendsNext(s, KickRun(s), k) || (k == |s.x.sendq| && LetsGo(s, KickRun(s)))
  {
    KickRunIs(s);
    k := DrainDrops(s);
  }

  lemma MisfitsUnsendable(s: State, k: nat)
    requires s.bufsize <= 0xFFFF && k == Misfits(s.bufsize, s.x.sendq)
    ensures DropsHead(s, Dropped(s, k), k)
    ensures k < |s.x.sendq| ==> Fits(s.bufsize, s.x.sendq[k].data) && !Unsendable(s.bufsize, s.x.sendq[k])
  {
    var q := s.x.sendq;
    forall i | 0 <= i < k ensures Unsendable(s.bufsize, q[i]) { Misfit(s.bufsize, q[i]); }
    if k < |q| { Misfit(s.bufsize, q[k]); }
  }

  /** Loading the head of what is left, or releasing the READ, drops nothing more. */
  lemma DroppedStays(s: State, d: State, t: State, k: nat)
    requires DropsHead(s, d, k) && t.h.oerr == d.h.oerr && t.h.freed == d.h.freed && t.h.wire == d.h.wire
    ensures DropsHead(s, t, k)
  {
  }

  lemma DrainDrops(s: State) returns (k: nat)
    requires |s.w.wbuf| == s.bufsize <= 0xFFFF
    ensures DropsHead(s, Drain(s), k)
    ensures SendsNext(s, Drain(s), k) || (k == |s.x.sendq| && LetsGo(s, Drain(s)))
  {
    k := Misfits(s.bufsize, s.x.sendq);
    MisfitsUnsendable(s, k);
    var d := Dropped(s, k);
    DroppedStays(s, d, Drain(s), k);
    if k < |s.x.sendq| { LoadedSends(s, d, k); } else { ReleasedLetsGo(s, d); }
  }

  lemma LoadedWaits(d: State)
    requires d.x.sendq != [] && Fits(d.bufsize, d.x.sendq[0].data) && |d.w.wbuf| == d.bufsize <= 0xFFFF
    ensures Waits(Loaded(d), d.x.sendq[0])
  {
    LoadWaits(Loaded(d), d.x.sendq[0], d.bufsize, d.w.wbuf);
  }

  lemma LoadedSends(s: State, d: State, k: nat)
    requires k < |s.x.sendq| && d == Dropped(s, k) && |d.w.wbuf| == d.bufsize <= 0xFFFF
    requires Fits(s.bufsize, s.x.sendq[k].data) && !Unsendable(s.bufsize, s.x.sendq[k])
    ensures SendsNext(s, Loaded(d), k)
  {
    var q := s.x.sendq;
    LoadedWaits(d);
    assert q[k..][1..] == q[k + 1..];
    assert Datas(q[..k + 1]) == Datas(q[..k]) + [q[k].data];
    assert s.h.taken + Datas(q[..k]) + [q[k].data] == s.h.taken + Datas(q[..k + 1]);
  }

  lemma ReleasedLetsGo(s: State, d: State)
    requires d == Dropped(s, |s.x.sendq|)
    ensures LetsGo(s, Released(d))
  {
    assert s.x.sendq[..|s.x.sendq|] == s.x.sendq;
  }

  // ---- what one service does ---------------------------------------------------------------------------------------

  /** `fates` can be what becomes of the packets of the block about to be decoded. */
  predicate Posts(s: State, fates: seq<Fate>) {
    && s.r.rlen <= |s.r.rbuf|
    && if s.r.rready && s.r.rpost == POST_NORMAL
       then |fates| == |Decode(s.r.rbuf[..s.r.rlen])| && |s.x.evq| + Ups(fates) <= EVT_POOL
       else fates == []
  }

  /** The buffers a filled read block sends up. */
  function Sent(s: State, fates: seq<Fate>): seq<Pbuf>
    requires s.r.rready && Posts(s, fates)
  {
    if s.r.rpost == POST_NORMAL then HandedUp(Decode(s.r.rbuf[..s.r.rlen]), fates, s.h.rx.allocs) else []
  }

  /** The account of a filled read block: decoded if it carries data, else counted by its post code. */
  function Accounted(s: State, fates: seq<Fate>): History
    requires s.r.rready && Posts(s, fates)
  {
    if s.r.rpost == POST_NORMAL then Decoded(s.h, s.r.rbuf[..s.r.rlen], fates)
    else if s.r.rpost == POST_PURGED then s.h.(rpurge := s.h.rpurge + 1)
    else s.h.(ierr := s.h.ierr + 1)
  }

  /** A filled read block consumed, and the READ then held. */
  function Consumed(s: State, fates: seq<Fate>): State
    requires Posts(s, fates)
  {
    if !s.r.rready then s
    else s.(x := s.x.(rhold := true, evq := s.x.evq + Sent(s, fates)), r := s.r.(rready := false), h := Accounted(s, fates))
  }

  /** A completed WRITE reaped: its packet freed once and counted by its post code. */
  function Reaped(s: State): State {
    if !(s.w.wready && s.x.txbusy) then s
    else
      var h := if s.w.wpost == POST_NORMAL then s.h.(out := s.h.out + 1) else s.h.(oerr := s.h.oerr + 1);
      s.(x := s.x.(txpbuf := None, txbusy := false), w := s.w.(wready := false),
         h := h.(freed := h.freed + OptIds(s.x.txpbuf)))
  }

  /** At pass start: everything ready is consumed, and the dispatch that follows has a fresh budget. */
  function Serviced(s: State, fates: seq<Fate>): State
    requires Posts(s, fates)
  {
    var t := Reaped(Consumed(s, fates));
    t.(x := t.x.(pc := Handlers, budget := DRAIN_BUDGET))
  }

  /** A run of executive steps only. */
  ghost predicate ExecRun(ss: seq<State>, acts: seq<Action>, s: State, t: State) {
    && Run(ss, acts) && ss[0] == s && ss[|acts|] == t
    && forall i :: 0 <= i < |acts| ==> acts[i].ExecStep?
  }

  lemma ExecRunsCompose(ss: seq<State>, acts: seq<Action>, tt: seq<State>, more: seq<Action>, s: State, t: State, u: State)
    requires ExecRun(ss, acts, s, t) && ExecRun(tt, more, t, u)
    ensures ExecRun(ss + tt[1..], acts + more, s, u)
  {
    RunsCompose(ss, acts, tt, more);
  }

  lemma FourSteps(a: State, p: seq<Fate>, b: State, q: seq<Fate>, c: State, d: State, e: State)
    requires Enabled(a, ExecStep(p)) && b == Step(a, ExecStep(p))
    requires Enabled(b, ExecStep(q)) && c == Step(b, ExecStep(q))
    requires Enabled(c, ExecStep([])) && d == Step(c, ExecStep([]))
    requires Enabled(d, ExecStep([])) && e == Step(d, ExecStep([]))
    ensures ExecRun([a, b, c, d, e], [ExecStep(p), ExecStep(q), ExecStep([]), ExecStep([])], a, e)
  {
  }

  lemma DecodeIsConsume(s: State, fates: seq<Fate>, t: State)
    requires s.r.rready && Posts(s, fates) && t == s.(x := s.x.(pc := DecodeBlock))
    ensures ExecEnabled(t, fates)
    ensures DoService(t, fates) ==
      Consumed(s, fates).(x := s.x.(pc := ClearReady, evq := s.x.evq + Sent(s, fates)), r := s.r)
  {
  }

  lemma HoldIsConsume(s: State, fates: seq<Fate>, u: State)
    requires s.r.rready && Posts(s, fates)
    requires u == Consumed(s, fates).(x := s.x.(pc := ClearReady, evq := s.x.evq + Sent(s, fates)), r := s.r)
    ensures ExecEnabled(u, []) && ExecEnabled(DoService(u, []), []) && DoService(u, []).x.pc.SetHold?
    ensures DoService(DoService(u, []), []) == Consumed(s, fates).(x := Consumed(s, fates).x.(pc := TestWready))
  {
  }

  lemma ConsumeSteps(s: State, fates: seq<Fate>) returns (ss: seq<State>, acts: seq<Action>)
    requires s.x.pc.TestReady? && Posts(s, fates)
    ensures ExecRun(ss, acts, s, Consumed(s, fates).(x := Consumed(s, fates).x.(pc := TestWready)))
  {
    var t := DoService(s, []);
    if !s.r.rready {
      return [s, t], [ExecStep([])];
    }
    DecodeIsConsume(s, fates, t);
    var u := DoService(t, fates);
    HoldIsConsume(s, fates, u);
    var v := DoService(u, []);
    var w := DoService(v, []);
    FourSteps(s, [], t, fates, u, v, w);
    ss, acts := [s, t, u, v, w], [ExecStep([]), ExecStep(fates), ExecStep([]), ExecStep([])];
  }

  lemma ReapIsReaped(s: State)
    requires s.x.pc.TestWready? && s.w.wready && s.x.txbusy
    ensures DoService(s, []).x.pc.Reap?
    ensures DoService(DoService(s, []), []).x.pc.ClearWready?
    ensures DoService(DoService(DoService(s, []), []), []).x.pc.ClearTxbusy?
    ensures DoService(DoService(DoService(DoService(s, []), []), []), [])
              == Reaped(s).(x := Reaped(s).x.(pc := Handlers, budget := DRAIN_BUDGET))
  {
  }

  lemma ReapSteps(s: State) returns (ss: seq<State>, acts: seq<Action>)
    requires s.x.pc.TestWready?
    ensures ExecRun(ss, acts, s, Reaped(s).(x := Reaped(s).x.(pc := Handlers, budget := DRAIN_BUDGET)))
  {
    var t := DoService(s, []);
    if !(s.w.wready && s.x.txbusy) {
      return [s, t], [ExecStep([])];
    }
    ReapIsReaped(s);
    var u := DoService(t, []);
    var v := DoService(u, []);
    var w := DoService(v, []);
    FourSteps(s, [], t, [], u, v, w);
    ss, acts := [s, t, u, v, w], [ExecStep([]), ExecStep([]), ExecStep([]), ExecStep([])];
  }

  lemma PassThrough(c: State)
    ensures var t := c.(x := c.x.(pc := TestWready));
      Reaped(t).(x := Reaped(t).x.(pc := Handlers, budget := DRAIN_BUDGET))
        == Reaped(c).(x := Reaped(c).x.(pc := Handlers, budget := DRAIN_BUDGET))
  {
  }

  /** A call of `ctci_io_service` is one of the interleavings. */
  lemma ServiceSteps(s: State, fates: seq<Fate>) returns (ss: seq<State>, acts: seq<Action>)
    requires s.x.pc.TestReady? && Posts(s, fates)
    ensures ExecRun(ss, acts, s, Serviced(s, fates))
  {
    var t := Consumed(s, fates).(x := Consumed(s, fates).x.(pc := TestWready));
    var tt, first := ConsumeSteps(s, fates);
    var uu, second := ReapSteps(t);
    PassThrough(Consumed(s, fates));
    ExecRunsCompose(tt, first, uu, second, s, t, Serviced(s, fates));
    return tt + uu[1..], first + second;
  }

  lemma RunReachable(s: State, ss: seq<State>, acts: seq<Action>, t: State)
    requires Reachable(s) && ExecRun(ss, acts, s, t)
    ensures Reachable(t)
  {
    var tt, before :| Run(tt, before) && Initial(tt[0]) && tt[|before|] == s;
    RunsCompose(tt, before, ss, acts);
    var us, all := tt + ss[1..], before + acts;
    assert Run(us, all) && Initial(us[0]) && us[|all|] == t;
  }

  /** Whatever the interleaving so far, a whole service or a whole kick leads to a reachable state:
      every theorem about reachable states holds after the callbacks as the code runs them. */
  lemma CallbacksReachable(s: State, fates: seq<Fate>)
    requires Reachable(s)
    ensures InKick(s) && s.x.pc.Kick? ==> Reachable(Kicked(s))
    ensures s.x.pc.TestReady? && Posts(s, fates) ==> Reachable(Serviced(s, fates))
  {
    if s.x.pc.Kick? && InKick(s) {
      KickRunIs(s);
      var ss, acts := KickRunSteps(s);
      RunReachable(s, ss, acts, Kicked(s));
    } else if s.x.pc.TestReady? && Posts(s, fates) {
      var ss, acts := ServiceSteps(s, fates);
      RunReachable(s, ss, acts, Serviced(s, fates));
    }
  }
}
