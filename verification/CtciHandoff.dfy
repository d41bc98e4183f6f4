/** What crosses the CTCI driver: every completed READ block is decoded once and in order, every WRITE
    carries the encoding of the next accepted packet, and every packet buffer is freed exactly once. */
module CtciHandoff {
  import opened Options
  import opened Bytes
  import opened Codec
  import opened CtciMachine
  import opened CtciInvariant
  import opened CtciProgress

  // ---- sequences and the identities of packet buffers ----------------------------------------------------

  lemma FramesAppend(bufsize: nat, ps: seq<Octets>, p: Octets)
    ensures Frames(bufsize, ps + [p]) == Frames(bufsize, ps) + if Fits(bufsize, p) then [FrameOf(bufsize, p)] else []
  {
    assert (ps + [p])[..|ps|] == ps;
  }

  lemma DatasAppend(q: seq<Pbuf>, p: Pbuf)
    ensures Datas(q + [p]) == Datas(q) + [p.data]
  {
  }

  lemma DatasHead(q: seq<Pbuf>)
    requires q != []
    ensures Datas(q) == [q[0].data] + Datas(q[1..])
  {
  }

  lemma IdsAppend(q: seq<Pbuf>, p: Pbuf)
    ensures Ids(q + [p]) == Ids(q) + multiset{p.id}
  {
    assert (q + [p])[..|q|] == q;
  }

  lemma {:induction false} IdsHead(q: seq<Pbuf>)
    requires q != []
    ensures Ids(q) == multiset{q[0].id} + Ids(q[1..])
  {
    var n := |q| - 1;
    var last := q[n];
    assert q[..n] + [last] == q;
    IdsAppend(q[..n], last);
    if n > 0 {
      IdsHead(q[..n]);
      assert q[..n][1..] == q[1..n] && q[1..n] + [last] == q[1..];
      IdsAppend(q[1..n], last);
    }
  }

  /** The buffers of the first `n` calls, each once. */
  function Issued(n: nat): (m: multiset<nat>)
    ensures forall id: nat :: m[id] == if id < n then 1 else 0
  {
    if n == 0 then multiset{} else Issued(n - 1) + multiset{n - 1}
  }

  lemma IssuedNext(n: nat)
    ensures Issued(n + 1) == Issued(n) + multiset{n}
  {
  }

  // ---- inbound: from completion to decode ------------------------------------------------------------------

  /** The completed block the executive has still to decode, as it stands in the read buffer. */
  function Pending(bufsize: nat, pc: ExecPc, r: ReadSide): seq<Octets>
    requires |r.rbuf| == bufsize && r.rlen <= bufsize
  {
    if (Started(r) && !r.ch.Out?) || r.pc.RClearArmed? || r.pc.RStatus? then
      if r.chPost == POST_NORMAL then [r.rbuf[..ChLen(bufsize, r.chResid)]] else []
    else if r.pc.RClearReturn? || r.pc.RSetReady? || (Parked(r) && r.rready && !pc.ClearReady?) then
      if r.rpost == POST_NORMAL then [r.rbuf[..r.rlen]] else []
    else []
  }

  ghost predicate Inbound(s: State) {
    && |s.r.rbuf| == s.bufsize && s.r.rlen <= s.bufsize
    && if s.stop then s.h.decoded <= s.h.completed
       else s.h.completed == s.h.decoded + Pending(s.bufsize, s.x.pc, s.r)
  }

  // ---- outbound: from the queue to the wire ------------------------------------------------------------------

  /** The block encoded in the write buffer and not yet started on the channel. */
  function InBuffer(x: Exec, w: WriteSide): seq<Octets>
    requires x.txlen <= |w.wbuf|
  {
    if x.txpbuf.Some? && !w.onwire then [w.wbuf[..x.txlen]] else []
  }

  /** A packet is in flight exactly while the executive says so, and its block leaves once. */
  ghost predicate InFlight(x: Exec, w: WriteSide, stop: bool) {
    && (!stop ==> (x.txpbuf.Some? <==> x.pc.SetTxbusy? || (x.txbusy && !x.pc.ClearWready? && !x.pc.ClearTxbusy?)))
    && (!stop && (x.pc.SetTxbusy? || x.pc.PostGo? || w.txgoecb || w.pc.WClearGo? || w.pc.WTestStop?) ==> !w.onwire)
    && (!stop && (WOut(w) || WEnding(w) || w.wready) ==> w.onwire)
    && (w.pc.WClearWecb? || w.pc.WExcp? ==> x.txpbuf.Some? && !w.onwire)
    && (x.pc.Flush? || x.pc.Down? ==> x.retained || x.txpbuf.None?)
    && (x.pc.Down? ==> |x.sendq| == 0)
  }

  /** The write buffer holds the encoding of the packet in flight, unchanged for as long as it is. */
  ghost predicate Encoded(bufsize: nat, x: Exec, w: WriteSide) {
    x.txpbuf.Some? ==>
      && Fits(bufsize, x.txpbuf.value.data) && |w.wbuf| == bufsize
      && x.txlen == |FrameOf(bufsize, x.txpbuf.value.data)|
      && w.wbuf[..x.txlen] == FrameOf(bufsize, x.txpbuf.value.data)
  }

  ghost predicate Outbound(s: State) {
    && s.x.txlen <= |s.w.wbuf|
    && (|| Frames(s.bufsize, s.h.taken) == s.h.wire + InBuffer(s.x, s.w)
        || (s.stop && s.w.pc.WEnd? && s.h.wire <= Frames(s.bufsize, s.h.taken)))
  }

  ghost predicate Queued(x: Exec, h: History) {
    if x.pc.Down? then h.taken <= h.accepted
    else h.accepted == h.taken + OptData(x.hand) + Datas(x.sendq)
  }

  // ---- packet buffers ---------------------------------------------------------------------------------------

  ghost predicate Conserved(x: Exec, h: History) {
    Issued(h.sends) == h.freed + Ids(x.sendq) + OptIds(x.hand) + OptIds(x.txpbuf)
  }

  ghost predicate Counted(x: Exec, h: History) {
    x.pc.Flush? || x.pc.Down? || h.sends == h.out + h.oerr + |x.sendq| + One(x.hand.Some?) + One(x.txpbuf.Some?)
  }

  ghost predicate Handoff(s: State) {
    && Inbound(s)
    && InFlight(s.x, s.w, s.stop)
    && Encoded(s.bufsize, s.x, s.w)
    && Outbound(s)
    && Queued(s.x, s.h)
    && Conserved(s.x, s.h)
    && Counted(s.x, s.h)
  }

  lemma InitHandoff(s: State)
    requires Initial(s)
    ensures Handoff(s)
  {
  }

  // ---- the read subtask and its channel ---------------------------------------------------------------------

  /** Nothing outbound moves. */
  ghost predicate SameOutbound(s: State, t: State) {
    && t.bufsize == s.bufsize && t.x == s.x && t.w == s.w && t.stop == s.stop
    && t.h.taken == s.h.taken && t.h.wire == s.h.wire && t.h.accepted == s.h.accepted
    && t.h.sends == s.h.sends && t.h.freed == s.h.freed && t.h.out == s.h.out && t.h.oerr == s.h.oerr
  }

  lemma InboundMoves(s: State, t: State)
    requires Handoff(s) && SameOutbound(s, t) && Inbound(t)
    ensures Handoff(t)
  {
  }

  /** A READ completes: its data, if any, is now pending. */
  ghost predicate Lands(s: State, t: State) {
    && t.bufsize == s.bufsize && t.x.pc == s.x.pc && t.stop == s.stop && t.h.decoded == s.h.decoded
    && |t.r.rbuf| == |s.r.rbuf| == s.bufsize && t.r.rlen == s.r.rlen && t.r.ch.Posting? && Started(t.r)
    && t.h.completed == s.h.completed
         + if t.r.chPost == POST_NORMAL then [t.r.rbuf[..ChLen(t.bufsize, t.r.chResid)]] else []
  }

  lemma LandsInbound(s: State, t: State)
    requires Inbound(s) && Lands(s, t)
    requires Starting(s.r) || (Started(s.r) && s.r.ch.Out?)
    ensures Inbound(t)
  {
    assert Pending(s.bufsize, s.x.pc, s.r) == [];
  }

  lemma ExcpInbound(s: State)
    requires Inbound(s) && ReadEnabled(s) && s.r.pc.RExcp?
    ensures Inbound(DoRead(s))
  {
    if s.r.inq != [] {
      LandsInbound(s, DoRead(s));
    }
  }

  /** The steps of the read subtask that move no data. */
  ghost predicate SameBlock(s: State, t: State) {
    && t.bufsize == s.bufsize && t.x.pc == s.x.pc && t.stop == s.stop && t.r.rbuf == s.r.rbuf
    && t.h.completed == s.h.completed && t.h.decoded == s.h.decoded
  }

  lemma StartingInbound(s: State)
    requires Inbound(s) && ReadEnabled(s) && Starting(s.r) && !s.r.pc.RExcp?
    ensures Inbound(DoRead(s))
  {
    var t := DoRead(s);
    assert SameBlock(s, t) && t.r.rlen == s.r.rlen;
    if !s.stop { assert Pending(s.bufsize, s.x.pc, s.r) == Pending(t.bufsize, t.x.pc, t.r) == []; }
  }

  lemma ArmedInbound(s: State)
    requires (!s.stop ==> ReadToken(s.x, s.r)) && Inbound(s) && ReadEnabled(s) && Started(s.r)
    requires !s.stop && s.r.recb ==> s.r.ch.Idle?
    ensures Inbound(DoRead(s))
  {
    var t := DoRead(s);
    assert SameBlock(s, t) && t.r.rlen == s.r.rlen && t.r.ch == s.r.ch;
  }

  lemma UpInbound(s: State)
    requires (!s.stop ==> ReadToken(s.x, s.r) && ReadChannel(s.r)) && Inbound(s) && ReadEnabled(s) && InHand(s.r)
    ensures Inbound(DoRead(s))
  {
    var t := DoRead(s);
    assert SameBlock(s, t);
  }

  lemma ParkedInbound(s: State)
    requires (!s.stop ==> s.r.returnecb ==> !s.r.rready) && Inbound(s) && ReadEnabled(s) && Parked(s.r)
    ensures Inbound(DoRead(s))
  {
    var t := DoRead(s);
    assert SameBlock(s, t) && t.r.rlen == s.r.rlen && t.r.rready == s.r.rready;
  }

  lemma GoneInbound(s: State)
    requires s.stop && Inbound(s) && ReadEnabled(s) && ReadGone(s.r)
    ensures Inbound(DoRead(s))
  {
  }

  lemma ReadLeaves(s: State)
    requires ReadEnabled(s) && !s.r.pc.RExcp?
    ensures SameOutbound(s, DoRead(s))
  {
  }

  lemma ExcpLeaves(s: State)
    requires ReadEnabled(s) && s.r.pc.RExcp?
    ensures SameOutbound(s, DoRead(s))
  {
  }

  lemma ReadInbound(s: State)
    requires Control(s) && Handoff(s) && ReadEnabled(s) && !s.r.pc.RExcp?
    ensures Inbound(DoRead(s))
  {
    if InHand(s.r) { UpInbound(s); }
    else if Parked(s.r) { ParkedInbound(s); }
    else if ReadGone(s.r) { GoneInbound(s); }
    else if Starting(s.r) { StartingInbound(s); }
    else { ArmedInbound(s); }
  }

  lemma ReadHands(s: State)
    requires Control(s) && Handoff(s) && ReadEnabled(s)
    ensures Handoff(DoRead(s))
  {
    if s.r.pc.RExcp? { ExcpInbound(s); ExcpLeaves(s); } else { ReadInbound(s); ReadLeaves(s); }
    InboundMoves(s, DoRead(s));
  }

  // ---- the write subtask --------------------------------------------------------------------------------------

  /** Nothing inbound moves, and nothing of the queue. */
  ghost predicate SameInbound(s: State, t: State) {
    && t.bufsize == s.bufsize && t.x == s.x && t.r == s.r && t.stop == s.stop
    && t.h.completed == s.h.completed && t.h.decoded == s.h.decoded
    && t.h.taken == s.h.taken && t.h.accepted == s.h.accepted
    && t.h.sends == s.h.sends && t.h.freed == s.h.freed && t.h.out == s.h.out && t.h.oerr == s.h.oerr
    && t.w.wbuf == s.w.wbuf
  }

  lemma OutboundMoves(s: State, t: State)
    requires Handoff(s) && SameInbound(s, t)
    requires InFlight(t.x, t.w, t.stop) && Outbound(t)
    ensures Handoff(t)
  {
  }

  lemma StartWrite(s: State)
    requires (!s.stop ==> WriteToken(s.x, s.w)) && InFlight(s.x, s.w, s.stop) && Outbound(s) && WriteEnabled(s) && s.w.pc.WExcp?
    ensures InFlight(s.x, DoWrite(s).w, s.stop) && Outbound(DoWrite(s))
  {
  }

  lemma GoneWrite(s: State)
    requires InFlight(s.x, s.w, s.stop) && Outbound(s) && WriteEnabled(s) && WriteGone(s.w)
    ensures InFlight(s.x, DoWrite(s).w, s.stop) && Outbound(DoWrite(s))
  {
    var t := DoWrite(s);
    assert t.w.onwire == s.w.onwire && t.h == s.h && t.w.wbuf == s.w.wbuf;
  }

  lemma IdleWrite(s: State)
    requires (!s.stop ==> WriteToken(s.x, s.w)) && InFlight(s.x, s.w, s.stop) && Outbound(s) && WriteEnabled(s) && (WIdle(s.w) || WriteGone(s.w))
    ensures InFlight(s.x, DoWrite(s).w, s.stop) && Outbound(DoWrite(s))
  {
    if WriteGone(s.w) {
      GoneWrite(s);
    } else {
      var t := DoWrite(s);
      assert t.w.onwire == s.w.onwire && t.h == s.h && t.w.wbuf == s.w.wbuf;
    }
  }

  lemma GoWrite(s: State)
    requires (!s.stop ==> WriteToken(s.x, s.w)) && InFlight(s.x, s.w, s.stop) && Outbound(s) && WriteEnabled(s) && (s.w.pc.WClearGo? || (WGoing(s.w) && !s.w.pc.WExcp?))
    ensures InFlight(s.x, DoWrite(s).w, s.stop) && Outbound(DoWrite(s))
  {
    var t := DoWrite(s);
    assert t.w.onwire == s.w.onwire && t.h == s.h && t.w.wbuf == s.w.wbuf;
  }

  lemma EndWrite(s: State)
    requires (!s.stop ==> WriteToken(s.x, s.w)) && InFlight(s.x, s.w, s.stop) && Outbound(s) && WriteEnabled(s) && (WOut(s.w) || WEnding(s.w))
    ensures InFlight(s.x, DoWrite(s).w, s.stop) && Outbound(DoWrite(s))
  {
    var t := DoWrite(s);
    assert t.w.onwire == s.w.onwire && t.h == s.h && t.w.wbuf == s.w.wbuf;
  }

  lemma WriteLeaves(s: State)
    requires WriteEnabled(s)
    ensures SameInbound(s, DoWrite(s))
  {
  }

  lemma WriteHands(s: State)
    requires Control(s) && Handoff(s) && WriteEnabled(s)
    ensures Handoff(DoWrite(s))
  {
    if s.w.pc.WExcp? { StartWrite(s); }
    else if WIdle(s.w) || WriteGone(s.w) { IdleWrite(s); }
    else if WOut(s.w) || WEnding(s.w) { EndWrite(s); }
    else { GoWrite(s); }
    WriteLeaves(s);
    OutboundMoves(s, DoWrite(s));
  }

  // ---- the executive: steps that move only flags ---------------------------------------------------------------

  /** The points of the pass at which no half-moved block or packet is in the executive's hands. */
  predicate Quiet(pc: ExecPc) {
    && !pc.ClearReady? && !pc.SetTxbusy? && !pc.PostGo? && !pc.ClearWready? && !pc.ClearTxbusy?
    && !pc.Flush? && !pc.Down?
  }

  ghost predicate SameHistory(g: History, h: History) {
    && h.completed == g.completed && h.decoded == g.decoded && h.taken == g.taken && h.accepted == g.accepted
    && h.wire == g.wire && h.sends == g.sends && h.freed == g.freed && h.out == g.out && h.oerr == g.oerr
  }

  ghost predicate SameGoods(s: State, t: State) {
    && t.bufsize == s.bufsize && SameHistory(s.h, t.h)
    && t.x.hand == s.x.hand && t.x.sendq == s.x.sendq && t.x.txpbuf == s.x.txpbuf && t.x.txlen == s.x.txlen
    && t.w.wbuf == s.w.wbuf && t.w.onwire == s.w.onwire && t.r.rbuf == s.r.rbuf && t.r.rlen == s.r.rlen
    && !s.x.pc.Flush? && !s.x.pc.Down? && !t.x.pc.Flush? && !t.x.pc.Down?
  }

  ghost predicate SameBlockState(r: ReadSide, q: ReadSide) {
    && q.pc == r.pc && q.rready == r.rready && q.ch == r.ch && q.chPost == r.chPost && q.chResid == r.chResid
    && q.rpost == r.rpost
  }

  lemma FlagsMove(s: State, t: State)
    requires Handoff(s) && SameGoods(s, t) && (s.stop ==> t.stop) && (t.w.pc == s.w.pc)
    requires Inbound(t) && InFlight(t.x, t.w, t.stop)
    ensures Handoff(t)
  {
  }

  /** Between two quiet points, with no flag of a transfer touched. */
  ghost predicate QuietMove(s: State, t: State) {
    && SameGoods(s, t) && Quiet(s.x.pc) && Quiet(t.x.pc) && t.stop == s.stop && t.x.txbusy == s.x.txbusy
    && SameBlockState(s.r, t.r)
    && t.w.pc == s.w.pc && t.w.txgoecb == s.w.txgoecb && t.w.wready == s.w.wready
  }

  lemma QuietMoves(s: State, t: State)
    requires Handoff(s) && QuietMove(s, t)
    ensures Handoff(t)
  {
    assert Inbound(t);
    assert InFlight(t.x, t.w, t.stop);
    FlagsMove(s, t);
  }

  lemma GateQuiet(s: State)
    requires Between(s.x.pc)
    ensures QuietMove(s, DoPass(s))
  {
  }

  lemma ResetWakeQuiet(s: State)
    requires s.x.pc.ClearWake?
    ensures QuietMove(s, DoPass(s))
  {
    var t := DoPass(s);
    assert t.r == s.r && t.w == s.w && t.h == s.h;
  }

  lemma ResetDevQuiet(s: State)
    requires s.x.pc.ClearDev?
    ensures QuietMove(s, DoPass(s))
  {
  }

  lemma HandOverQuiet(s: State)
    requires s.x.pc.Handlers? && s.x.evq != [] && s.x.budget > 0
    ensures QuietMove(s, HandOver(s))
  {
  }

  lemma DispatchQuiet(s: State)
    requires s.x.pc.Handlers?
    ensures QuietMove(s, DoPass(s))
  {
    if s.x.evq != [] && s.x.budget > 0 { HandOverQuiet(s); }
  }

  lemma TestQuiet(s: State, fates: seq<Fate>)
    requires ExecEnabled(s, fates) && (s.x.pc.TestReady? || s.x.pc.SetHold? || s.x.pc.TestWready?)
    ensures QuietMove(s, DoService(s, fates))
  {
  }

  lemma ParkQuiet(s: State)
    requires AtPark(s.x.pc) && !s.x.pc.HaltRead?
    ensures QuietMove(s, DoPark(s))
  {
  }

  lemma ReleaseQuiet(s: State)
    requires AtRelease(s.x.pc)
    ensures QuietMove(s, DoRelease(s))
  {
  }

  /** A halted READ completes without data: nothing becomes pending. */
  lemma HaltHands(s: State)
    requires Handoff(s) && s.x.pc.HaltRead? && (!s.stop && s.r.ch.Out? ==> Started(s.r))
    ensures Handoff(DoPark(s))
  {
    var t := DoPark(s);
    assert SameGoods(s, t) && t.w == s.w && t.stop == s.stop && t.x.txbusy == s.x.txbusy;
    assert Inbound(t);
    FlagsMove(s, t);
  }

  lemma SetStopHands(s: State)
    requires Handoff(s) && s.x.pc.SetStop? && !s.stop
    ensures Handoff(DoShutdown(s))
  {
    FlagsMove(s, DoShutdown(s));
  }

  /** With the stop already seen by the histories, only the flags move. */
  ghost predicate StopMove(s: State, t: State) {
    SameGoods(s, t) && s.stop && t.stop && t.w.pc == s.w.pc
  }

  lemma StopMoves(s: State, t: State)
    requires Handoff(s) && StopMove(s, t)
    ensures Handoff(t)
  {
    FlagsMove(s, t);
  }

  lemma StopFlags(s: State)
    requires s.stop && (s.x.pc.StopRecb? || s.x.pc.StopWecb? || s.x.pc.StopReturn? || s.x.pc.StopGo? || s.x.pc.Join?)
    ensures StopMove(s, DoShutdown(s))
  {
  }

  /** The packet in flight is freed by the join, the write subtask having ended. */
  ghost predicate Frees(s: State, t: State) {
    && t.bufsize == s.bufsize && t.r == s.r && t.w == s.w && s.stop && t.stop
    && s.x.pc.FreeTx? && t.x.pc.Flush? && t.x.txpbuf.None? && t.x.hand == s.x.hand && t.x.sendq == s.x.sendq
    && t.x.txlen == s.x.txlen && t.x.retained == s.x.retained
    && SameHistory(s.h.(freed := s.h.freed + OptIds(s.x.txpbuf)), t.h)
  }

  lemma FreeMoves(s: State, t: State)
    requires Handoff(s) && Frees(s, t) && s.w.pc.WEnd?
    ensures Handoff(t)
  {
    assert Inbound(t);
    assert Outbound(t);
  }

  lemma FreeTxHands(s: State)
    requires Handoff(s) && s.x.pc.FreeTx? && s.stop && s.w.pc.WEnd?
    ensures Handoff(DoShutdown(s))
  {
    assert Frees(s, DoShutdown(s));
    FreeMoves(s, DoShutdown(s));
  }

  lemma FlushHands(s: State)
    requires Handoff(s) && s.x.pc.Flush? && s.x.hand.None? && s.stop
    ensures Handoff(DoShutdown(s))
  {
  }

  // ---- the executive: steps that move a block or a packet -----------------------------------------------------------

  /** The block handed up is decoded, if it carries data. */
  ghost predicate TakesBlock(s: State, t: State) {
    && t.bufsize == s.bufsize && t.r == s.r && t.w == s.w && t.stop == s.stop && s.r.rlen <= |s.r.rbuf|
    && s.x.pc.DecodeBlock? && t.x.pc.ClearReady?
    && t.x.hand == s.x.hand && t.x.sendq == s.x.sendq && t.x.txpbuf == s.x.txpbuf && t.x.txlen == s.x.txlen && t.x.txbusy == s.x.txbusy
    && SameHistory(s.h.(decoded := t.h.decoded), t.h)
    && t.h.decoded == s.h.decoded + if s.r.rpost == POST_NORMAL then [s.r.rbuf[..s.r.rlen]] else []
  }

  lemma TakeBlockMoves(s: State, t: State)
    requires Handoff(s) && TakesBlock(s, t) && Parked(s.r) && s.r.rready && !s.stop
    ensures Handoff(t)
  {
    assert Inbound(t);
    assert InBuffer(t.x, t.w) == InBuffer(s.x, s.w);
    assert Outbound(t) && InFlight(t.x, t.w, t.stop);
  }

  lemma UnpackTakes(s: State, fates: seq<Fate>)
    requires s.r.rlen <= |s.r.rbuf| && ExecEnabled(s, fates) && s.x.pc.DecodeBlock? && s.r.rpost == POST_NORMAL
    ensures TakesBlock(s, Unpack(s, fates))
  {
  }

  lemma UnpackTakesNone(s: State, fates: seq<Fate>)
    requires s.r.rlen <= |s.r.rbuf| && ExecEnabled(s, fates) && s.x.pc.DecodeBlock? && s.r.rpost != POST_NORMAL
    ensures TakesBlock(s, Unpack(s, fates))
  {
  }

  lemma DecodeHands(s: State, fates: seq<Fate>)
    requires Control(s) && Handoff(s) && ExecEnabled(s, fates) && s.x.pc.DecodeBlock?
    ensures Handoff(DoService(s, fates))
  {
    if s.r.rpost == POST_NORMAL { UnpackTakes(s, fates); } else { UnpackTakesNone(s, fates); }
    TakeBlockMoves(s, Unpack(s, fates));
  }

  /** The read buffer is given back: what it held has been decoded. */
  ghost predicate GivesBack(s: State, t: State) {
    && SameGoods(s, t) && t.x.txbusy == s.x.txbusy && t.w == s.w && t.stop == s.stop
    && s.x.pc.ClearReady? && t.x.pc.SetHold? && t.r == s.r.(rready := false)
  }

  lemma GiveBackMoves(s: State, t: State)
    requires Handoff(s) && GivesBack(s, t) && (!s.stop ==> Parked(s.r))
    ensures Handoff(t)
  {
    assert Inbound(t);
    FlagsMove(s, t);
  }

  lemma TakenHands(s: State, fates: seq<Fate>)
    requires Handoff(s) && ExecEnabled(s, fates) && s.x.pc.ClearReady?
    requires !s.stop ==> Parked(s.r)
    ensures Handoff(DoService(s, fates))
  {
    GiveBackMoves(s, DoService(s, fates));
  }

  /** The packet in flight is freed, its block having been on the wire. */
  ghost predicate Reaps(s: State, t: State) {
    && t.bufsize == s.bufsize && t.r == s.r && t.w == s.w && t.stop == s.stop
    && s.x.pc.Reap? && t.x.pc.ClearWready?
    && t.x.txpbuf.None? && t.x.hand == s.x.hand && t.x.sendq == s.x.sendq && t.x.txbusy == s.x.txbusy
    && t.x.txlen == s.x.txlen
    && SameHistory(s.h.(freed := s.h.freed + OptIds(s.x.txpbuf), out := t.h.out, oerr := t.h.oerr), t.h)
    && t.h.out + t.h.oerr == s.h.out + s.h.oerr + 1
  }

  lemma ReapMoves(s: State, t: State)
    requires Handoff(s) && Reaps(s, t) && s.w.wready && s.x.txbusy && !s.stop
    ensures Handoff(t)
  {
    assert s.x.txpbuf.Some? && s.w.onwire;
    assert InBuffer(s.x, s.w) == InBuffer(t.x, t.w) == [];
    assert Inbound(t);
  }

  lemma ReapHands(s: State, fates: seq<Fate>)
    requires Control(s) && Handoff(s) && ExecEnabled(s, fates) && s.x.pc.Reap?
    ensures Handoff(DoService(s, fates))
  {
    ReapMoves(s, DoService(s, fates));
  }

  lemma ReapedHands(s: State, fates: seq<Fate>)
    requires Control(s) && Handoff(s) && ExecEnabled(s, fates) && (s.x.pc.ClearWready? || s.x.pc.ClearTxbusy?)
    ensures Handoff(DoService(s, fates))
  {
  }

  lemma DrainedQuiet(s: State)
    requires s.x.pc.Dequeue? && s.x.sendq == []
    ensures QuietMove(s, DoSend(s))
  {
  }

  /** The head of the send queue moves into the executive's hand. */
  ghost predicate Takes(s: State, t: State) {
    && t.bufsize == s.bufsize && t.r == s.r && t.w == s.w && t.h == s.h && t.stop == s.stop
    && s.x.sendq != [] && s.x.hand.None? && t.x.hand == Some(s.x.sendq[0]) && t.x.sendq == s.x.sendq[1..]
    && t.x.txpbuf == s.x.txpbuf && t.x.txlen == s.x.txlen && t.x.txbusy == s.x.txbusy && Quiet(s.x.pc) && Quiet(t.x.pc)
  }

  lemma TakeMoves(s: State, t: State)
    requires Handoff(s) && Takes(s, t)
    ensures Handoff(t)
  {
    assert Inbound(t);
    assert InFlight(t.x, t.w, t.stop);
    assert Queued(t.x, t.h) by { DatasHead(s.x.sendq); }
    assert Conserved(t.x, t.h) by { IdsHead(s.x.sendq); }
  }

  lemma DequeueHands(s: State)
    requires Handoff(s) && s.x.pc.Dequeue? && s.x.sendq != [] && s.x.hand.None?
    ensures Handoff(DoSend(s))
  {
    TakeMoves(s, DoSend(s));
  }

  /** The packet in hand does not fit: it is freed and counted. */
  ghost predicate Drops(s: State, t: State) {
    && s.x.hand.Some? && !Fits(s.bufsize, s.x.hand.value.data)
    && t.bufsize == s.bufsize && t.r == s.r && t.w == s.w && t.stop == s.stop
    && t.x == s.x.(pc := Dequeue, hand := None) && s.x.pc.EncodePacket?
    && SameHistory(s.h.(taken := s.h.taken + [s.x.hand.value.data], oerr := s.h.oerr + 1,
                        freed := s.h.freed + OptIds(s.x.hand)), t.h)
  }

  lemma DropConserves(x: Exec, h: History, y: Exec, g: History)
    requires Conserved(x, h) && y == x.(pc := Dequeue, hand := None)
    requires g.freed == h.freed + OptIds(x.hand) && g.sends == h.sends
    ensures Conserved(y, g)
  {
  }

  lemma DropMoves(s: State, t: State)
    requires Handoff(s) && Drops(s, t)
    ensures Handoff(t)
  {
    assert Inbound(t);
    DropConserves(s.x, s.h, t.x, t.h);
    assert Outbound(t) by { FramesAppend(s.bufsize, s.h.taken, s.x.hand.value.data); }
  }

  lemma DropHands(s: State)
    requires Handoff(s) && s.x.pc.EncodePacket? && s.x.hand.Some? && |s.w.wbuf| == s.bufsize <= BUF_MAX
    requires !Fits(s.bufsize, s.x.hand.value.data)
    ensures Handoff(DoSend(s))
  {
    DropMoves(s, DoSend(s));
  }

  /** One packet moves from the executive's hand into the write buffer. */
  ghost predicate Loads(s: State, t: State) {
    && s.x.hand.Some? && s.x.txpbuf.None?
    && Fits(s.bufsize, s.x.hand.value.data)
    && t.bufsize == s.bufsize && t.r == s.r && t.stop == s.stop
    && t.x.pc.SetTxbusy? && s.x.pc.EncodePacket? && t.x.hand.None? && t.x.txpbuf == s.x.hand
    && t.x.txbusy == s.x.txbusy && t.x.sendq == s.x.sendq && !t.w.onwire
    && t.w.pc == s.w.pc && t.w.wready == s.w.wready && t.w.txgoecb == s.w.txgoecb
    && |t.w.wbuf| == s.bufsize
    && t.x.txlen == |FrameOf(s.bufsize, s.x.hand.value.data)|
    && t.w.wbuf[..t.x.txlen] == FrameOf(s.bufsize, s.x.hand.value.data)
    && t.h.taken == s.h.taken + [s.x.hand.value.data]
    && SameHistory(s.h.(taken := t.h.taken), t.h)
  }

  lemma LoadOutbound(s: State, t: State)
    requires Outbound(s) && Loads(s, t) && !s.stop
    ensures Outbound(t)
  {
    FramesAppend(s.bufsize, s.h.taken, s.x.hand.value.data);
    assert InBuffer(s.x, s.w) == [];
  }

  lemma LoadConserves(x: Exec, h: History, y: Exec, g: History)
    requires Conserved(x, h) && x.txpbuf.None? && y.hand.None? && y.txpbuf == x.hand && y.sendq == x.sendq
    requires g.sends == h.sends && g.freed == h.freed
    ensures Conserved(y, g)
  {
  }

  lemma LoadQueued(x: Exec, h: History, y: Exec, g: History)
    requires Queued(x, h) && x.pc.EncodePacket? && x.hand.Some? && y.pc.SetTxbusy? && y.hand.None? && y.sendq == x.sendq
    requires g.taken == h.taken + [x.hand.value.data] && g.accepted == h.accepted
    ensures Queued(y, g)
  {
  }

  lemma LoadMoves(s: State, t: State)
    requires Handoff(s) && Loads(s, t) && !s.stop && !s.x.txbusy
    requires WIdle(s.w) && !s.w.txgoecb && !s.w.wready
    ensures Handoff(t)
  {
    LoadOutbound(s, t);
    LoadConserves(s.x, s.h, t.x, t.h);
    LoadQueued(s.x, s.h, t.x, t.h);
    assert Inbound(t);
  }

  lemma LoadHands(s: State)
    requires Control(s) && Handoff(s) && s.x.pc.EncodePacket? && Fits(s.bufsize, s.x.hand.value.data)
    ensures Handoff(DoSend(s))
  {
    LoadMoves(s, DoSend(s));
  }

  lemma HandHands(s: State)
    requires Control(s) && Handoff(s) && (s.x.pc.SetTxbusy? || s.x.pc.PostGo?)
    ensures Handoff(DoSend(s))
  {
  }

  lemma ServiceHands(s: State, fates: seq<Fate>)
    requires Control(s) && Handoff(s) && ExecEnabled(s, fates) && AtService(s.x.pc)
    ensures Handoff(DoService(s, fates))
  {
    if s.x.pc.DecodeBlock? { DecodeHands(s, fates); }
    else if s.x.pc.ClearReady? { TakenHands(s, fates); }
    else if s.x.pc.Reap? { ReapHands(s, fates); }
    else if s.x.pc.ClearWready? || s.x.pc.ClearTxbusy? { ReapedHands(s, fates); }
    else { TestQuiet(s, fates); QuietMoves(s, DoService(s, fates)); }
  }

  lemma KickHands(s: State)
    requires Control(s) && Handoff(s) && (AtPark(s.x.pc) || AtRelease(s.x.pc))
    ensures if AtPark(s.x.pc) then Handoff(DoPark(s)) else Handoff(DoRelease(s))
  {
    if s.x.pc.HaltRead? { HaltHands(s); }
    else if AtPark(s.x.pc) { ParkQuiet(s); QuietMoves(s, DoPark(s)); }
    else { ReleaseQuiet(s); QuietMoves(s, DoRelease(s)); }
  }

  lemma SendHands(s: State)
    requires Control(s) && Handoff(s) && AtSend(s.x.pc)
    ensures Handoff(DoSend(s))
  {
    if s.x.pc.Dequeue? {
      if s.x.sendq == [] { DrainedQuiet(s); QuietMoves(s, DoSend(s)); } else { DequeueHands(s); }
    } else if s.x.pc.EncodePacket? {
      if Fits(s.bufsize, s.x.hand.value.data) { LoadHands(s); } else { DropHands(s); }
    } else {
      HandHands(s);
    }
  }

  lemma ShutdownHands(s: State)
    requires Control(s) && Handoff(s) && AtShutdown(s.x.pc)
    ensures Handoff(DoShutdown(s))
  {
    if s.x.pc.SetStop? { SetStopHands(s); }
    else if s.x.pc.FreeTx? { FreeTxHands(s); }
    else if s.x.pc.Flush? { FlushHands(s); }
    else { StopFlags(s); StopMoves(s, DoShutdown(s)); }
  }

  lemma PassHands(s: State)
    requires Handoff(s) && AtPass(s.x.pc)
    ensures Handoff(DoPass(s))
  {
    if Between(s.x.pc) { GateQuiet(s); } else if s.x.pc.Handlers? { DispatchQuiet(s); }
    else if s.x.pc.ClearWake? { ResetWakeQuiet(s); } else { ResetDevQuiet(s); }
    QuietMoves(s, DoPass(s));
  }

  lemma ExecHands(s: State, fates: seq<Fate>)
    requires Control(s) && Handoff(s) && ExecEnabled(s, fates)
    ensures Handoff(DoExec(s, fates))
  {
    if AtPass(s.x.pc) { PassHands(s); }
    else if AtService(s.x.pc) { ServiceHands(s, fates); }
    else if AtSend(s.x.pc) { SendHands(s); }
    else if AtPark(s.x.pc) || AtRelease(s.x.pc) { KickHands(s); }
    else { ShutdownHands(s); }
  }

  // ---- the environment --------------------------------------------------------------------------------------------

  /** A packet joins the send queue. */
  ghost predicate Accepts(s: State, t: State, p: Pbuf) {
    && t.bufsize == s.bufsize && t.r == s.r && t.w == s.w && t.stop == s.stop
    && t.x == s.x.(sendq := s.x.sendq + [p]) && Quiet(s.x.pc) && p.id == s.h.sends
    && SameHistory(s.h.(accepted := s.h.accepted + [p.data], sends := s.h.sends + 1), t.h)
  }

  lemma AcceptConserves(x: Exec, h: History, y: Exec, g: History, p: Pbuf)
    requires Conserved(x, h) && y == x.(sendq := x.sendq + [p]) && p.id == h.sends
    requires g.freed == h.freed && g.sends == h.sends + 1
    ensures Conserved(y, g)
  {
    IdsAppend(x.sendq, p);
    IssuedNext(h.sends);
  }

  lemma AcceptMoves(s: State, t: State, p: Pbuf)
    requires Handoff(s) && Accepts(s, t, p)
    ensures Handoff(t)
  {
    assert Inbound(t);
    AcceptConserves(s.x, s.h, t.x, t.h, p);
    DatasAppend(s.x.sendq, p);
  }

  /** A packet finds the queue full and is freed at once. */
  lemma RefuseConserves(x: Exec, h: History, g: History)
    requires Conserved(x, h) && g.freed == h.freed + multiset{h.sends} && g.sends == h.sends + 1
    ensures Conserved(x, g)
  {
    IssuedNext(h.sends);
  }

  lemma RefuseHands(s: State, data: Octets)
    requires Handoff(s) && (s.x.pc.Gate? || s.x.pc.Handlers?) && |s.x.sendq| >= SENDQ_MAX
    ensures Handoff(Step(s, Send(data)))
  {
    var t := Step(s, Send(data));
    assert t.r == s.r && t.w == s.w && t.stop == s.stop && t.x == s.x;
    RefuseConserves(s.x, s.h, t.h);
  }

  lemma SendCallHands(s: State, data: Octets)
    requires Handoff(s) && (s.x.pc.Gate? || s.x.pc.Handlers?)
    ensures Handoff(Step(s, Send(data)))
  {
    if |s.x.sendq| >= SENDQ_MAX {
      RefuseHands(s, data);
    } else {
      AcceptMoves(s, Step(s, Send(data)), Pbuf(s.h.sends, data));
    }
  }

  lemma LandHands(s: State, blk: Octets)
    requires Handoff(s) && s.r.ch.Out? && (!s.stop ==> Started(s.r))
    ensures Handoff(Step(s, Frame(blk)))
  {
    var t := Complete(s, blk);
    if !s.stop {
      LandsInbound(s, t);
    }
    InboundMoves(s, t);
  }

  lemma WaitingHands(s: State, q: seq<Octets>)
    requires Handoff(s)
    ensures Handoff(s.(r := s.r.(inq := q)))
  {
    var t := s.(r := s.r.(inq := q));
    assert SameBlockState(s.r, t.r) && t.r.rbuf == s.r.rbuf && t.r.rlen == s.r.rlen;
    InboundMoves(s, t);
  }

  lemma FrameHands(s: State, blk: Octets)
    requires Handoff(s) && !s.r.ch.Out?
    ensures Handoff(Step(s, Frame(blk)))
  {
    if |s.r.inq| < INJECT_MAX {
      WaitingHands(s, s.r.inq + [blk]);
    }
  }

  lemma ReadPostsHands(s: State)
    requires Handoff(s) && Enabled(s, ReadPosts) && (!s.stop ==> Started(s.r))
    ensures Handoff(Step(s, ReadPosts))
  {
    InboundMoves(s, Step(s, ReadPosts));
  }

  lemma ForceHands(s: State, code: Byte, resid: nat)
    requires Handoff(s)
    ensures Handoff(Step(s, Force(code, resid)))
  {
    InboundMoves(s, Step(s, Force(code, resid)));
  }

  lemma WriteEndsHands(s: State, a: Action)
    requires Handoff(s) && Enabled(s, a) && (a.WriteEnds? || a.WritePosts?)
    ensures Handoff(Step(s, a))
  {
    OutboundMoves(s, Step(s, a));
  }

  lemma WakeHands(s: State)
    requires Handoff(s)
    ensures Handoff(Step(s, Wake))
  {
    InboundMoves(s, Step(s, Wake));
  }

  lemma PolledRead(s: State, t: State)
    requires Handoff(s) && t == s.(r := s.r.(pc := t.r.pc))
    requires if s.r.pc.RBlockA? then t.r.pc.RStopA? else s.r.pc.RBlockB? && t.r.pc.RStopB?
    ensures Handoff(t)
  {
    assert !s.stop ==> Pending(t.bufsize, t.x.pc, t.r) == Pending(s.bufsize, s.x.pc, s.r);
    InboundMoves(s, t);
  }

  lemma PollReadHands(s: State)
    requires Handoff(s) && Enabled(s, PollRead)
    ensures Handoff(Step(s, PollRead))
  {
    PolledRead(s, Step(s, PollRead));
  }

  lemma PollWriteHands(s: State)
    requires Handoff(s) && Enabled(s, PollWrite)
    ensures Handoff(Step(s, PollWrite))
  {
    OutboundMoves(s, Step(s, PollWrite));
  }

  lemma StopAskHands(s: State)
    requires Handoff(s) && s.x.pc.Gate?
    ensures Handoff(Step(s, Stop))
  {
    QuietMoves(s, Step(s, Stop));
  }

  lemma JoinTimeoutHands(s: State)
    requires Handoff(s) && s.x.pc.Join? && s.stop
    ensures Handoff(Step(s, JoinTimeout))
  {
  }

  /** Every step of every agent keeps what has been handed over intact. */
  lemma StepHands(s: State, a: Action)
    requires Control(s) && Handoff(s) && Enabled(s, a)
    ensures Handoff(Step(s, a))
  {
    match a {
      case ExecStep(fates) => ExecHands(s, fates);
      case ReadStep => ReadHands(s);
      case WriteStep => WriteHands(s);
      case Send(data) => SendCallHands(s, data);
      case Frame(blk) => if s.r.ch.Out? { LandHands(s, blk); } else { FrameHands(s, blk); }
      case ReadPosts => ReadPostsHands(s);
      case Force(code, resid) => ForceHands(s, code, resid);
      case WriteEnds(_) | WritePosts => WriteEndsHands(s, a);
      case Stop => StopAskHands(s);
      case JoinTimeout => JoinTimeoutHands(s);
      case PollRead => PollReadHands(s);
      case PollWrite => PollWriteHands(s);
      case Wake => WakeHands(s);
    }
  }

  lemma {:induction false} RunHandoff(ss: seq<State>, acts: seq<Action>, n: nat)
    requires Run(ss, acts) && Initial(ss[0]) && n <= |acts|
    ensures Control(ss[n]) && Handoff(ss[n])
  {
    if n == 0 {
      InitControl(ss[0]);
      InitHandoff(ss[0]);
    } else {
      RunHandoff(ss, acts, n - 1);
      StepKeeps(ss[n - 1], acts[n - 1]);
      StepHands(ss[n - 1], acts[n - 1]);
    }
  }

  lemma ReachableHandoff(s: State)
    requires Reachable(s)
    ensures Control(s) && Handoff(s)
  {
    var ss, acts :| Run(ss, acts) && Initial(ss[0]) && ss[|acts|] == s;
    RunHandoff(ss, acts, |acts|);
  }

  // ---- what it means ----------------------------------------------------------------------------------------------------

  /** The blocks decoded are the normally completed READ blocks, each once and in order, read out of
      the buffer exactly as they completed; while the driver runs at most one is still to come. */
  lemma DecodedAreCompleted(s: State)
    requires Reachable(s)
    ensures s.h.decoded <= s.h.completed
    ensures !s.stop ==> |s.h.completed| - |s.h.decoded| <= 1
    ensures !s.stop && s.r.rready && !s.x.pc.ClearReady? && s.r.rpost == 0x7F ==>
              s.r.rlen <= |s.r.rbuf| && s.h.completed == s.h.decoded + [s.r.rbuf[..s.r.rlen]]
    ensures !s.stop && s.r.ch.Out? ==> s.h.completed == s.h.decoded
  {
    ReachableHandoff(s);
  }

  /** What the WRITEs have carried is the encoding of the accepted packets that fit, in the order
      accepted: all those taken from the queue, but for one that may still wait in the write buffer. */
  lemma WireIsAccepted(s: State)
    requires Reachable(s)
    ensures s.h.wire <= Frames(s.bufsize, s.h.taken) && s.h.taken <= s.h.accepted
    ensures !s.x.pc.Down? ==> s.h.accepted == s.h.taken + OptData(s.x.hand) + Datas(s.x.sendq)
    ensures !s.stop && s.x.txpbuf.None? ==> s.h.wire == Frames(s.bufsize, s.h.taken)
  {
    ReachableHandoff(s);
  }

  /** The block each WRITE starts with is the encoding of the next accepted packet. */
  lemma NextOnWire(s: State)
    requires Reachable(s) && s.w.pc.WExcp?
    ensures s.x.txpbuf.Some? && Fits(s.bufsize, s.x.txpbuf.value.data) && s.x.txlen <= |s.w.wbuf|
    ensures s.w.wbuf[..s.x.txlen] == FrameOf(s.bufsize, s.x.txpbuf.value.data)
    ensures s.h.wire + [s.w.wbuf[..s.x.txlen]] == Frames(s.bufsize, s.h.taken)
  {
    ReachableHandoff(s);
  }

  lemma SendKeepsBuffer(s: State)
    requires AtSend(s.x.pc) && !s.x.pc.EncodePacket?
    ensures DoSend(s).w.wbuf == s.w.wbuf
  {
  }

  lemma ExecKeepsBuffer(s: State, fates: seq<Fate>)
    requires ExecEnabled(s, fates) && !AtSend(s.x.pc)
    ensures DoExec(s, fates).w.wbuf == s.w.wbuf
  {
    if AtService(s.x.pc) { ServiceKeepsBuffer(s, fates); }
    else if AtShutdown(s.x.pc) { ShutdownKeepsBuffer(s); }
  }

  lemma ServiceKeepsBuffer(s: State, fates: seq<Fate>)
    requires ExecEnabled(s, fates) && AtService(s.x.pc)
    ensures DoService(s, fates).w.wbuf == s.w.wbuf
  {
  }

  lemma ShutdownKeepsBuffer(s: State)
    requires AtShutdown(s.x.pc)
    ensures DoShutdown(s).w.wbuf == s.w.wbuf
  {
  }

  lemma BusyNoEncode(s: State)
    requires Control(s) && s.x.txbusy
    ensures !s.x.pc.EncodePacket?
  {
  }

  lemma ChannelKeepsBuffer(s: State, a: Action)
    requires Enabled(s, a) && !a.ExecStep? && !a.WriteStep? && !a.ReadStep?
    ensures Step(s, a).w.wbuf == s.w.wbuf
  {
  }

  lemma ReadKeepsBuffer(s: State)
    requires ReadEnabled(s)
    ensures DoRead(s).w.wbuf == s.w.wbuf
  {
  }

  /** While a packet is in flight no step of any agent touches the write buffer. */
  lemma WriteBufferHeld(s: State, a: Action)
    requires Reachable(s) && s.x.txbusy && Enabled(s, a)
    ensures Step(s, a).w.wbuf == s.w.wbuf
  {
    ReachableHandoff(s);
    match a {
      case ExecStep(fates) =>
        BusyNoEncode(s);
        if AtSend(s.x.pc) { SendKeepsBuffer(s); } else { ExecKeepsBuffer(s, fates); }
      case WriteStep => WriteLeaves(s);
      case ReadStep => ReadKeepsBuffer(s);
      case _ => ChannelKeepsBuffer(s, a);
    }
  }

  /** A packet the channel carried decodes, at the far end, to the packet that was sent. */
  lemma FrameCarries(bufsize: nat, data: Octets)
    requires 1 <= |data| <= bufsize - 10 && bufsize <= 0xFFFF && data[0] / 16 == 4
    ensures Fits(bufsize, data) && Decode(FrameOf(bufsize, data)) == [data]
  {
    assert data[..IpLen(data)] == data;
    DecodeFrame(data);
  }

  /** Every packet buffer handed to `dev_send` is in exactly one place, and is freed at most once. */
  lemma BuffersConserved(s: State, id: nat)
    requires Reachable(s) && id < s.h.sends
    ensures s.h.freed[id] + Ids(s.x.sendq)[id] + OptIds(s.x.hand)[id] + OptIds(s.x.txpbuf)[id] == 1
  {
    ReachableHandoff(s);
    assert Issued(s.h.sends)[id] == 1;
  }

  /** After shutdown every buffer has been freed if and only if no subtask had to be abandoned with one in flight. */
  lemma AllFreedAtShutdown(s: State)
    requires Reachable(s) && s.x.pc.Down?
    ensures s.h.freed == Issued(s.h.sends) <==> s.x.txpbuf.None?
    ensures !s.x.retained ==> s.x.txpbuf.None?
  {
    ReachableHandoff(s);
  }

  /** The counters account for every call of `dev_send`. */
  lemma CallsCounted(s: State)
    requires Reachable(s) && !s.stop && Between(s.x.pc)
    ensures s.h.sends == s.h.out + s.h.oerr + |s.x.sendq| + if s.x.txbusy then 1 else 0
  {
    ReachableHandoff(s);
  }
}
