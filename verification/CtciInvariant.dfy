/** What every step of the CTCI driver keeps, over all interleavings and with a stop request at any point. */
module CtciInvariant {
  import opened Bytes
  import opened Codec
  import opened CtciMachine

  // ---- where the READ is ------------------------------------------------------------------------------

  predicate Starting(r: ReadSide) { (r.pc.RTop? || r.pc.RClearRecb? || r.pc.RExcp?) }
  predicate Armed(r: ReadSide) { (r.pc.RPostArmed? || r.pc.RStopA? || r.pc.RTestA? || r.pc.RBlockA?) }
  predicate Started(r: ReadSide) { r.pc.RSetArmed? || Armed(r) }
  predicate InHand(r: ReadSide) { (r.pc.RClearArmed? || r.pc.RStatus? || r.pc.RClearReturn? || r.pc.RSetReady?) }
  predicate Parked(r: ReadSide) { (r.pc.RPostReady? || r.pc.RStopB? || r.pc.RTestB? || r.pc.RBlockB?) }
  predicate ReadGone(r: ReadSide) { (r.pc.RClose? || r.pc.REnd?) }

  // ---- where the WRITE is -----------------------------------------------------------------------------

  predicate WIdle(w: WriteSide) { (w.pc.WPostReady? || w.pc.WTop? || w.pc.WStopG? || w.pc.WTestG? || w.pc.WBlockG?) }
  predicate WGoing(w: WriteSide) { (w.pc.WTestStop? || w.pc.WClearWecb? || w.pc.WExcp?) }
  predicate WOut(w: WriteSide) { (w.pc.WStopC? || w.pc.WTestC? || w.pc.WBlockC?) }
  predicate WEnding(w: WriteSide) { (w.pc.WStatus? || w.pc.WSetReady?) }
  predicate WriteGone(w: WriteSide) { (w.pc.WClose? || w.pc.WEnd?) }

  // ---- groups of executive steps ----------------------------------------------------------------------

  predicate KickHolds(pc: ExecPc) { (pc.Dequeue? || pc.EncodePacket? || pc.SetTxbusy? || pc.PostGo? || pc.ClearHold?) }
  predicate Releasing(pc: ExecPc) { pc.ClearHalting? || pc.PostReturn? }
  predicate Between(pc: ExecPc) { (pc.Gate? || pc.GateWrite? || pc.Blocked?) }
  predicate Stopping(pc: ExecPc) { (pc.StopRecb? || pc.StopWecb? || pc.StopReturn? || pc.StopGo? || pc.Join? || pc.FreeTx? || pc.Flush? || pc.Down?) }

  /** Shapes: buffer sizes, queue bounds, and which program points hold a packet in hand. */
  ghost predicate ExecShape(bufsize: nat, x: Exec, stop: bool) {
    && HDR + SEG + HDR < bufsize <= BUF_MAX
    && |x.evq| <= EVT_POOL && x.budget <= DRAIN_BUDGET
    && |x.sendq| <= SENDQ_MAX
    && (x.hand.Some? <==> x.pc.EncodePacket?)
    && (stop <==> Stopping(x.pc))
    && x.txlen <= bufsize
    && (x.pc.Reap? || x.pc.ClearWready? || x.pc.ClearTxbusy? ==> x.budget == DRAIN_BUDGET)
  }

  ghost predicate ReadShape(bufsize: nat, r: ReadSide) {
    |r.rbuf| == bufsize && r.rlen <= bufsize && (r.ch.Out? ==> r.inq == [])
  }

  /** Exactly one holder of the READ at a time. While no stop is requested it is the read subtask
      (starting, waiting, or with the completion in hand), the filled buffer (`rready`), the
      executive between consuming it and holding it, the hold itself (`rhold`), the executive
      releasing it, or the fates `returnecb`. */
  ghost predicate ReadToken(x: Exec, r: ReadSide) {
    && !ReadGone(r)
    && (Parked(r) <==> r.rready || x.rhold || x.pc.SetHold? || Releasing(x.pc) || (r.returnecb && Parked(r)))
    && (r.rready ==> !x.rhold && !x.pc.SetHold? && !Releasing(x.pc) && !r.returnecb)
    && (x.rhold ==> !x.pc.SetHold? && !Releasing(x.pc) && !r.returnecb)
    && (x.pc.SetHold? || Releasing(x.pc) ==> !r.returnecb)
    && ((x.pc.DecodeBlock? || x.pc.ClearReady?) ==> r.rready)
    && (KickHolds(x.pc) ==> x.rhold)
    && (r.pc.RSetReady? ==> !r.returnecb)
  }

  /** The channel follows the read subtask, and `rarmed` says a READ is outstanding or just completed. */
  ghost predicate ReadChannel(r: ReadSide) {
    && (if Started(r) then (r.ch.Idle? <==> r.recb) else r.ch.Idle?)
    && (r.rarmed <==> Armed(r) || r.pc.RClearArmed?)
  }

  /** A halt is in progress only for a READ that is outstanding, completing, or on its way up. */
  ghost predicate HaltState(x: Exec, r: ReadSide) {
    && (x.halting || x.pc.SetHalting? ==> Armed(r) || InHand(r) || (Parked(r) && !r.returnecb))
    && (x.halting && !x.pc.HaltRead? && Started(r) ==> !r.ch.Out?)
    && (x.halting && !x.rhold && !x.pc.ClearHalting? ==> x.sendq != [])
    && (x.pc.TestArmed? || x.pc.SetHalting? ==> !x.halting)
    && (x.pc.HaltRead? ==> x.halting)
    && ((x.pc.TestArmed? || x.pc.SetHalting? || x.pc.HaltRead?) ==> !x.rhold && x.sendq != [])
    && (x.pc.PostReturn? ==> !x.halting)
  }

  /** Halts are aimed at READs in increasing order, and at the current one only while `halting`. */
  ghost predicate HaltOnce(x: Exec, r: ReadSide, started: nat, lastHalt: nat) {
    && (lastHalt == started && started > 0 ==>
          (x.halting && !x.pc.HaltRead?) || x.pc.PostReturn? || Starting(r) || (Parked(r) && r.returnecb))
    && (started == 0 ==> Starting(r))
  }

  /** Exactly one holder of the WRITE while `txbusy`, none otherwise. */
  ghost predicate WriteToken(x: Exec, w: WriteSide) {
    && !WriteGone(w)
    && (!x.txbusy ==>
          (WIdle(w) && !w.txgoecb && !w.wready && !(x.pc.PostGo? || x.pc.Reap? || x.pc.ClearWready? || x.pc.ClearTxbusy?)))
    && (x.txbusy ==>
          (!WIdle(w) || x.pc.PostGo? || x.pc.ClearTxbusy? || w.wready || w.txgoecb))
    && (w.txgoecb ==> (WIdle(w) || w.pc.WClearGo?) && !w.wready && !x.pc.PostGo? && !x.pc.ClearTxbusy?)
    && (w.pc.WClearGo? ==> w.txgoecb)
    && (w.wready ==> WIdle(w) && !x.pc.PostGo? && !x.pc.ClearTxbusy?)
    && (x.pc.PostGo? || x.pc.ClearTxbusy? ==> WIdle(w))
    && (x.pc.Reap? || x.pc.ClearWready? ==> w.wready)
    && (if WOut(w) then (w.ch.Idle? <==> w.wecb) else w.ch.Idle?)
    && ((x.pc.Dequeue? || x.pc.EncodePacket? || x.pc.SetTxbusy? || x.pc.ClearHold? || x.pc.ClearHalting? || x.pc.PostReturn? || x.pc.TestArmed? || x.pc.SetHalting? || x.pc.HaltRead?) ==> !x.txbusy)
    && ((x.pc.ClearHold? || x.pc.ClearHalting? || x.pc.PostReturn?) ==> x.sendq == [])
  }

  /** What of the two tokens survives a stop: a WRITE is in progress only under the hold, and under
      the hold the read subtask is parked with nothing on its channel, or on its way out. */
  ghost predicate Pairing(x: Exec, r: ReadSide, w: WriteSide, stop: bool) {
    && (x.txbusy ==> x.rhold)
    && (x.rhold ==> r.ch.Idle? && (Parked(r) || (stop && (r.pc.RTop? || ReadGone(r)))))
    && ((w.pc.WClearWecb? || w.pc.WExcp?) || WOut(w) || WEnding(w) || !w.ch.Idle? ==> x.txbusy)
  }

  /** Work handed up always has a wake-up behind it: the executive cannot commit to WAIT past it. */
  ghost predicate Wakes(x: Exec, r: ReadSide, w: WriteSide, devecb: bool, wakeecb: bool) {
    && (r.rready ==> (x.pc.ClearWake? || x.pc.ClearDev? || x.pc.TestReady? || x.pc.DecodeBlock? || x.pc.ClearReady?) || devecb || r.pc.RPostReady?)
    && (w.wready ==> (x.pc.ClearWake? || x.pc.ClearDev? || x.pc.TestReady? || x.pc.DecodeBlock? || x.pc.ClearReady? || x.pc.SetHold? || x.pc.TestWready? || x.pc.Reap? || x.pc.ClearWready?)
                       || devecb || w.pc.WPostReady?)
    && (Between(x.pc) && x.rhold ==> x.txbusy)
    && (Between(x.pc) && x.sendq != [] && !x.txbusy && !x.halting && (r.pc.RStopA? || r.pc.RTestA? || r.pc.RBlockA?) ==>
          devecb || wakeecb)
    && ((x.pc.GateWrite? || x.pc.Blocked?) ==> x.evq == [])
  }

  /** After a stop every ECB a subtask may be waiting on stays fates until it has seen the stop. */
  ghost predicate StopWakes(x: Exec, r: ReadSide, w: WriteSide) {
    && ((x.pc.StopWecb? || x.pc.StopReturn? || x.pc.StopGo? || x.pc.Join? || x.pc.FreeTx? || x.pc.Flush? || x.pc.Down?) && (r.pc.RTestA? || r.pc.RBlockA?) ==> r.recb)
    && ((x.pc.StopReturn? || x.pc.StopGo? || x.pc.Join? || x.pc.FreeTx? || x.pc.Flush? || x.pc.Down?) && (w.pc.WTestC? || w.pc.WBlockC?) ==> w.wecb)
    && ((x.pc.StopGo? || x.pc.Join? || x.pc.FreeTx? || x.pc.Flush? || x.pc.Down?) && (r.pc.RTestB? || r.pc.RBlockB?) ==> r.returnecb)
    && ((x.pc.Join? || x.pc.FreeTx? || x.pc.Flush? || x.pc.Down?) && (w.pc.WTestG? || w.pc.WBlockG?) ==> w.txgoecb)
    && (x.pc.FreeTx? ==> r.pc.REnd? && w.pc.WEnd?)
  }

  /** Who holds what. */
  ghost predicate Core(s: State) {
    && ExecShape(s.bufsize, s.x, s.stop)
    && ReadShape(s.bufsize, s.r)
    && |s.w.wbuf| == s.bufsize
    && Pairing(s.x, s.r, s.w, s.stop)
    && (!s.stop ==> ReadToken(s.x, s.r) && ReadChannel(s.r) && WriteToken(s.x, s.w))
  }

  /** What is bound to happen next. */
  ghost predicate Progress(s: State) {
    && s.h.lastHalt <= s.h.started
    && StopWakes(s.x, s.r, s.w)
    && (!s.stop ==> HaltState(s.x, s.r) && HaltOnce(s.x, s.r, s.h.started, s.h.lastHalt) && Wakes(s.x, s.r, s.w, s.devecb, s.wakeecb))
  }

  ghost predicate Control(s: State) {
    Core(s) && Progress(s)
  }

  // ---- the steps keep it --------------------------------------------------------------------------------

  predicate SameFlags(x: Exec, y: Exec) {
    x.rhold == y.rhold && x.halting == y.halting && x.txbusy == y.txbusy
  }


  lemma InitControl(s: State)
    requires Initial(s)
    ensures Control(s)
  {
  }

  lemma ReadStartsCore(s: State)
    requires Core(s) && ReadEnabled(s) && Starting(s.r) && !s.r.pc.RExcp?
    ensures Core(DoRead(s))
  {
    var t := DoRead(s);
    assert t.x == s.x && t.w == s.w && t.stop == s.stop && t.wakeecb == s.wakeecb && t.h == s.h;
  }

  lemma ReadStartsProgress(s: State)
    requires Core(s) && Progress(s) && ReadEnabled(s) && Starting(s.r) && !s.r.pc.RExcp?
    ensures Progress(DoRead(s))
  {
    var t := DoRead(s);
    assert t.x == s.x && t.w == s.w && t.stop == s.stop && t.wakeecb == s.wakeecb && t.h == s.h;
  }

  lemma StartCore(s: State)
    requires Core(s) && s.r.pc.RExcp? && |s.r.rbuf| == s.bufsize
    ensures Core(StartRead(s))
  {
    var t := StartRead(s);
    assert t.x == s.x && t.w == s.w && t.stop == s.stop && t.wakeecb == s.wakeecb && t.devecb == s.devecb && t.r.returnecb == s.r.returnecb;
  }

  lemma StartProgress(s: State)
    requires Core(s) && Progress(s) && s.r.pc.RExcp? && |s.r.rbuf| == s.bufsize
    ensures Progress(StartRead(s))
  {
    var t := StartRead(s);
    assert t.x == s.x && t.w == s.w && t.stop == s.stop && t.wakeecb == s.wakeecb && t.devecb == s.devecb && t.r.returnecb == s.r.returnecb;
  }

  lemma ReadExcpKeeps(s: State)
    requires Core(s) && Progress(s) && ReadEnabled(s) && s.r.pc.RExcp?
    ensures Core(DoRead(s)) && Progress(DoRead(s))
  {
    StartCore(s);
    StartProgress(s);
    assert DoRead(s) == StartRead(s);
  }

  lemma ReadWaitsCore(s: State)
    requires Core(s) && ReadEnabled(s) && Started(s.r)
    ensures Core(DoRead(s))
  {
    var t := DoRead(s);
    assert t.x == s.x && t.w == s.w && t.stop == s.stop && t.wakeecb == s.wakeecb && t.h == s.h;
  }

  lemma ReadWaitsProgress(s: State)
    requires Core(s) && Progress(s) && ReadEnabled(s) && Started(s.r)
    ensures Progress(DoRead(s))
  {
    var t := DoRead(s);
    assert t.x == s.x && t.w == s.w && t.stop == s.stop && t.wakeecb == s.wakeecb && t.h == s.h;
  }

  lemma ReadHandsUpCore(s: State)
    requires Core(s) && ReadEnabled(s) && InHand(s.r)
    ensures Core(DoRead(s))
  {
    var t := DoRead(s);
    assert t.x == s.x && t.w == s.w && t.stop == s.stop && t.wakeecb == s.wakeecb && t.h == s.h;
  }

  lemma ReadHandsUpProgress(s: State)
    requires Core(s) && Progress(s) && ReadEnabled(s) && InHand(s.r)
    ensures Progress(DoRead(s))
  {
    var t := DoRead(s);
    assert t.x == s.x && t.w == s.w && t.stop == s.stop && t.wakeecb == s.wakeecb && t.h == s.h;
  }

  lemma ReadParksCore(s: State)
    requires Core(s) && ReadEnabled(s) && Parked(s.r)
    ensures Core(DoRead(s))
  {
    var t := DoRead(s);
    assert t.x == s.x && t.w == s.w && t.stop == s.stop && t.wakeecb == s.wakeecb && t.h == s.h;
  }

  lemma ReadParksProgress(s: State)
    requires Core(s) && Progress(s) && ReadEnabled(s) && Parked(s.r)
    ensures Progress(DoRead(s))
  {
    var t := DoRead(s);
    assert t.x == s.x && t.w == s.w && t.stop == s.stop && t.wakeecb == s.wakeecb && t.h == s.h;
  }

  lemma ReadClosesCore(s: State)
    requires Core(s) && ReadEnabled(s) && ReadGone(s.r)
    ensures Core(DoRead(s))
  {
    var t := DoRead(s);
    assert t.x == s.x && t.w == s.w && t.stop == s.stop && t.wakeecb == s.wakeecb && t.h == s.h;
  }

  lemma ReadClosesProgress(s: State)
    requires Core(s) && Progress(s) && ReadEnabled(s) && ReadGone(s.r)
    ensures Progress(DoRead(s))
  {
    var t := DoRead(s);
    assert t.x == s.x && t.w == s.w && t.stop == s.stop && t.wakeecb == s.wakeecb && t.h == s.h;
  }

  lemma WriteClosesCore(s: State)
    requires Core(s) && WriteEnabled(s) && WriteGone(s.w)
    ensures Core(DoWrite(s))
  {
    var t := DoWrite(s);
    assert t.x == s.x && t.r == s.r && t.stop == s.stop;
  }

  lemma WriteWaitsGoCore(s: State)
    requires Core(s) && WriteEnabled(s) && WIdle(s.w)
    ensures Core(DoWrite(s))
  {
    var t := DoWrite(s);
    assert t.x == s.x && t.r == s.r && t.stop == s.stop && t.wakeecb == s.wakeecb && t.h.started == s.h.started && t.h.lastHalt == s.h.lastHalt;
  }

  lemma WriteWaitsGoProgress(s: State)
    requires Core(s) && Progress(s) && WriteEnabled(s) && (WIdle(s.w) || WriteGone(s.w))
    ensures Progress(DoWrite(s))
  {
    var t := DoWrite(s);
    assert t.x == s.x && t.r == s.r && t.stop == s.stop && t.wakeecb == s.wakeecb && t.h.started == s.h.started && t.h.lastHalt == s.h.lastHalt;
  }

  lemma WriteStartsCore(s: State)
    requires Core(s) && WriteEnabled(s) && (s.w.pc.WClearGo? || WGoing(s.w))
    ensures Core(DoWrite(s))
  {
    var t := DoWrite(s);
    assert t.x == s.x && t.r == s.r && t.stop == s.stop && t.wakeecb == s.wakeecb && t.h.started == s.h.started && t.h.lastHalt == s.h.lastHalt;
  }

  lemma WriteStartsProgress(s: State)
    requires Core(s) && Progress(s) && WriteEnabled(s) && (s.w.pc.WClearGo? || WGoing(s.w))
    ensures Progress(DoWrite(s))
  {
    var t := DoWrite(s);
    assert t.x == s.x && t.r == s.r && t.stop == s.stop && t.wakeecb == s.wakeecb && t.h.started == s.h.started && t.h.lastHalt == s.h.lastHalt;
  }

  lemma WriteEndingCore(s: State)
    requires Core(s) && WriteEnabled(s) && (WOut(s.w) || WEnding(s.w))
    ensures Core(DoWrite(s))
  {
    var t := DoWrite(s);
    assert t.x == s.x && t.r == s.r && t.stop == s.stop && t.wakeecb == s.wakeecb && t.h.started == s.h.started && t.h.lastHalt == s.h.lastHalt;
  }

  lemma WriteEndingProgress(s: State)
    requires Core(s) && Progress(s) && WriteEnabled(s) && (WOut(s.w) || WEnding(s.w))
    ensures Progress(DoWrite(s))
  {
    var t := DoWrite(s);
    assert t.x == s.x && t.r == s.r && t.stop == s.stop && t.wakeecb == s.wakeecb && t.h.started == s.h.started && t.h.lastHalt == s.h.lastHalt;
  }

  lemma ChannelCore(s: State, a: Action)
    requires Core(s) && Enabled(s, a) && (a.ReadPosts? || a.WriteEnds? || a.WritePosts? || a.Force?)
    ensures Core(Step(s, a))
  {
  }

  lemma ChannelProgress(s: State, a: Action)
    requires Core(s) && Progress(s) && Enabled(s, a) && (a.ReadPosts? || a.WriteEnds? || a.WritePosts? || a.Force?)
    ensures Progress(Step(s, a))
  {
  }

  /** The channel side of an outstanding READ completes: nothing else moves. */
  ghost predicate Completes(s: State, t: State) {
    && t.bufsize == s.bufsize && t.x == s.x && t.w == s.w && t.stop == s.stop
    && t.devecb == s.devecb && t.wakeecb == s.wakeecb
    && t.h.started == s.h.started && t.h.lastHalt == s.h.lastHalt
    && t.r.pc == s.r.pc && t.r.rready == s.r.rready && t.r.rarmed == s.r.rarmed && t.r.rlen == s.r.rlen
    && t.r.recb == s.r.recb && t.r.returnecb == s.r.returnecb
    && s.r.ch.Out? && t.r.ch.Posting?
    && |t.r.rbuf| == |s.r.rbuf|
  }

  lemma CompletesKeeps(s: State, t: State)
    requires Control(s) && Completes(s, t)
    ensures Control(t)
  {
  }

  lemma FrameArrives(s: State, blk: Octets)
    requires Control(s)
    ensures Control(Step(s, Frame(blk)))
  {
    if s.r.ch.Out? {
      CompletesKeeps(s, Complete(s, blk));
    }
  }

  /** A packet offered to the send queue: at most the queue and the wake-up change. */
  ghost predicate Offers(s: State, t: State) {
    && t.bufsize == s.bufsize && t.r == s.r && t.w == s.w && t.stop == s.stop && t.devecb == s.devecb
    && (s.x.pc.Gate? || s.x.pc.Handlers?) && t.h.started == s.h.started && t.h.lastHalt == s.h.lastHalt
    && |t.x.sendq| <= SENDQ_MAX && t.x == s.x.(sendq := t.x.sendq) && (s.x.sendq != [] ==> t.x.sendq != [])
    && if t.x.sendq == s.x.sendq then t.wakeecb == s.wakeecb else t.wakeecb
  }

  lemma SendCallMoves(s: State, data: Octets)
    requires Core(s) && (s.x.pc.Gate? || s.x.pc.Handlers?)
    ensures Offers(s, Step(s, Send(data)))
  {
    var t := Step(s, Send(data));
    assert t.r == s.r && t.w == s.w && t.stop == s.stop && t.x.pc == s.x.pc && t.devecb == s.devecb;
  }

  lemma SendCallCore(s: State, t: State)
    requires Core(s) && Offers(s, t)
    ensures Core(t)
  {
  }

  lemma SendCallProgress(s: State, t: State)
    requires Core(s) && Progress(s) && Offers(s, t)
    ensures Progress(t)
  {
  }

  lemma EnvironmentCore(s: State, a: Action)
    requires Core(s) && Enabled(s, a) && (a.Wake? || a.Stop? || a.PollRead? || a.PollWrite? || a.JoinTimeout?)
    ensures Core(Step(s, a))
  {
  }

  lemma EnvironmentProgress(s: State, a: Action)
    requires Core(s) && Progress(s) && Enabled(s, a) && (a.Wake? || a.Stop? || a.PollRead? || a.PollWrite? || a.JoinTimeout?)
    ensures Progress(Step(s, a))
  {
  }

  lemma GatesCore(s: State)
    requires Core(s) && (s.x.pc.Gate? || s.x.pc.GateWrite?)
    ensures Core(DoPass(s))
  {
    var t := DoPass(s);
    assert t.r == s.r && t.w == s.w && t.h == s.h && t.stop == s.stop && SameFlags(t.x, s.x) && t.x.sendq == s.x.sendq;
  }

  lemma GatesProgress(s: State)
    requires Core(s) && Progress(s) && (s.x.pc.Gate? || s.x.pc.GateWrite?)
    ensures Progress(DoPass(s))
  {
    var t := DoPass(s);
    assert t.r == s.r && t.w == s.w && t.h == s.h && t.stop == s.stop && SameFlags(t.x, s.x) && t.x.sendq == s.x.sendq;
  }

  lemma WakeupCore(s: State)
    requires Core(s) && s.x.pc.Blocked?
    ensures Core(DoPass(s))
  {
    var t := DoPass(s);
    assert t.r == s.r && t.w == s.w && t.h == s.h && t.stop == s.stop && SameFlags(t.x, s.x) && t.x.sendq == s.x.sendq;
  }

  lemma WakeupProgress(s: State)
    requires Core(s) && Progress(s) && s.x.pc.Blocked?
    ensures Progress(DoPass(s))
  {
    var t := DoPass(s);
    assert t.r == s.r && t.w == s.w && t.h == s.h && t.stop == s.stop && SameFlags(t.x, s.x) && t.x.sendq == s.x.sendq;
  }

  lemma ResetsCore(s: State)
    requires Core(s) && (s.x.pc.ClearWake? || s.x.pc.ClearDev?)
    ensures Core(DoPass(s))
  {
    var t := DoPass(s);
    assert t.r == s.r && t.w == s.w && t.h == s.h && t.stop == s.stop && SameFlags(t.x, s.x) && t.x.sendq == s.x.sendq;
  }

  lemma ResetsProgress(s: State)
    requires Core(s) && Progress(s) && (s.x.pc.ClearWake? || s.x.pc.ClearDev?)
    ensures Progress(DoPass(s))
  {
    var t := DoPass(s);
    assert t.r == s.r && t.w == s.w && t.h == s.h && t.stop == s.stop && SameFlags(t.x, s.x) && t.x.sendq == s.x.sendq;
  }

  /** One event dispatched, or the dispatch over: only the event queue, the budget and the histories move. */
  ghost predicate Dispatches(s: State, t: State) {
    && t.bufsize == s.bufsize && t.r == s.r && t.w == s.w && t.stop == s.stop && t.devecb == s.devecb && t.wakeecb == s.wakeecb
    && SameFlags(t.x, s.x) && t.x.sendq == s.x.sendq && t.x.hand == s.x.hand && t.x.txlen == s.x.txlen
    && s.x.pc.Handlers? && (t.x.pc.Handlers? || t.x.pc.Kick?) && |t.x.evq| <= |s.x.evq| && t.x.budget <= s.x.budget
    && t.h.started == s.h.started && t.h.lastHalt == s.h.lastHalt
  }

  lemma HandOverMoves(s: State)
    requires s.x.pc.Handlers? && s.x.evq != [] && s.x.budget > 0
    ensures Dispatches(s, HandOver(s))
  {
  }

  lemma DispatchMoves(s: State)
    requires s.x.pc.Handlers?
    ensures Dispatches(s, DoPass(s))
  {
    if s.x.evq != [] && s.x.budget > 0 { HandOverMoves(s); }
  }

  lemma DispatchCore(s: State, t: State)
    requires Core(s) && Dispatches(s, t)
    ensures Core(t)
  {
  }

  lemma DispatchProgress(s: State, t: State)
    requires Core(s) && Progress(s) && Dispatches(s, t)
    ensures Progress(t)
  {
  }

  /** A block decoded, or found missing: only the event queue and the histories move. */
  ghost predicate Unpacks(s: State, t: State) {
    && t.bufsize == s.bufsize && t.r == s.r && t.w == s.w && t.stop == s.stop && t.devecb == s.devecb && t.wakeecb == s.wakeecb
    && SameFlags(t.x, s.x) && t.x.sendq == s.x.sendq && t.x.hand == s.x.hand && t.x.txlen == s.x.txlen && t.x.budget == s.x.budget
    && |t.x.evq| <= EVT_POOL && t.h.started == s.h.started && t.h.lastHalt == s.h.lastHalt
    && if s.x.pc.DecodeBlock? then t.x.pc.ClearReady?
       else s.x.pc.TestReady? && if s.r.rready then t.x.pc.DecodeBlock? else t.x.pc.TestWready?
  }

  lemma UnpackMoves(s: State, fates: seq<Fate>)
    requires Core(s) && ExecEnabled(s, fates) && s.x.pc.DecodeBlock?
    ensures Unpacks(s, Unpack(s, fates))
  {
  }

  lemma DecodeMoves(s: State, fates: seq<Fate>)
    requires Core(s) && ExecEnabled(s, fates) && (s.x.pc.TestReady? || s.x.pc.DecodeBlock?)
    ensures Unpacks(s, DoService(s, fates))
  {
    if s.x.pc.DecodeBlock? { UnpackMoves(s, fates); }
  }

  lemma DecodeCore(s: State, t: State)
    requires Core(s) && Unpacks(s, t)
    ensures Core(t)
  {
  }

  lemma DecodeProgress(s: State, t: State)
    requires Core(s) && Progress(s) && Unpacks(s, t)
    ensures Progress(t)
  {
  }

  lemma TakeReadCore(s: State, fates: seq<Fate>)
    requires Core(s) && ExecEnabled(s, fates) && (s.x.pc.ClearReady? || s.x.pc.SetHold?)
    ensures Core(DoService(s, fates))
  {
    var t := DoService(s, fates);
    assert t.w == s.w && t.stop == s.stop && t.devecb == s.devecb && t.r.pc == s.r.pc && t.r.ch == s.r.ch;
  }

  lemma TakeReadProgress(s: State, fates: seq<Fate>)
    requires Core(s) && Progress(s) && ExecEnabled(s, fates) && (s.x.pc.ClearReady? || s.x.pc.SetHold?)
    ensures Progress(DoService(s, fates))
  {
    var t := DoService(s, fates);
    assert t.w == s.w && t.stop == s.stop && t.devecb == s.devecb && t.r.pc == s.r.pc && t.r.ch == s.r.ch;
  }

  lemma ReapWriteCore(s: State, fates: seq<Fate>)
    requires Core(s) && ExecEnabled(s, fates) && (s.x.pc.TestWready? || s.x.pc.Reap?)
    ensures Core(DoService(s, fates))
  {
    var t := DoService(s, fates);
    assert t.r == s.r && t.w == s.w && t.stop == s.stop && t.devecb == s.devecb && SameFlags(t.x, s.x) && t.x.sendq == s.x.sendq;
  }

  lemma ReapWriteProgress(s: State, fates: seq<Fate>)
    requires Core(s) && Progress(s) && ExecEnabled(s, fates) && (s.x.pc.TestWready? || s.x.pc.Reap?)
    ensures Progress(DoService(s, fates))
  {
    var t := DoService(s, fates);
    assert t.r == s.r && t.w == s.w && t.stop == s.stop && t.devecb == s.devecb && SameFlags(t.x, s.x) && t.x.sendq == s.x.sendq;
  }

  lemma EndWriteCore(s: State, fates: seq<Fate>)
    requires Core(s) && ExecEnabled(s, fates) && (s.x.pc.ClearWready? || s.x.pc.ClearTxbusy?)
    ensures Core(DoService(s, fates))
  {
    var t := DoService(s, fates);
    assert t.r == s.r && t.stop == s.stop && t.devecb == s.devecb && t.x.sendq == s.x.sendq && t.x.rhold == s.x.rhold && t.x.halting == s.x.halting;
  }

  lemma EndWriteProgress(s: State, fates: seq<Fate>)
    requires Core(s) && Progress(s) && ExecEnabled(s, fates) && (s.x.pc.ClearWready? || s.x.pc.ClearTxbusy?)
    ensures Progress(DoService(s, fates))
  {
    var t := DoService(s, fates);
    assert t.r == s.r && t.stop == s.stop && t.devecb == s.devecb && t.x.sendq == s.x.sendq && t.x.rhold == s.x.rhold && t.x.halting == s.x.halting;
  }

  lemma KickEntersCore(s: State)
    requires Core(s) && (s.x.pc.Kick? || s.x.pc.TestArmed?)
    ensures Core(DoPark(s))
  {
    var t := DoPark(s);
    assert t.r == s.r && t.w == s.w && t.h == s.h && t.stop == s.stop && t.devecb == s.devecb && t.wakeecb == s.wakeecb && SameFlags(t.x, s.x) && t.x.sendq == s.x.sendq;
  }

  lemma KickEntersProgress(s: State)
    requires Core(s) && Progress(s) && (s.x.pc.Kick? || s.x.pc.TestArmed?)
    ensures Progress(DoPark(s))
  {
    var t := DoPark(s);
    assert t.r == s.r && t.w == s.w && t.h == s.h && t.stop == s.stop && t.devecb == s.devecb && t.wakeecb == s.wakeecb && SameFlags(t.x, s.x) && t.x.sendq == s.x.sendq;
  }

  lemma HaltCore(s: State)
    requires Core(s) && (s.x.pc.SetHalting? || s.x.pc.HaltRead?)
    ensures Core(DoPark(s))
  {
    var t := DoPark(s);
    assert t.w == s.w && t.stop == s.stop && t.devecb == s.devecb && t.wakeecb == s.wakeecb && t.r.pc == s.r.pc && t.r.rready == s.r.rready && t.r.recb == s.r.recb && t.r.returnecb == s.r.returnecb && t.r.rarmed == s.r.rarmed && t.x.sendq == s.x.sendq && t.x.rhold == s.x.rhold && t.x.txbusy == s.x.txbusy;
  }

  lemma HaltProgress(s: State)
    requires Core(s) && Progress(s) && (s.x.pc.SetHalting? || s.x.pc.HaltRead?)
    ensures Progress(DoPark(s))
  {
    var t := DoPark(s);
    assert t.w == s.w && t.stop == s.stop && t.devecb == s.devecb && t.wakeecb == s.wakeecb && t.r.pc == s.r.pc && t.r.rready == s.r.rready && t.r.recb == s.r.recb && t.r.returnecb == s.r.returnecb && t.r.rarmed == s.r.rarmed && t.x.sendq == s.x.sendq && t.x.rhold == s.x.rhold && t.x.txbusy == s.x.txbusy;
  }

  /** Kick decides one packet's fate: into the write buffer, or dropped. */
  ghost predicate Encodes(s: State, t: State) {
    && t.bufsize == s.bufsize && t.r == s.r && t.stop == s.stop && t.devecb == s.devecb && t.wakeecb == s.wakeecb
    && SameFlags(t.x, s.x) && t.x.sendq == s.x.sendq && t.x.evq == s.x.evq && t.x.budget == s.x.budget
    && s.x.pc.EncodePacket? && t.x.hand.None? && (t.x.pc.Dequeue? || t.x.pc.SetTxbusy?) && t.x.txlen <= s.bufsize
    && t.w.pc == s.w.pc && t.w.wready == s.w.wready && t.w.ch == s.w.ch
    && t.w.txgoecb == s.w.txgoecb && t.w.wecb == s.w.wecb && |t.w.wbuf| == |s.w.wbuf|
    && t.h.started == s.h.started && t.h.lastHalt == s.h.lastHalt
  }

  lemma EncodesKeeps(s: State, t: State)
    requires Control(s) && Encodes(s, t)
    ensures Control(t)
  {
  }

  lemma EncodeOne(s: State)
    requires Control(s) && s.x.pc.EncodePacket?
    ensures Control(DoSend(s))
  {
    EncodesKeeps(s, DoSend(s));
  }

  /** The head of the send queue, if there is one, comes to hand. */
  predicate Dequeues(s: State, t: State) {
    && t == s.(x := s.x.(pc := t.x.pc, hand := t.x.hand, sendq := t.x.sendq)) && s.x.pc.Dequeue?
    && if s.x.sendq == [] then t.x.pc.ClearHold? && t.x.hand == s.x.hand && t.x.sendq == s.x.sendq
       else t.x.pc.EncodePacket? && t.x.hand.Some? && t.x.hand.value == s.x.sendq[0] && t.x.sendq == s.x.sendq[1..]
  }

  lemma DequeuesKeeps(s: State, t: State)
    requires Core(s) && Progress(s) && Dequeues(s, t)
    ensures Core(t) && Progress(t)
  {
  }

  lemma DequeueKeeps(s: State)
    requires Core(s) && Progress(s) && s.x.pc.Dequeue?
    ensures Core(DoSend(s)) && Progress(DoSend(s))
  {
    DequeuesKeeps(s, DoSend(s));
  }

  lemma HandCore(s: State)
    requires Core(s) && (s.x.pc.SetTxbusy? || s.x.pc.PostGo?)
    ensures Core(DoSend(s))
  {
    var t := DoSend(s);
    assert t.r == s.r && t.stop == s.stop && t.h == s.h && t.x.sendq == s.x.sendq && t.x.rhold == s.x.rhold && t.w.pc == s.w.pc && t.w.wready == s.w.wready && t.w.ch == s.w.ch && t.w.wecb == s.w.wecb;
  }

  lemma HandProgress(s: State)
    requires Core(s) && Progress(s) && (s.x.pc.SetTxbusy? || s.x.pc.PostGo?)
    ensures Progress(DoSend(s))
  {
    var t := DoSend(s);
    assert t.r == s.r && t.stop == s.stop && t.h == s.h && t.x.sendq == s.x.sendq && t.x.rhold == s.x.rhold && t.w.pc == s.w.pc && t.w.wready == s.w.wready && t.w.ch == s.w.ch && t.w.wecb == s.w.wecb;
  }

  lemma ReleaseCore(s: State)
    requires Core(s) && AtRelease(s.x.pc)
    ensures Core(DoRelease(s))
  {
    var t := DoRelease(s);
    assert t.w == s.w && t.stop == s.stop && t.h == s.h && t.x.sendq == s.x.sendq;
  }

  lemma ReleaseProgress(s: State)
    requires Core(s) && Progress(s) && AtRelease(s.x.pc)
    ensures Progress(DoRelease(s))
  {
    var t := DoRelease(s);
    assert t.w == s.w && t.stop == s.stop && t.h == s.h && t.x.sendq == s.x.sendq;
  }

  lemma ShutdownCore(s: State, fates: seq<Fate>)
    requires Core(s) && ExecEnabled(s, fates) && AtShutdown(s.x.pc)
    ensures Core(DoShutdown(s))
  {
  }

  lemma ShutdownProgress(s: State, fates: seq<Fate>)
    requires Core(s) && Progress(s) && ExecEnabled(s, fates) && AtShutdown(s.x.pc)
    ensures Progress(DoShutdown(s))
  {
  }

  lemma ExecKeeps(s: State, fates: seq<Fate>)
    requires Control(s) && ExecEnabled(s, fates)
    ensures Control(DoExec(s, fates))
  {
    if s.x.pc.Blocked? { WakeupCore(s); WakeupProgress(s); }
    else if Between(s.x.pc) { GatesCore(s); GatesProgress(s); }
    else if s.x.pc.Handlers? { DispatchMoves(s); DispatchCore(s, DoPass(s)); DispatchProgress(s, DoPass(s)); }
    else if AtPass(s.x.pc) { ResetsCore(s); ResetsProgress(s); }
    else if s.x.pc.TestReady? || s.x.pc.DecodeBlock? {
      DecodeMoves(s, fates);
      DecodeCore(s, DoService(s, fates));
      DecodeProgress(s, DoService(s, fates));
    }
    else if s.x.pc.ClearReady? || s.x.pc.SetHold? { TakeReadCore(s, fates); TakeReadProgress(s, fates); }
    else if s.x.pc.TestWready? || s.x.pc.Reap? { ReapWriteCore(s, fates); ReapWriteProgress(s, fates); }
    else if AtService(s.x.pc) { EndWriteCore(s, fates); EndWriteProgress(s, fates); }
    else if s.x.pc.Kick? || s.x.pc.TestArmed? { KickEntersCore(s); KickEntersProgress(s); }
    else if AtPark(s.x.pc) { HaltCore(s); HaltProgress(s); }
    else if s.x.pc.EncodePacket? { EncodeOne(s); }
    else if s.x.pc.Dequeue? { DequeueKeeps(s); }
    else if AtSend(s.x.pc) { HandCore(s); HandProgress(s); }
    else if AtRelease(s.x.pc) { ReleaseCore(s); ReleaseProgress(s); }
    else { ShutdownCore(s, fates); ShutdownProgress(s, fates); }
  }

  lemma ReadKeeps(s: State)
    requires Control(s) && ReadEnabled(s)
    ensures Control(DoRead(s))
  {
    if s.r.pc.RExcp? { ReadExcpKeeps(s); }
    else if Starting(s.r) { ReadStartsCore(s); ReadStartsProgress(s); }
    else if Started(s.r) { ReadWaitsCore(s); ReadWaitsProgress(s); }
    else if InHand(s.r) { ReadHandsUpCore(s); ReadHandsUpProgress(s); }
    else if Parked(s.r) { ReadParksCore(s); ReadParksProgress(s); }
    else { ReadClosesCore(s); ReadClosesProgress(s); }
  }

  lemma WriteKeeps(s: State)
    requires Control(s) && WriteEnabled(s)
    ensures Control(DoWrite(s))
  {
    if WriteGone(s.w) { WriteClosesCore(s); WriteWaitsGoProgress(s); }
    else if WIdle(s.w) { WriteWaitsGoCore(s); WriteWaitsGoProgress(s); }
    else if WOut(s.w) || WEnding(s.w) { WriteEndingCore(s); WriteEndingProgress(s); }
    else { WriteStartsCore(s); WriteStartsProgress(s); }
  }

  /** Every step of every agent, in any interleaving, keeps the control invariant. */
  lemma StepKeeps(s: State, a: Action)
    requires Control(s) && Enabled(s, a)
    ensures Control(Step(s, a))
  {
    match a {
      case ReadStep => ReadKeeps(s);
      case WriteStep => WriteKeeps(s);
      case ExecStep(fates) => ExecKeeps(s, fates);
      case ReadPosts | WriteEnds(_) | WritePosts | Force(_, _) => ChannelCore(s, a); ChannelProgress(s, a);
      case Frame(blk) => FrameArrives(s, blk);
      case Send(data) => SendCallMoves(s, data); SendCallCore(s, Step(s, a)); SendCallProgress(s, Step(s, a));
      case _ => EnvironmentCore(s, a); EnvironmentProgress(s, a);
    }
  }
}
